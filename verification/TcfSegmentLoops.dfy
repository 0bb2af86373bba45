/** The segment encoder and decoder as the bundle runs them: a loop over the fields
    that grows a bit string, and one that moves a cursor and fills the model. */
module TcfSegmentLoops {
  import opened Wrappers
  import opened TcfBits
  import TcfBase64
  import opened TcfVector
  import TcfVendors
  import TcfRestrictions
  import Codec = TcfRestrictionCodec
  import opened TcfSegment

  method VectorOf(ids: set<nat>) returns (v: Vector)
    requires 0 !in ids
    ensures fresh(v) && v.Valid() && v.ids == ids
  {
    v := new Vector();
    var rest := ids;
    while rest != {}
      invariant fresh(v) && v.Valid() && rest <= ids && v.ids == ids - rest
    {
      var id :| id in rest;
      var ok := v.Set(id);
      rest := rest - {id};
    }
  }

  method EncodeVendorField(ids: set<nat>) returns (r: Coded<Bits>)
    requires 0 !in ids
    ensures r == TcfVendors.EncodeVendors(ids, MaxOf(ids))
  {
    var vector := VectorOf(ids);
    r := TcfVendors.EncodeLoop(vector);
  }

  method EncodeFixedField(ids: set<nat>, width: nat) returns (bits: Bits)
    requires 0 !in ids
    ensures bits == FieldBits(ids, width)
  {
    var vector := VectorOf(ids);
    bits := EncodeField(vector, width);
  }

  method EncodeLimits(t: TcfRestrictions.Table, gvl: Option<TcfRestrictions.VendorList>) returns (r: Coded<Bits>)
    ensures r == Codec.EncodeRestrictions(t, gvl)
  {
    var vector := new TcfRestrictions.PurposeRestrictionVector();
    vector.table, vector.gvl := t, gvl;
    r := Codec.EncodeLoop(vector);
  }

  method EncodeOne(e: Encoder, v: Value, gvl: Option<TcfRestrictions.VendorList>) returns (r: Coded<Bits>)
    requires Suits(e, v) && (v.Ids? ==> 0 !in v.ids)
    ensures r == EncodeValue(e, v, gvl)
  {
    match e
    case IntEncoder(width) => r := EncodeInt(v.n, width);
    case DateEncoder(width) => r := EncodeInt(Deciseconds(v.n), width);
    case BooleanEncoder => r := Ok(EncodeFlag(v.b));
    case LangEncoder(width) => r := EncodeLetters(v.s, width);
    case FixedVectorEncoder(width) =>
      var bits := EncodeFixedField(v.ids, width);
      r := Ok(bits);
    case VendorVectorEncoder => r := EncodeVendorField(v.ids);
    case RestrictionsEncoder => r := EncodeLimits(v.t, gvl);
  }

  ghost predicate PositiveIds(m: Model) {
    forall f: Field {:trigger Fetch(m, f)} :: Fetch(m, f).Ids? ==> 0 !in Fetch(m, f).ids
  }

  method EncodeSegment(m: Model, gvl: Option<TcfRestrictions.VendorList>) returns (r: Coded<string>)
    requires PositiveIds(m)
    ensures r == EncodeCore(m, gvl)
  {
    if m.version != 2 {
      return Err(EncodingError);
    }
    ghost var chunks := Chunks(FIELDS, FieldWriter(m, gvl));
    assert AreChunks(chunks, FIELDS, m, gvl);
    var bits := EncodeAll(chunks, FIELDS, m, gvl);
    if bits.Err? {
      return Err(EncodingError);
    }
    r := TcfBase64.EncodeLoop(bits.value);
  }

  ghost predicate IsChunk(chunk: Coded<Bits>, f: Field, m: Model, gvl: Option<TcfRestrictions.VendorList>) {
    chunk == EncodeValue(EncoderOf(f), Fetch(m, f), gvl)
  }

  ghost predicate AreChunks(chunks: seq<Coded<Bits>>, fs: seq<Field>, m: Model,
                            gvl: Option<TcfRestrictions.VendorList>)
  {
    && |chunks| == |fs|
    && forall i {:trigger IsChunk(chunks[i], fs[i], m, gvl)} | 0 <= i < |fs| :: IsChunk(chunks[i], fs[i], m, gvl)
  }

  method EncodeAll(ghost chunks: seq<Coded<Bits>>, fs: seq<Field>, m: Model, gvl: Option<TcfRestrictions.VendorList>)
    returns (r: Coded<Bits>)
    requires PositiveIds(m) && AreChunks(chunks, fs, m, gvl)
    ensures r == Concat(chunks, |fs|)
  {
    var bits: Bits := [];
    for i := 0 to |fs|
      invariant Concat(chunks, i) == Ok(bits)
    {
      var chunk := EncodeAt(chunks, fs, i, m, gvl);
      if chunk.Err? {
        ConcatErrorStays(chunks, i + 1, |fs|);
        return Err(EncodingError);
      }
      bits := bits + chunk.value;
    }
    return Ok(bits);
  }

  method EncodeAt(ghost chunks: seq<Coded<Bits>>, fs: seq<Field>, i: nat, m: Model,
                  gvl: Option<TcfRestrictions.VendorList>)
    returns (r: Coded<Bits>)
    requires PositiveIds(m) && AreChunks(chunks, fs, m, gvl) && i < |fs|
    ensures r == chunks[i]
  {
    var v := Fetch(m, fs[i]);
    r := EncodeOne(EncoderOf(fs[i]), v, gvl);
    assert IsChunk(chunks[i], fs[i], m, gvl);
  }

  method DecodeFixedField(bits: Bits, pos: nat, width: nat) returns (r: Coded<Read>)
    ensures r.Err? <==> DecodeField(Sub(bits, pos, width), width).Err?
    ensures r.Ok? ==> r.value == Read(Ids(DecodeField(Sub(bits, pos, width), width).value), pos + width)
  {
    var back := DecodeFieldLoop(Sub(bits, pos, width), width);
    r := if back.Err? then Err(back.error) else Ok(Read(Ids(back.value.ids), pos + width));
  }

  method DecodeVendorField(bits: Bits, pos: nat) returns (r: Coded<Read>)
    ensures r.Err? <==> TcfVendors.DecodeVendors(Rest(bits, pos), 2).Err?
    ensures r.Ok? ==> var back := TcfVendors.DecodeVendors(Rest(bits, pos), 2).value;
                      r.value == Read(Ids(back.ids), pos + back.pos)
  {
    var back := TcfVendors.DecodeLoop(Rest(bits, pos), 2);
    r := if back.Err? then Err(back.error) else Ok(Read(Ids(back.value.ids), pos + back.value.bitLength));
  }

  method DecodeLimits(bits: Bits, pos: nat) returns (r: Coded<Read>)
    ensures r.Err? <==> Codec.DecodeRestrictions(Rest(bits, pos)).Err?
    ensures r.Ok? ==> var back := Codec.DecodeRestrictions(Rest(bits, pos)).value;
                      r.value == Read(Limits(back.table), pos + back.pos)
  {
    var back := Codec.DecodeLoop(Rest(bits, pos));
    r := if back.Err? then Err(back.error) else Ok(Read(Limits(back.value.table), pos + back.value.bitLength));
  }

  method DecodeOne(e: Encoder, bits: Bits, pos: nat) returns (r: Coded<Read>)
    ensures r.Err? <==> DecodeValue(e, bits, pos).Err?
    ensures r.Ok? ==> r == DecodeValue(e, bits, pos)
  {
    match e
    case FixedVectorEncoder(width) => r := DecodeFixedField(bits, pos, width);
    case VendorVectorEncoder => r := DecodeVendorField(bits, pos);
    case RestrictionsEncoder => r := DecodeLimits(bits, pos);
    case _ => r := DecodeValue(e, bits, pos);
  }

  method DecodeAs(ghost read: (Field, nat) -> Coded<Read>, bits: Bits, f: Field, pos: nat) returns (r: Coded<Read>)
    requires read == FieldReader(bits)
    ensures r.Err? <==> read(f, pos).Err?
    ensures r.Ok? ==> r == read(f, pos)
  {
    r := DecodeOne(EncoderOf(f), bits, pos);
  }

  method DecodeAll(ghost read: (Field, nat) -> Coded<Read>, bits: Bits, fs: seq<Field>, model: Model)
    returns (r: Coded<Model>)
    requires read == FieldReader(bits)
    ensures r.Err? <==> DecodeFields(read, 0, fs, 0, model).Err?
    ensures r.Ok? ==> r == DecodeFields(read, 0, fs, 0, model)
  {
    var t, pos: nat := model, 0;
    ghost var whole := DecodeFields(read, 0, fs, 0, model);
    for k := 0 to |fs|
      invariant DecodeFields(read, pos, fs, k, t) == whole
    {
      var value := DecodeAs(read, bits, fs[k], pos);
      if value.Err? {
        return Err(value.error);
      }
      var next := Store(t, fs[k], value.value.v);
      if next.Err? {
        return Err(next.error);
      }
      t, pos := next.value, value.value.pos;
    }
    return Ok(t);
  }

  method DecodeSegment(s: string, model: Model) returns (r: Coded<Model>)
    ensures r.Err? <==> DecodeCore(s, model).Err?
    ensures r.Ok? ==> r == DecodeCore(s, model)
  {
    var bits := TcfBase64.DecodeLoop(s);
    if bits.Err? {
      return Err(DecodingError);
    }
    var version := ReadInt(bits.value, 0, 6);
    if version.Err? || version.value != 2 {
      return Err(DecodingError);
    }
    r := DecodeAll(FieldReader(bits.value), bits.value, FIELDS, model.(version := version.value));
  }
}
