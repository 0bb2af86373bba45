/** Which strings are core segments, and what model each of them is. */
module TcfCoreParse {
  import opened Wrappers
  import opened TcfBits
  import TcfBase64
  import opened TcfVector
  import opened TcfVendors
  import opened TcfRestrictions
  import Codec = TcfRestrictionCodec
  import opened TcfSegment
  import opened TcfSegmentRoundTrip
  import opened TcfLayout
  import opened TcfCoreLayout
  import opened TcfParse

  // ---------- one field ----------

  /** What a field of fixed width is read as, by its encoder. */
  ghost predicate ReadsValue(bits: Bits, pos: nat, e: Encoder, v: Value) {
    match e
    case IntEncoder(width) => pos + width <= |bits| && v == Number(NumberAt(bits, pos, width))
    case DateEncoder(width) => pos + width <= |bits| && v == Number(100 * NumberAt(bits, pos, width))
    case BooleanEncoder => v == Flag(pos < |bits| && bits[pos])
    case LangEncoder(_) => pos + 12 <= |bits| && v.Text? && IsCodeAt(bits, pos, v.s)
    case FixedVectorEncoder(width) => pos + width <= |bits| && v.Ids? && AreIdsAt(bits, pos, width, v.ids)
    case _ => true
  }

  /** Two characters, counted from A. */
  ghost predicate IsCodeAt(bits: Bits, pos: nat, s: string)
    requires pos + 12 <= |bits|
  {
    && |s| == 2 && s[0] as int == 65 + NumberAt(bits, pos, 6) && s[1] as int == 65 + NumberAt(bits, pos + 6, 6)
  }

  ghost predicate AreIdsAt(bits: Bits, pos: nat, count: nat, ids: set<nat>)
    requires pos + count <= |bits|
  {
    forall id: nat :: id in ids <==> 1 <= id <= count && bits[pos + id - 1]
  }

  function EncodedWidth(e: Encoder): nat
    requires !SizesItself(e)
  {
    if e.BooleanEncoder? then 1 else e.width
  }

  lemma {:induction false} NumberBelow(bits: Bits, pos: nat, width: nat)
    requires pos + width <= |bits|
    ensures ReadInt(bits, pos, width) == Ok(NumberAt(bits, pos, width)) && NumberAt(bits, pos, width) < Pow2(width)
  {
    NumberIs(bits, pos, width);
    ValueBounded(bits, pos, width);
  }

  lemma {:induction false} CodeReads(bits: Bits, pos: nat)
    ensures DecodeLetters(bits, pos, 12).Ok? <==> pos + 12 <= |bits|
    ensures DecodeLetters(bits, pos, 12).Ok? ==> IsCodeAt(bits, pos, DecodeLetters(bits, pos, 12).value)
  {
    if pos + 12 <= |bits| {
      assert Pow2(6) == 64;
      NumberBelow(bits, pos, 6);
      NumberBelow(bits, pos + 6, 6);
    }
  }

  lemma {:induction false} IdsRead(bits: Bits, pos: nat, width: nat)
    ensures DecodeField(Sub(bits, pos, width), width).Ok? <==> pos + width <= |bits| || width == 0
    ensures pos + width <= |bits| ==> AreIdsAt(bits, pos, width, DecodeField(Sub(bits, pos, width), width).value)
  {
    if pos + width <= |bits| {
      var field := Sub(bits, pos, width);
      forall id: nat ensures id in FieldIds(field) <==> 1 <= id <= width && bits[pos + id - 1] {
        assert 1 <= id <= width ==> field[id - 1] == bits[pos + (id - 1)];
      }
    }
  }

  /** A field of fixed width is read where there is room for it. */
  lemma {:induction false} FixedReads(bits: Bits, pos: nat, e: Encoder)
    requires IsSized(e) && !SizesItself(e) && (e.FixedVectorEncoder? ==> e.width > 0)
    ensures DecodeValue(e, bits, pos).Ok? <==> e.BooleanEncoder? || pos + EncodedWidth(e) <= |bits|
    ensures DecodeValue(e, bits, pos).Ok? ==>
              var read := DecodeValue(e, bits, pos).value;
              read.pos == pos + EncodedWidth(e) && ReadsValue(bits, pos, e, read.v)
  {
    match e
    case IntEncoder(width) =>
      if pos + width <= |bits| {
        NumberBelow(bits, pos, width);
      }
    case DateEncoder(width) =>
      if pos + width <= |bits| {
        NumberBelow(bits, pos, width);
      }
    case BooleanEncoder =>
    case LangEncoder(_) => CodeReads(bits, pos);
    case FixedVectorEncoder(width) => IdsRead(bits, pos, width);
  }

  // ---------- the fields of fixed width ----------

  lemma {:induction false} FixedFields(k: nat)
    requires k < 16
    ensures var e := EncoderOf(FIELDS[k]);
            IsSized(e) && Reaches(e, k) && (e.FixedVectorEncoder? ==> e.width > 0)
  {
    AllReach(k);
  }

  lemma {:induction false} ReadStart(bits: Bits, vals: seq<Value>, starts: seq<nat>, k: nat)
    requires Chained(FieldReader(bits), FIELDS, vals, starts) && starts[0] == 0 && k <= 16
    ensures starts[k] == STARTS[k]
  {
    if k > 0 {
      ReadStart(bits, vals, starts, k - 1);
      FixedFields(k - 1);
      FixedReads(bits, STARTS[k - 1], EncoderOf(FIELDS[k - 1]));
      assert ReadsNext(FieldReader(bits), FIELDS, vals, starts, k - 1);
    }
  }

  lemma {:induction false} ReadValue(bits: Bits, vals: seq<Value>, starts: seq<nat>, k: nat)
    requires Chained(FieldReader(bits), FIELDS, vals, starts) && starts[0] == 0 && k < 16
    ensures ReadsValue(bits, STARTS[k], EncoderOf(FIELDS[k]), vals[k])
    ensures EncoderOf(FIELDS[k]).BooleanEncoder? || STARTS[k + 1] <= |bits|
  {
    ReadStart(bits, vals, starts, k);
    FixedFields(k);
    FixedReads(bits, STARTS[k], EncoderOf(FIELDS[k]));
    assert ReadsNext(FieldReader(bits), FIELDS, vals, starts, k);
  }

  // ---------- from a successful decoding to its values ----------

  /** What was read from the k-th field on. */
  ghost predicate ChainedFrom(read: (Field, nat) -> Coded<Read>, fs: seq<Field>, vals: seq<Value>, starts: seq<nat>,
                              k: nat)
    requires k <= |fs|
  {
    && |vals| == |fs| - k && |starts| == |vals| + 1
    && forall i {:trigger vals[i]} | 0 <= i < |vals| :: read(fs[k + i], starts[i]) == Ok(Read(vals[i], starts[i + 1]))
  }

  lemma {:induction false} ChainMore(read: (Field, nat) -> Coded<Read>, fs: seq<Field>, vals: seq<Value>,
                                     starts: seq<nat>, k: nat, v: Value, pos: nat)
    requires k < |fs| && ChainedFrom(read, fs, vals, starts, k + 1) && read(fs[k], pos) == Ok(Read(v, starts[0]))
    ensures ChainedFrom(read, fs, [v] + vals, [pos] + starts, k)
  {
    var more, begin := [v] + vals, [pos] + starts;
    forall i | 0 <= i < |more| ensures read(fs[k + i], begin[i]) == Ok(Read(more[i], begin[i + 1])) {
      if i > 0 {
        assert more[i] == vals[i - 1] && begin[i] == starts[i - 1] && begin[i + 1] == starts[i];
        assert read(fs[k + 1 + (i - 1)], starts[i - 1]) == Ok(Read(vals[i - 1], starts[i]));
      }
    }
  }

  lemma {:induction false} DecodedFrom(read: (Field, nat) -> Coded<Read>, fs: seq<Field>, pos: nat, k: nat, t: Model)
    returns (vals: seq<Value>, starts: seq<nat>)
    requires k <= |fs| && DecodeFields(read, pos, fs, k, t).Ok?
    ensures ChainedFrom(read, fs, vals, starts, k) && starts[0] == pos
    decreases |fs| - k
  {
    if k == |fs| {
      vals, starts := [], [pos];
    } else {
      var value := read(fs[k], pos).value;
      var next := Store(t, fs[k], value.v).value;
      var rest, begin := DecodedFrom(read, fs, value.pos, k + 1, next);
      ChainMore(read, fs, rest, begin, k, value.v, pos);
      vals, starts := [value.v] + rest, [pos] + begin;
    }
  }

  lemma {:induction false} DecodedChain(read: (Field, nat) -> Coded<Read>, fs: seq<Field>, t: Model)
    returns (vals: seq<Value>, starts: seq<nat>)
    requires DecodeFields(read, 0, fs, 0, t).Ok?
    ensures Chained(read, fs, vals, starts) && starts[0] == 0
    ensures DecodeFields(read, 0, fs, 0, t) == StoreAll(t, fs, vals, 0)
  {
    vals, starts := DecodedFrom(read, fs, 0, 0, t);
    forall i | 0 <= i < |fs| ensures ReadsNext(read, fs, vals, starts, i) {
      assert fs[0 + i] == fs[i] && read(fs[0 + i], starts[i]) == Ok(Read(vals[i], starts[i + 1]));
    }
    FieldsInARow(read, fs, vals, starts, 0, t);
  }

  // ---------- the sections ----------

  /** From bit 213 on, where the one before ends: vendors, vendors, restrictions. */
  ghost predicate HasSections(bits: Bits, v: Entry, w: Entry, x: Codec.Decoded) {
    && DecodeVendors(Rest(bits, 213), 2) == Ok(v) && DecodeVendors(Rest(bits, 213 + v.pos), 2) == Ok(w)
    && Codec.DecodeRestrictions(Rest(bits, 213 + v.pos + w.pos)) == Ok(x)
  }

  lemma {:induction false} VendorsRead(bits: Bits, fs: seq<Field>, vals: seq<Value>, starts: seq<nat>, k: nat)
    returns (entry: Entry)
    requires Chained(FieldReader(bits), fs, vals, starts) && k < |fs| && EncoderOf(fs[k]) == VendorVectorEncoder
    ensures DecodeVendors(Rest(bits, starts[k]), 2) == Ok(entry)
    ensures vals[k] == Ids(entry.ids) && starts[k + 1] == starts[k] + entry.pos
  {
    assert ReadsNext(FieldReader(bits), fs, vals, starts, k);
    entry := DecodeVendors(Rest(bits, starts[k]), 2).value;
  }

  lemma {:induction false} RestrictionsRead(bits: Bits, fs: seq<Field>, vals: seq<Value>, starts: seq<nat>, k: nat)
    returns (x: Codec.Decoded)
    requires Chained(FieldReader(bits), fs, vals, starts) && k < |fs| && EncoderOf(fs[k]) == RestrictionsEncoder
    ensures Codec.DecodeRestrictions(Rest(bits, starts[k])) == Ok(x) && vals[k] == Limits(x.table)
  {
    assert ReadsNext(FieldReader(bits), fs, vals, starts, k);
    x := Codec.DecodeRestrictions(Rest(bits, starts[k])).value;
  }

  /** For any fields of which the k-th is the first of the sections. */
  lemma {:induction false} LastThreeRead(bits: Bits, fs: seq<Field>, vals: seq<Value>, starts: seq<nat>, k: nat)
    returns (v: Entry, w: Entry, x: Codec.Decoded)
    requires Chained(FieldReader(bits), fs, vals, starts) && k + 3 == |fs| && starts[k] == 213
    requires EncoderOf(fs[k]) == VendorVectorEncoder && EncoderOf(fs[k + 1]) == VendorVectorEncoder
    requires EncoderOf(fs[k + 2]) == RestrictionsEncoder
    ensures HasSections(bits, v, w, x)
    ensures vals[k] == Ids(v.ids) && vals[k + 1] == Ids(w.ids) && vals[k + 2] == Limits(x.table)
  {
    v := VendorsRead(bits, fs, vals, starts, k);
    w := VendorsRead(bits, fs, vals, starts, k + 1);
    x := RestrictionsRead(bits, fs, vals, starts, k + 2);
  }

  lemma {:induction false} LastEncoders()
    ensures EncoderOf(FIELDS[16]) == VendorVectorEncoder && EncoderOf(FIELDS[17]) == VendorVectorEncoder
    ensures EncoderOf(FIELDS[18]) == RestrictionsEncoder
  {
  }

  lemma {:induction false} SectionsRead(bits: Bits, vals: seq<Value>, starts: seq<nat>)
    returns (v: Entry, w: Entry, x: Codec.Decoded)
    requires Chained(FieldReader(bits), FIELDS, vals, starts) && starts[0] == 0
    ensures HasSections(bits, v, w, x)
    ensures vals[16] == Ids(v.ids) && vals[17] == Ids(w.ids) && vals[18] == Limits(x.table)
  {
    ReadStart(bits, vals, starts, 16);
    LastEncoders();
    v, w, x := LastThreeRead(bits, FIELDS, vals, starts, 16);
  }

  // ---------- what the fields come to ----------

  /** In upper case. */
  function InUpper(n: nat): nat {
    if 32 <= n <= 57 then n - 32 else n
  }

  ghost predicate IsUpperCodeAt(bits: Bits, pos: nat, s: string)
    requires pos + 12 <= |bits|
  {
    && |s| == 2 && s[0] as int == 65 + InUpper(NumberAt(bits, pos, 6))
    && s[1] as int == 65 + InUpper(NumberAt(bits, pos + 6, 6))
  }

  /** Where each field of the model is from. */
  ghost predicate IsRead(bits: Bits, w: Model, f: Field)
    requires |bits| >= 213
  {
    match f
    case Version => w.version == NumberAt(bits, 0, 6)
    case Created => w.created == 100 * NumberAt(bits, 6, 36)
    case LastUpdated => w.lastUpdated == 100 * NumberAt(bits, 42, 36)
    case CmpId => w.cmpId == NumberAt(bits, 78, 12)
    case CmpVersion => w.cmpVersion == NumberAt(bits, 90, 12)
    case ConsentScreen => w.consentScreen == NumberAt(bits, 102, 6)
    case ConsentLanguage => IsCodeAt(bits, 108, w.consentLanguage)
    case VendorListVersion => w.vendorListVersion == NumberAt(bits, 120, 12)
    case PolicyVersion => w.policyVersion == NumberAt(bits, 132, 6)
    case IsServiceSpecific => w.isServiceSpecific == bits[138]
    case UseNonStandardTexts => w.useNonStandardTexts == bits[139]
    case SpecialFeatureOptins => AreIdsAt(bits, 140, 12, w.specialFeatureOptins)
    case PurposeConsents => AreIdsAt(bits, 152, 24, w.purposeConsents)
    case PurposeLegitimateInterests => AreIdsAt(bits, 176, 24, w.purposeLegitimateInterests)
    case PurposeOneTreatment => w.purposeOneTreatment == bits[200]
    case PublisherCountryCode => IsUpperCodeAt(bits, 201, w.publisherCountryCode)
    case _ => true
  }

  lemma {:induction false} UpperCode(bits: Bits, pos: nat, s: string)
    requires pos + 12 <= |bits| && IsCodeAt(bits, pos, s)
    ensures IsUpperCodeAt(bits, pos, Upper(s))
    ensures IsCountryCode(s) <==> NumberAt(bits, pos, 6) <= 57 && NumberAt(bits, pos + 6, 6) <= 57
  {
  }

  lemma {:induction false} FieldIsRead(bits: Bits, w: Model, f: Field, v: Value)
    requires |bits| >= 213 && ReadsValue(bits, Start(f), EncoderOf(f), v) && Fetch(w, f) == Stored(f, v)
    ensures IsRead(bits, w, f)
  {
    if f.PublisherCountryCode? {
      UpperCode(bits, 201, v.s);
    }
  }

  lemma {:induction false} FieldAcceptedIff(bits: Bits, f: Field, v: Value)
    requires |bits| >= 213 && ReadsValue(bits, Start(f), EncoderOf(f), v) && !SizesItself(EncoderOf(f))
    ensures Accepts(f, v)
            <==> (f.CmpId? ==> NumberAt(bits, 78, 12) > 1)
                 && (f.PublisherCountryCode? ==> NumberAt(bits, 201, 6) <= 57 && NumberAt(bits, 207, 6) <= 57)
  {
    if f.PublisherCountryCode? {
      UpperCode(bits, 201, v.s);
    }
  }

  /** What the fields of fixed width must hold. */
  ghost predicate HasFields(bits: Bits) {
    && |bits| >= 213 && NumberAt(bits, 78, 12) > 1
    && NumberAt(bits, 201, 6) <= 57 && NumberAt(bits, 207, 6) <= 57
  }

  lemma {:induction false} ValuesAt(bits: Bits, vals: seq<Value>, starts: seq<nat>, f: Field)
    requires Chained(FieldReader(bits), FIELDS, vals, starts) && starts[0] == 0 && !SizesItself(EncoderOf(f))
    ensures ReadsValue(bits, Start(f), EncoderOf(f), vals[IndexOf(f)])
  {
    StartIs(f);
    ReadValue(bits, vals, starts, IndexOf(f));
  }

  lemma {:induction false} SectionsAccepted(bits: Bits, vals: seq<Value>, starts: seq<nat>, f: Field)
    requires Chained(FieldReader(bits), FIELDS, vals, starts) && SizesItself(EncoderOf(f))
    ensures Accepts(f, vals[IndexOf(f)])
  {
    var k := IndexOf(f);
    assert ReadsNext(FieldReader(bits), FIELDS, vals, starts, k);
    assert Suits(EncoderOf(f), DecodeValue(EncoderOf(f), bits, starts[k]).value.v);
  }

  lemma {:induction false} LongEnough(bits: Bits, vals: seq<Value>, starts: seq<nat>)
    requires Chained(FieldReader(bits), FIELDS, vals, starts) && starts[0] == 0
    ensures |bits| >= 213
  {
    ReadValue(bits, vals, starts, 15);
  }

  /** The values are accepted exactly when these are. */
  lemma {:induction false} AllAcceptedIff(bits: Bits, vals: seq<Value>, starts: seq<nat>)
    requires Chained(FieldReader(bits), FIELDS, vals, starts) && starts[0] == 0
    ensures (forall f: Field :: Accepts(f, vals[IndexOf(f)])) <==> HasFields(bits)
  {
    LongEnough(bits, vals, starts);
    forall f: Field
      ensures Accepts(f, vals[IndexOf(f)])
              <==> (f.CmpId? ==> NumberAt(bits, 78, 12) > 1)
                   && (f.PublisherCountryCode? ==> NumberAt(bits, 201, 6) <= 57 && NumberAt(bits, 207, 6) <= 57)
    {
      if SizesItself(EncoderOf(f)) {
        SectionsAccepted(bits, vals, starts, f);
      } else {
        ValuesAt(bits, vals, starts, f);
        FieldAcceptedIff(bits, f, vals[IndexOf(f)]);
      }
    }
    assert Accepts(CmpId, vals[IndexOf(CmpId)]) <==> NumberAt(bits, 78, 12) > 1;
    assert Accepts(PublisherCountryCode, vals[IndexOf(PublisherCountryCode)])
      <==> NumberAt(bits, 201, 6) <= 57 && NumberAt(bits, 207, 6) <= 57;
  }

  lemma {:induction false} StoredIff(t: Model, vals: seq<Value>)
    requires |vals| == 19
    ensures StoreAll(t, FIELDS, vals, 0).Ok? <==> forall f: Field :: Accepts(f, vals[IndexOf(f)])
  {
    StoreAllSucceeds(t, FIELDS, vals, 0);
    EveryFieldOnce();
    if StoreAll(t, FIELDS, vals, 0).Ok? {
      forall f: Field ensures Accepts(f, vals[IndexOf(f)]) {
        assert Accepts(FIELDS[IndexOf(f)], vals[IndexOf(f)]);
      }
    }
    if forall f: Field :: Accepts(f, vals[IndexOf(f)]) {
      forall j | 0 <= j < 19 ensures Accepts(FIELDS[j], vals[j]) {
        var f := FIELDS[j];
        assert FIELDS[IndexOf(f)] == FIELDS[j] && IndexOf(f) == j;
        assert Accepts(f, vals[IndexOf(f)]);
      }
    }
  }

  // ---------- the segment ----------

  /** The field can be read from `pos` up to `end`. */
  predicate CanRead(read: (Field, nat) -> Coded<Read>, f: Field, pos: nat, end: nat) {
    read(f, pos).Ok? && read(f, pos).value.pos == end
  }

  ghost predicate CanReadAll(read: (Field, nat) -> Coded<Read>, fs: seq<Field>, starts: seq<nat>, n: nat)
    requires n <= |fs| && n < |starts|
  {
    forall k {:trigger CanRead(read, fs[k], starts[k], starts[k + 1])} | 0 <= k < n ::
      CanRead(read, fs[k], starts[k], starts[k + 1])
  }

  lemma {:induction false} ChainOf(read: (Field, nat) -> Coded<Read>, fs: seq<Field>, starts: seq<nat>)
    returns (vals: seq<Value>)
    requires |starts| == |fs| + 1 && CanReadAll(read, fs, starts, |fs|)
    ensures Chained(read, fs, vals, starts)
  {
    vals := seq(|fs|, k requires 0 <= k < |fs| =>
      var value := read(fs[k], starts[k]);
      if value.Ok? then value.value.v else Flag(false));
    forall k | 0 <= k < |fs| ensures ReadsNext(read, fs, vals, starts, k) {
      assert CanRead(read, fs[k], starts[k], starts[k + 1]);
    }
  }

  /** One more field. */
  lemma {:induction false} CanReadMore(read: (Field, nat) -> Coded<Read>, fs: seq<Field>, starts: seq<nat>, end: nat)
    requires 0 < |starts| <= |fs| && CanReadAll(read, fs, starts, |starts| - 1)
    requires CanRead(read, fs[|starts| - 1], starts[|starts| - 1], end)
    ensures CanReadAll(read, fs, starts + [end], |starts|)
  {
    var more := starts + [end];
    forall k | 0 <= k < |starts| ensures CanRead(read, fs[k], more[k], more[k + 1]) {
      if k < |starts| - 1 {
        assert CanRead(read, fs[k], starts[k], starts[k + 1]);
      }
    }
  }

  lemma {:induction false} FixedCanBeRead(bits: Bits)
    requires |bits| >= 213
    ensures CanReadAll(FieldReader(bits), FIELDS, STARTS, 16)
  {
    forall k | 0 <= k < 16 ensures CanRead(FieldReader(bits), FIELDS[k], STARTS[k], STARTS[k + 1]) {
      FixedFields(k);
      StartsStay(k);
      FixedReads(bits, STARTS[k], EncoderOf(FIELDS[k]));
    }
  }

  lemma {:induction false} StartsStay(k: nat)
    requires k < 16
    ensures STARTS[k + 1] <= 213
  {
  }

  lemma {:induction false} VendorsCanBeRead(bits: Bits, f: Field, pos: nat, v: Entry)
    requires DecodeVendors(Rest(bits, pos), 2) == Ok(v) && EncoderOf(f) == VendorVectorEncoder
    ensures CanRead(FieldReader(bits), f, pos, pos + v.pos)
  {
  }

  lemma {:induction false} RestrictionsCanBeRead(bits: Bits, f: Field, pos: nat, x: Codec.Decoded)
    requires Codec.DecodeRestrictions(Rest(bits, pos)) == Ok(x) && EncoderOf(f) == RestrictionsEncoder
    ensures CanRead(FieldReader(bits), f, pos, pos + x.pos)
  {
  }

  /** For any way to read, from the fields of fixed width and the three others. */
  lemma {:induction false} ChainExists(read: (Field, nat) -> Coded<Read>, fs: seq<Field>, starts: seq<nat>,
                                       a: nat, b: nat, c: nat)
    returns (vals: seq<Value>, all: seq<nat>)
    requires |starts| > 0 && |fs| == |starts| + 2 && CanReadAll(read, fs, starts, |starts| - 1)
    requires CanRead(read, fs[|starts| - 1], starts[|starts| - 1], a)
    requires CanRead(read, fs[|starts|], a, b) && CanRead(read, fs[|starts| + 1], b, c)
    ensures Chained(read, fs, vals, all) && all[0] == starts[0]
  {
    CanReadMore(read, fs, starts, a);
    CanReadMore(read, fs, starts + [a], b);
    CanReadMore(read, fs, starts + [a] + [b], c);
    all := starts + [a] + [b] + [c];
    vals := ChainOf(read, fs, all);
  }

  /** The bits of a core segment: version 2, room and the right values for the
      fields of fixed width, and the three sections. */
  ghost predicate HasCore(bits: Bits) {
    && HasFields(bits) && NumberAt(bits, 0, 6) == 2
    && exists v, w, x :: HasSections(bits, v, w, x)
  }

  lemma {:induction false} SectionsChain(bits: Bits, v: Entry, w: Entry, x: Codec.Decoded)
    returns (vals: seq<Value>, starts: seq<nat>)
    requires |bits| >= 213 && HasSections(bits, v, w, x)
    ensures Chained(FieldReader(bits), FIELDS, vals, starts) && starts[0] == 0
  {
    var a, b := 213 + v.pos, 213 + v.pos + w.pos;
    LastEncoders();
    FixedCanBeRead(bits);
    VendorsCanBeRead(bits, FIELDS[16], 213, v);
    VendorsCanBeRead(bits, FIELDS[17], a, w);
    RestrictionsCanBeRead(bits, FIELDS[18], b, x);
    vals, starts := ChainExists(FieldReader(bits), FIELDS, STARTS, a, b, b + x.pos);
  }

  lemma {:induction false} ChainedDecodeIff(bits: Bits, vals: seq<Value>, starts: seq<nat>, t: Model)
    requires Chained(FieldReader(bits), FIELDS, vals, starts) && starts[0] == 0
    ensures DecodeFields(FieldReader(bits), 0, FIELDS, 0, t).Ok? <==> HasFields(bits)
  {
    FieldsInARow(FieldReader(bits), FIELDS, vals, starts, 0, t);
    StoredIff(t, vals);
    AllAcceptedIff(bits, vals, starts);
  }

  lemma {:induction false} FieldsDecodeIff(bits: Bits, t: Model)
    ensures DecodeFields(FieldReader(bits), 0, FIELDS, 0, t).Ok?
            <==> HasFields(bits) && exists v, w, x :: HasSections(bits, v, w, x)
  {
    if DecodeFields(FieldReader(bits), 0, FIELDS, 0, t).Ok? {
      var vals, starts := DecodedChain(FieldReader(bits), FIELDS, t);
      ChainedDecodeIff(bits, vals, starts, t);
      var v, w, x := SectionsRead(bits, vals, starts);
    } else if HasFields(bits) {
      if v, w, x :| HasSections(bits, v, w, x) {
        var vals, starts := SectionsChain(bits, v, w, x);
        ChainedDecodeIff(bits, vals, starts, t);
        assert false;
      }
    }
  }

  lemma {:induction false} FieldDecoded(bits: Bits, vals: seq<Value>, starts: seq<nat>, t: Model, f: Field)
    requires Chained(FieldReader(bits), FIELDS, vals, starts) && starts[0] == 0 && |bits| >= 213
    requires StoreAll(t, FIELDS, vals, 0).Ok?
    ensures IsRead(bits, StoreAll(t, FIELDS, vals, 0).value, f)
    ensures Fetch(StoreAll(t, FIELDS, vals, 0).value, f) == Stored(f, vals[IndexOf(f)])
  {
    EveryFieldOnce();
    StoreAllStores(t, FIELDS, vals, 0, IndexOf(f));
    if !SizesItself(EncoderOf(f)) {
      ValuesAt(bits, vals, starts, f);
      FieldIsRead(bits, StoreAll(t, FIELDS, vals, 0).value, f, vals[IndexOf(f)]);
    }
  }

  lemma {:induction false} SectionsStored(m: Model, v: set<nat>, w: set<nat>, x: Table)
    requires Fetch(m, VendorConsents) == Ids(v) && Fetch(m, VendorLegitimateInterests) == Ids(w)
    requires Fetch(m, PublisherRestrictions) == Limits(x)
    ensures m.vendorConsents == v && m.vendorLegitimateInterests == w && m.publisherRestrictions == x
  {
  }

  /** What is decoded. */
  lemma {:induction false} DecodedFields(bits: Bits, t: Model) returns (v: Entry, w: Entry, x: Codec.Decoded)
    requires DecodeFields(FieldReader(bits), 0, FIELDS, 0, t).Ok?
    ensures |bits| >= 213 && HasSections(bits, v, w, x)
    ensures var m := DecodeFields(FieldReader(bits), 0, FIELDS, 0, t).value;
            && (forall f: Field :: IsRead(bits, m, f))
            && m.vendorConsents == v.ids && m.vendorLegitimateInterests == w.ids && m.publisherRestrictions == x.table
  {
    var vals, starts := DecodedChain(FieldReader(bits), FIELDS, t);
    var m := StoreAll(t, FIELDS, vals, 0).value;
    LongEnough(bits, vals, starts);
    v, w, x := SectionsRead(bits, vals, starts);
    forall f: Field ensures IsRead(bits, m, f) {
      FieldDecoded(bits, vals, starts, t, f);
    }
    FieldDecoded(bits, vals, starts, t, VendorConsents);
    FieldDecoded(bits, vals, starts, t, VendorLegitimateInterests);
    FieldDecoded(bits, vals, starts, t, PublisherRestrictions);
    SectionsStored(m, v.ids, w.ids, x.table);
  }

  /** A string decodes exactly when it is of the alphabet and its bits are those of
      a core segment; the model is what stands in them, whatever the model held into
      which it is decoded. */
  lemma {:induction false} CoreDecodesIff(s: string, t: Model) returns (v: Entry, w: Entry, x: Codec.Decoded)
    ensures TcfBase64.Decode(s).Ok? <==> s != "" && IsAlphabet(s)
    ensures DecodeCore(s, t).Ok? <==> TcfBase64.Decode(s).Ok? && HasCore(TcfBase64.Decode(s).value)
    ensures DecodeCore(s, t).Ok? ==>
              var bits, m := TcfBase64.Decode(s).value, DecodeCore(s, t).value;
              && |bits| >= 213 && HasSections(bits, v, w, x) && (forall f: Field :: IsRead(bits, m, f))
              && m.vendorConsents == v.ids && m.vendorLegitimateInterests == w.ids
              && m.publisherRestrictions == x.table
  {
    v, w, x := Entry({}, 0), Entry({}, 0), Codec.Decoded(EMPTY, 0);
    LettersDecodeIff(s);
    if TcfBase64.Decode(s).Ok? {
      var bits := TcfBase64.Decode(s).value;
      if |bits| >= 6 {
        NumberIs(bits, 0, 6);
      }
      FieldsDecodeIff(bits, t.(version := 2));
      if DecodeCore(s, t).Ok? {
        v, w, x := DecodedFields(bits, t.(version := 2));
      }
    }
  }
}
