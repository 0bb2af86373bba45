/** Decoding the core segment undoes encoding it: what was written field by field is
    read field by field, wherever it stands, and stored in the model one by one, as
    far as the setters accept it. */
module TcfSegmentRoundTrip {
  import opened Wrappers
  import opened TcfBits
  import TcfBase64
  import opened TcfVector
  import TcfVendors
  import opened TcfRestrictions
  import Codec = TcfRestrictionCodec
  import opened TcfSegment

  // ---------- one value ----------

  /** Ids are positive, those of restrictions if there is a vendor list, and
      restrictions are in order. */
  ghost predicate Sane(v: Value, gvl: Option<VendorList>) {
    && (v.Ids? ==> 0 !in v.ids)
    && (v.Limits? ==> ValidTable(v.t) && Codec.PositiveIds(v.t, gvl))
  }

  /** What a value comes back as: dates rounded, letters in upper case, vectors
      cut to their width, restrictions restored as far as vendors are listed. */
  ghost predicate ComesBackAs(e: Encoder, v: Value, w: Value, gvl: Option<VendorList>)
    requires Suits(e, v) && Suits(e, w)
  {
    match e
    case IntEncoder(_) => w == v && v.n >= 0
    case DateEncoder(_) => w.n == Deciseconds(v.n) * 100
    case LangEncoder(_) => |v.s| >= 2 && w.s == Upper(v.s)[..2] && IsLetter(w.s[0]) && IsLetter(w.s[1])
    case FixedVectorEncoder(width) => w.ids == set x | x in v.ids && x <= width
    case RestrictionsEncoder => ValidTable(w.t) && Codec.Restores(v.t, w.t, gvl)
    case _ => w == v
  }

  lemma {:induction false} RestAt(bits: Bits, pos: nat, chunk: Bits)
    requires At(bits, pos, chunk)
    ensures Rest(bits, pos) == chunk + Rest(bits, pos + |chunk|)
  {
  }

  lemma {:induction false} LettersReadBack(bits: Bits, pos: nat, s: string)
    requires EncodeLetters(s, 12).Ok? && At(bits, pos, EncodeLetters(s, 12).value)
    ensures |EncodeLetters(s, 12).value| == 12
    ensures |s| >= 2 && DecodeLetters(bits, pos, 12) == Ok(Upper(s)[..2])
    ensures IsLetter(Upper(s)[0]) && IsLetter(Upper(s)[1])
  {
    var a, b := (Upper(s)[0] - 'A') as int, (Upper(s)[1] - 'A') as int;
    AtSplit(bits, pos, EncodeInt(a, 6).value, EncodeInt(b, 6).value);
    ReadWritten(bits, pos, a, 6);
    ReadWritten(bits, pos + 6, b, 6);
    assert Letter(a) == Upper(s)[0] && Letter(b) == Upper(s)[1];
    assert Upper(s)[..2] == [Letter(a), Letter(b)];
  }

  lemma {:induction false} FixedReadBack(bits: Bits, pos: nat, ids: set<nat>, width: nat)
    requires 0 !in ids && At(bits, pos, FieldBits(ids, width))
    ensures DecodeField(Sub(bits, pos, width), width) == Ok(set x | x in ids && x <= width)
  {
    SubAt(bits, pos, FieldBits(ids, width));
    FieldRoundTrip(ids, width);
  }

  lemma {:induction false} VendorsReadBack(bits: Bits, pos: nat, ids: set<nat>, chunk: Bits)
    requires 0 !in ids && TcfVendors.EncodeVendors(ids, MaxOf(ids)) == Ok(chunk) && At(bits, pos, chunk)
    ensures TcfVendors.DecodeVendors(Rest(bits, pos), 2) == Ok(TcfVendors.Entry(ids, |chunk|))
  {
    RestAt(bits, pos, chunk);
    TcfVendors.VendorRoundTrip(ids, MaxOf(ids), Rest(bits, pos + |chunk|));
  }

  lemma {:induction false} RestrictionsReadBack(bits: Bits, pos: nat, t: Table, gvl: Option<VendorList>, chunk: Bits)
    requires ValidTable(t) && Codec.PositiveIds(t, gvl)
    requires Codec.EncodeRestrictions(t, gvl) == Ok(chunk) && At(bits, pos, chunk)
    ensures var back := Codec.DecodeRestrictions(Rest(bits, pos));
            && back.Ok? && back.value.pos == |chunk| && ValidTable(back.value.table)
            && Codec.Restores(t, back.value.table, gvl)
  {
    RestAt(bits, pos, chunk);
    Codec.RestrictionsRoundTrip(t, gvl, Rest(bits, pos + |chunk|));
  }

  /** The fixed widths of the core segment. */
  predicate IsSized(e: Encoder) {
    match e
    case IntEncoder(width) => width > 0
    case DateEncoder(width) => width > 0
    case LangEncoder(width) => width == 12
    case _ => true
  }

  /** A successful reading that ends at `end` and gives back `v`. */
  ghost predicate Recovers(e: Encoder, v: Value, gvl: Option<VendorList>, back: Coded<Read>, end: nat)
    requires Suits(e, v)
  {
    back.Ok? && back.value.pos == end && Suits(e, back.value.v) && ComesBackAs(e, v, back.value.v, gvl)
  }

  lemma {:induction false} ValueReadBack(e: Encoder, v: Value, gvl: Option<VendorList>, bits: Bits, pos: nat,
                                         chunk: Bits)
    requires IsSized(e) && Suits(e, v) && Sane(v, gvl)
    requires EncodeValue(e, v, gvl) == Ok(chunk) && At(bits, pos, chunk)
    ensures Recovers(e, v, gvl, DecodeValue(e, bits, pos), pos + |chunk|)
  {
    match e
    case IntEncoder(width) => ReadWritten(bits, pos, v.n, width);
    case DateEncoder(width) => ReadWritten(bits, pos, Deciseconds(v.n), width);
    case BooleanEncoder => ReadWrittenFlag(bits, pos, v.b);
    case LangEncoder(width) => LettersReadBack(bits, pos, v.s);
    case FixedVectorEncoder(width) => FixedReadBack(bits, pos, v.ids, width);
    case VendorVectorEncoder => VendorsReadBack(bits, pos, v.ids, chunk);
    case RestrictionsEncoder => RestrictionsReadBack(bits, pos, v.t, gvl, chunk);
  }

  // ---------- the fields in a row ----------

  ghost predicate SaneModel(m: Model, gvl: Option<VendorList>) {
    forall f: Field {:trigger Fetch(m, f)} :: Sane(Fetch(m, f), gvl)
  }

  /** What the field may come back as. */
  ghost function Expected(m: Model, gvl: Option<VendorList>): (Field, Value) -> bool {
    (f: Field, w: Value) => Suits(EncoderOf(f), w) && ComesBackAs(EncoderOf(f), Fetch(m, f), w, gvl)
  }

  /** Every field is read back, as expected, wherever it was written. */
  ghost predicate RoundTrips(bits: Bits, write: Field -> Coded<Bits>, read: (Field, nat) -> Coded<Read>,
                             expected: (Field, Value) -> bool) {
    forall f, pos: nat {:trigger read(f, pos)} | write(f).Ok? && At(bits, pos, write(f).value) ::
      read(f, pos).Ok? && read(f, pos).value.pos == pos + |write(f).value| && expected(f, read(f, pos).value.v)
  }

  lemma {:induction false} OneFieldBack(bits: Bits, m: Model, gvl: Option<VendorList>, f: Field, pos: nat, chunk: Bits)
    requires Sane(Fetch(m, f), gvl) && EncodeValue(EncoderOf(f), Fetch(m, f), gvl) == Ok(chunk) && At(bits, pos, chunk)
    ensures Recovers(EncoderOf(f), Fetch(m, f), gvl, DecodeValue(EncoderOf(f), bits, pos), pos + |chunk|)
  {
    ValueReadBack(EncoderOf(f), Fetch(m, f), gvl, bits, pos, chunk);
  }

  lemma {:induction false} FieldsRoundTrip(bits: Bits, m: Model, gvl: Option<VendorList>)
    requires SaneModel(m, gvl)
    ensures RoundTrips(bits, FieldWriter(m, gvl), FieldReader(bits), Expected(m, gvl))
  {
    var write, read, expected := FieldWriter(m, gvl), FieldReader(bits), Expected(m, gvl);
    forall f, pos: nat | write(f).Ok? && At(bits, pos, write(f).value)
      ensures read(f, pos).Ok? && read(f, pos).value.pos == pos + |write(f).value|
      ensures expected(f, read(f, pos).value.v)
    {
      assert Sane(Fetch(m, f), gvl);
      OneFieldBack(bits, m, gvl, f, pos, write(f).value);
    }
  }

  /** The i-th value is what the i-th field is read as, up to the next start. */
  predicate ReadsNext(read: (Field, nat) -> Coded<Read>, fs: seq<Field>, vals: seq<Value>, starts: seq<nat>, i: nat)
    requires i < |fs| == |vals| && |starts| == |fs| + 1
  {
    read(fs[i], starts[i]) == Ok(Read(vals[i], starts[i + 1]))
  }

  /** The values are what the fields are read as, one behind the other. */
  ghost predicate Chained(read: (Field, nat) -> Coded<Read>, fs: seq<Field>, vals: seq<Value>, starts: seq<nat>) {
    && |vals| == |fs| && |starts| == |fs| + 1
    && forall i {:trigger ReadsNext(read, fs, vals, starts, i)} | 0 <= i < |fs| :: ReadsNext(read, fs, vals, starts, i)
  }

  /** Values put into the fields from the k-th on, one after the other. */
  ghost function StoreAll(t: Model, fs: seq<Field>, vals: seq<Value>, k: nat): Coded<Model>
    requires k <= |fs| == |vals|
    decreases |fs| - k
  {
    if k == |fs| then Ok(t)
    else
      var next := Store(t, fs[k], vals[k]);
      if next.Err? then Err(next.error) else StoreAll(next.value, fs, vals, k + 1)
  }

  lemma {:induction false} FieldsInARow(read: (Field, nat) -> Coded<Read>, fs: seq<Field>, vals: seq<Value>,
                                        starts: seq<nat>, k: nat, t: Model)
    requires Chained(read, fs, vals, starts) && k <= |fs|
    ensures DecodeFields(read, starts[k], fs, k, t) == StoreAll(t, fs, vals, k)
    decreases |fs| - k
  {
    if k < |fs| {
      assert ReadsNext(read, fs, vals, starts, k);
      var next := Store(t, fs[k], vals[k]);
      if next.Ok? {
        FieldsInARow(read, fs, vals, starts, k + 1, next.value);
      }
    }
  }

  /** From bits written field by field to values read field by field. */
  lemma {:induction false} FieldsReadBack(bits: Bits, fs: seq<Field>, write: Field -> Coded<Bits>,
                                          read: (Field, nat) -> Coded<Read>, expected: (Field, Value) -> bool)
    returns (vals: seq<Value>, starts: seq<nat>)
    requires RoundTrips(bits, write, read, expected)
    requires Concat(Chunks(fs, write), |fs|).Ok? && At(bits, 0, Concat(Chunks(fs, write), |fs|).value)
    ensures Chained(read, fs, vals, starts) && starts[0] == 0
    ensures forall i | 0 <= i < |fs| :: expected(fs[i], vals[i])
  {
    var chunks := Chunks(fs, write);
    var begin := seq(|fs| + 1, i requires 0 <= i <= |fs| => Upto(chunks, i));
    forall i | 0 <= i < |fs|
      ensures read(fs[i], begin[i]).Ok? && read(fs[i], begin[i]).value.pos == begin[i + 1]
      ensures expected(fs[i], read(fs[i], begin[i]).value.v)
    {
      ConcatAt(bits, 0, chunks, |fs|, i);
      assert chunks[i] == write(fs[i]);
    }
    starts := begin;
    vals := seq(|fs|, i requires 0 <= i < |fs| => read(fs[i], begin[i]).value.v);
  }

  // ---------- putting all values ----------

  /** What the setter of a field refuses. */
  predicate Accepts(f: Field, v: Value) {
    && Suits(EncoderOf(f), v)
    && (f.CmpId? ==> v.n > 1)
    && (f.CmpVersion? || f.ConsentScreen? || f.VendorListVersion? || f.PolicyVersion? ==> v.n >= 0)
    && (f.PublisherCountryCode? ==> IsCountryCode(v.s))
  }

  function Stored(f: Field, v: Value): Value {
    if f.PublisherCountryCode? && v.Text? then Text(Upper(v.s)) else v
  }

  lemma {:induction false} StoreHolds(m: Model, f: Field, v: Value)
    requires Store(m, f, v).Ok?
    ensures Fetch(Store(m, f, v).value, f) == Stored(f, v)
  {
  }

  lemma {:induction false} StoreKeepsOthers(m: Model, f: Field, v: Value, g: Field)
    requires Store(m, f, v).Ok? && g != f
    ensures Fetch(Store(m, f, v).value, g) == Fetch(m, g)
  {
    match f {
      case Version =>
      case Created =>
      case LastUpdated =>
      case CmpId =>
      case CmpVersion =>
      case ConsentScreen =>
      case ConsentLanguage =>
      case VendorListVersion =>
      case PolicyVersion =>
      case IsServiceSpecific =>
      case UseNonStandardTexts =>
      case SpecialFeatureOptins =>
      case PurposeConsents =>
      case PurposeLegitimateInterests =>
      case PurposeOneTreatment =>
      case PublisherCountryCode =>
      case VendorConsents =>
      case VendorLegitimateInterests =>
      case PublisherRestrictions =>
    }
  }

  ghost predicate Distinct(fs: seq<Field>) {
    forall i, j | 0 <= i < j < |fs| :: fs[i] != fs[j]
  }

  /** Storing them all succeeds exactly when every setter accepts its own. */
  lemma {:induction false} StoreAllSucceeds(t: Model, fs: seq<Field>, vals: seq<Value>, k: nat)
    requires k <= |fs| == |vals|
    ensures StoreAll(t, fs, vals, k).Ok? <==> forall j | k <= j < |fs| :: Accepts(fs[j], vals[j])
    decreases |fs| - k
  {
    if k < |fs| {
      if Store(t, fs[k], vals[k]).Ok? {
        StoreAllSucceeds(Store(t, fs[k], vals[k]).value, fs, vals, k + 1);
      }
    }
  }

  /** And then each field holds its value. */
  lemma {:induction false} StoreAllStores(t: Model, fs: seq<Field>, vals: seq<Value>, k: nat, i: nat)
    requires k <= |fs| == |vals| && Distinct(fs) && i < |fs| && StoreAll(t, fs, vals, k).Ok?
    ensures Fetch(StoreAll(t, fs, vals, k).value, fs[i])
            == if i < k then Fetch(t, fs[i]) else Stored(fs[i], vals[i])
    decreases |fs| - k
  {
    if k < |fs| {
      if i == k {
        StoreHolds(t, fs[k], vals[k]);
      } else {
        StoreKeepsOthers(t, fs[k], vals[k], fs[i]);
      }
      StoreAllStores(Store(t, fs[k], vals[k]).value, fs, vals, k + 1, i);
    }
  }

  // ---------- the segment ----------

  /** The place of a field in the sequence. */
  function IndexOf(f: Field): (i: nat)
    ensures i < |FIELDS| && FIELDS[i] == f
  {
    match f
    case Version => 0
    case Created => 1
    case LastUpdated => 2
    case CmpId => 3
    case CmpVersion => 4
    case ConsentScreen => 5
    case ConsentLanguage => 6
    case VendorListVersion => 7
    case PolicyVersion => 8
    case IsServiceSpecific => 9
    case UseNonStandardTexts => 10
    case SpecialFeatureOptins => 11
    case PurposeConsents => 12
    case PurposeLegitimateInterests => 13
    case PurposeOneTreatment => 14
    case PublisherCountryCode => 15
    case VendorConsents => 16
    case VendorLegitimateInterests => 17
    case PublisherRestrictions => 18
  }

  lemma {:induction false} EveryFieldOnce()
    ensures Distinct(FIELDS) && |FIELDS| == 19
  {
    forall i, j | 0 <= i < j < |FIELDS| ensures FIELDS[i] != FIELDS[j] {
      assert IndexOf(FIELDS[i]) == i && IndexOf(FIELDS[j]) == j;
    }
  }

  /** Numbers as they were, dates to the tenth of a second. */
  ghost predicate RecoveredNumbers(m: Model, w: Model) {
    && w.version == m.version
    && w.created == Deciseconds(m.created) * 100
    && w.lastUpdated == Deciseconds(m.lastUpdated) * 100
    && w.cmpId == m.cmpId
    && w.cmpVersion == m.cmpVersion
    && w.consentScreen == m.consentScreen
    && w.vendorListVersion == m.vendorListVersion
    && w.policyVersion == m.policyVersion
  }

  /** Two letters in upper case. */
  ghost predicate RecoveredCodes(m: Model, w: Model) {
    && |m.consentLanguage| >= 2 && w.consentLanguage == Upper(m.consentLanguage)[..2]
    && |m.publisherCountryCode| >= 2 && w.publisherCountryCode == Upper(m.publisherCountryCode)[..2]
  }

  /** Purposes and features up to the width of their fields, all else as it was. */
  ghost predicate RecoveredChoices(m: Model, w: Model) {
    && w.isServiceSpecific == m.isServiceSpecific
    && w.useNonStandardTexts == m.useNonStandardTexts
    && w.specialFeatureOptins == (set x | x in m.specialFeatureOptins && x <= 12)
    && w.purposeConsents == (set x | x in m.purposeConsents && x <= 24)
    && w.purposeLegitimateInterests == (set x | x in m.purposeLegitimateInterests && x <= 24)
    && w.purposeOneTreatment == m.purposeOneTreatment
    && w.vendorConsents == m.vendorConsents
    && w.vendorLegitimateInterests == m.vendorLegitimateInterests
  }

  /** What decoding an encoded model gives; restrictions are restored as far as
      vendors are listed. */
  ghost predicate Recovered(m: Model, w: Model, gvl: Option<VendorList>) {
    && RecoveredNumbers(m, w) && RecoveredCodes(m, w) && RecoveredChoices(m, w)
    && ValidTable(w.publisherRestrictions)
    && Codec.Restores(m.publisherRestrictions, w.publisherRestrictions, gvl)
  }

  /** The same, for one field. */
  ghost predicate FieldRecovered(m: Model, w: Model, gvl: Option<VendorList>, f: Field) {
    ComesBackAs(EncoderOf(f), Fetch(m, f), Fetch(w, f), gvl)
  }

  lemma {:induction false} NumbersByField(m: Model, w: Model, gvl: Option<VendorList>)
    requires FieldRecovered(m, w, gvl, Version) && FieldRecovered(m, w, gvl, Created)
    requires FieldRecovered(m, w, gvl, LastUpdated) && FieldRecovered(m, w, gvl, CmpId)
    requires FieldRecovered(m, w, gvl, CmpVersion) && FieldRecovered(m, w, gvl, ConsentScreen)
    requires FieldRecovered(m, w, gvl, VendorListVersion) && FieldRecovered(m, w, gvl, PolicyVersion)
    ensures RecoveredNumbers(m, w)
  {
  }

  lemma {:induction false} CodesByField(m: Model, w: Model, gvl: Option<VendorList>)
    requires FieldRecovered(m, w, gvl, ConsentLanguage) && FieldRecovered(m, w, gvl, PublisherCountryCode)
    ensures RecoveredCodes(m, w)
  {
  }

  lemma {:induction false} ChoicesByField(m: Model, w: Model, gvl: Option<VendorList>)
    requires FieldRecovered(m, w, gvl, IsServiceSpecific) && FieldRecovered(m, w, gvl, UseNonStandardTexts)
    requires FieldRecovered(m, w, gvl, SpecialFeatureOptins) && FieldRecovered(m, w, gvl, PurposeConsents)
    requires FieldRecovered(m, w, gvl, PurposeLegitimateInterests) && FieldRecovered(m, w, gvl, PurposeOneTreatment)
    requires FieldRecovered(m, w, gvl, VendorConsents) && FieldRecovered(m, w, gvl, VendorLegitimateInterests)
    ensures RecoveredChoices(m, w)
  {
  }

  lemma {:induction false} LimitsByField(m: Model, w: Model, gvl: Option<VendorList>)
    requires FieldRecovered(m, w, gvl, PublisherRestrictions)
    ensures ValidTable(w.publisherRestrictions)
    ensures Codec.Restores(m.publisherRestrictions, w.publisherRestrictions, gvl)
  {
  }

  lemma {:induction false} RecoveredByFields(m: Model, w: Model, gvl: Option<VendorList>)
    requires forall f: Field {:trigger FieldRecovered(m, w, gvl, f)} :: FieldRecovered(m, w, gvl, f)
    ensures Recovered(m, w, gvl)
  {
    NumbersByField(m, w, gvl);
    CodesByField(m, w, gvl);
    ChoicesByField(m, w, gvl);
    LimitsByField(m, w, gvl);
  }

  /** Values as expected are accepted exactly when the CMP id is, and then the
      model is recovered. */
  lemma {:induction false} StoringExpected(m: Model, gvl: Option<VendorList>, t: Model, vals: seq<Value>)
    requires |vals| == |FIELDS| && forall i | 0 <= i < |FIELDS| :: Expected(m, gvl)(FIELDS[i], vals[i])
    ensures StoreAll(t, FIELDS, vals, 0).Ok? <==> m.cmpId > 1
    ensures StoreAll(t, FIELDS, vals, 0).Ok? ==> Recovered(m, StoreAll(t, FIELDS, vals, 0).value, gvl)
  {
    StoreAllSucceeds(t, FIELDS, vals, 0);
    forall i | 0 <= i < |FIELDS| ensures Accepts(FIELDS[i], vals[i]) <==> (FIELDS[i].CmpId? ==> m.cmpId > 1) {
    }
    assert FIELDS[IndexOf(CmpId)].CmpId?;
    if StoreAll(t, FIELDS, vals, 0).Ok? {
      var w := StoreAll(t, FIELDS, vals, 0).value;
      forall f: Field ensures FieldRecovered(m, w, gvl, f) {
        FieldStored(m, gvl, t, vals, f);
      }
      RecoveredByFields(m, w, gvl);
    }
  }

  lemma {:induction false} FieldStored(m: Model, gvl: Option<VendorList>, t: Model, vals: seq<Value>, f: Field)
    requires |vals| == |FIELDS| && Expected(m, gvl)(f, vals[IndexOf(f)])
    requires StoreAll(t, FIELDS, vals, 0).Ok?
    ensures FieldRecovered(m, StoreAll(t, FIELDS, vals, 0).value, gvl, f)
  {
    EveryFieldOnce();
    StoreAllStores(t, FIELDS, vals, 0, IndexOf(f));
  }

  lemma {:induction false} FieldsDecoded(bits: Bits, m: Model, gvl: Option<VendorList>, t: Model)
    requires SaneModel(m, gvl) && EncodeFields(FIELDS, m, gvl).Ok? && At(bits, 0, EncodeFields(FIELDS, m, gvl).value)
    ensures var back := DecodeFields(FieldReader(bits), 0, FIELDS, 0, t);
            (back.Ok? <==> m.cmpId > 1) && (back.Ok? ==> Recovered(m, back.value, gvl))
  {
    var read := FieldReader(bits);
    FieldsRoundTrip(bits, m, gvl);
    var vals, starts := FieldsReadBack(bits, FIELDS, FieldWriter(m, gvl), read, Expected(m, gvl));
    FieldsInARow(read, FIELDS, vals, starts, 0, t);
    StoringExpected(m, gvl, t, vals);
  }

  lemma {:induction false} VersionRead(bits: Bits, m: Model, gvl: Option<VendorList>)
    requires EncodeFields(FIELDS, m, gvl).Ok? && At(bits, 0, EncodeFields(FIELDS, m, gvl).value)
    ensures ReadInt(bits, 0, 6) == Ok(m.version)
  {
    var write := FieldWriter(m, gvl);
    ConcatAt(bits, 0, Chunks(FIELDS, write), |FIELDS|, 0);
    assert FIELDS[0] == Version && write(Version) == EncodeInt(m.version, 6);
    ReadWritten(bits, 0, m.version, 6);
  }

  lemma {:induction false} DecodedThroughBase64(m: Model, gvl: Option<VendorList>) returns (bits: Bits)
    requires EncodeCore(m, gvl).Ok?
    ensures TcfBase64.Decode(EncodeCore(m, gvl).value) == Ok(bits)
    ensures EncodeFields(FIELDS, m, gvl).Ok? && At(bits, 0, EncodeFields(FIELDS, m, gvl).value)
  {
    var plain := EncodeFields(FIELDS, m, gvl).value;
    TcfBase64.Base64RoundTrip(plain);
    var zeros :| 0 <= zeros < TcfBase64.LCM
                 && TcfBase64.Decode(TcfBase64.Encode(plain).value) == Ok(plain + Zeros(zeros));
    bits := plain + Zeros(zeros);
  }

  /** For every version 2 model that encodes: decoding succeeds exactly when the
      CMP id is greater than 1, and then recovers the model, whatever the model
      held into which it is decoded. */
  lemma {:induction false} CoreRoundTrip(m: Model, gvl: Option<VendorList>, t: Model)
    requires SaneModel(m, gvl) && EncodeCore(m, gvl).Ok?
    ensures var back := DecodeCore(EncodeCore(m, gvl).value, t);
            (back.Ok? <==> m.cmpId > 1) && (back.Ok? ==> Recovered(m, back.value, gvl))
  {
    var bits := DecodedThroughBase64(m, gvl);
    VersionRead(bits, m, gvl);
    FieldsDecoded(bits, m, gvl, t.(version := 2));
  }

  /** A model whose values fit their fields. */
  ghost predicate IsExact(m: Model) {
    && m.created % 100 == 0 && m.lastUpdated % 100 == 0
    && |m.consentLanguage| == 2 && Upper(m.consentLanguage) == m.consentLanguage
    && |m.publisherCountryCode| == 2 && Upper(m.publisherCountryCode) == m.publisherCountryCode
    && (forall x | x in m.specialFeatureOptins :: x <= 12)
    && (forall x | x in m.purposeConsents :: x <= 24)
    && (forall x | x in m.purposeLegitimateInterests :: x <= 24)
  }

  /** Such a model comes back unchanged, up to restrictions on unlisted vendors. */
  lemma {:induction false} ExactModelComesBack(m: Model, w: Model, gvl: Option<VendorList>)
    requires IsExact(m) && Recovered(m, w, gvl)
    ensures w == m.(publisherRestrictions := w.publisherRestrictions)
    ensures Codec.Restores(m.publisherRestrictions, w.publisherRestrictions, gvl)
  {
    assert w.specialFeatureOptins == m.specialFeatureOptins && w.purposeConsents == m.purposeConsents;
    assert w.purposeLegitimateInterests == m.purposeLegitimateInterests;
  }
}
