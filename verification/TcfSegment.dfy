/** The core segment of a version 2 consent string: nineteen fields, each
    encoded by its own encoder, fixed-width or self-delimiting, under the
    base64url layer. */
module TcfSegment {
  import opened Wrappers
  import opened TcfBits
  import TcfBase64
  import opened TcfVector
  import TcfVendors
  import opened TcfRestrictions
  import Codec = TcfRestrictionCodec

  // ---------- the consent model ----------

  datatype Model = Model(
    version: int,
    created: int,
    lastUpdated: int,
    cmpId: int,
    cmpVersion: int,
    consentScreen: int,
    consentLanguage: string,
    vendorListVersion: int,
    policyVersion: int,
    isServiceSpecific: bool,
    useNonStandardTexts: bool,
    specialFeatureOptins: set<nat>,
    purposeConsents: set<nat>,
    purposeLegitimateInterests: set<nat>,
    purposeOneTreatment: bool,
    publisherCountryCode: string,
    vendorConsents: set<nat>,
    vendorLegitimateInterests: set<nat>,
    publisherRestrictions: Table)

  datatype Field =
    | Version | Created | LastUpdated | CmpId | CmpVersion | ConsentScreen | ConsentLanguage | VendorListVersion
    | PolicyVersion | IsServiceSpecific | UseNonStandardTexts | SpecialFeatureOptins | PurposeConsents
    | PurposeLegitimateInterests | PurposeOneTreatment | PublisherCountryCode | VendorConsents
    | VendorLegitimateInterests | PublisherRestrictions

  const FIELDS := [
    Version, Created, LastUpdated, CmpId, CmpVersion, ConsentScreen, ConsentLanguage, VendorListVersion,
    PolicyVersion, IsServiceSpecific, UseNonStandardTexts, SpecialFeatureOptins, PurposeConsents,
    PurposeLegitimateInterests, PurposeOneTreatment, PublisherCountryCode, VendorConsents,
    VendorLegitimateInterests, PublisherRestrictions]

  datatype Value = Number(n: int) | Flag(b: bool) | Text(s: string) | Ids(ids: set<nat>) | Limits(t: Table)

  /** A field's encoder, with its width where that is fixed. */
  datatype Encoder =
    | IntEncoder(width: nat)
    | DateEncoder(width: nat)
    | BooleanEncoder
    | LangEncoder(width: nat)
    | FixedVectorEncoder(width: nat)
    | VendorVectorEncoder
    | RestrictionsEncoder

  function EncoderOf(f: Field): Encoder {
    match f
    case Version => IntEncoder(6)
    case Created => DateEncoder(36)
    case LastUpdated => DateEncoder(36)
    case CmpId => IntEncoder(12)
    case CmpVersion => IntEncoder(12)
    case ConsentScreen => IntEncoder(6)
    case ConsentLanguage => LangEncoder(12)
    case VendorListVersion => IntEncoder(12)
    case PolicyVersion => IntEncoder(6)
    case IsServiceSpecific => BooleanEncoder
    case UseNonStandardTexts => BooleanEncoder
    case SpecialFeatureOptins => FixedVectorEncoder(12)
    case PurposeConsents => FixedVectorEncoder(24)
    case PurposeLegitimateInterests => FixedVectorEncoder(24)
    case PurposeOneTreatment => BooleanEncoder
    case PublisherCountryCode => LangEncoder(12)
    case VendorConsents => VendorVectorEncoder
    case VendorLegitimateInterests => VendorVectorEncoder
    case PublisherRestrictions => RestrictionsEncoder
  }

  predicate Suits(e: Encoder, v: Value) {
    match e
    case IntEncoder(_) => v.Number?
    case DateEncoder(_) => v.Number?
    case BooleanEncoder => v.Flag?
    case LangEncoder(_) => v.Text?
    case FixedVectorEncoder(_) => v.Ids?
    case VendorVectorEncoder => v.Ids?
    case RestrictionsEncoder => v.Limits?
  }

  function Fetch(m: Model, f: Field): (v: Value)
    ensures Suits(EncoderOf(f), v)
  {
    match f
    case Version => Number(m.version)
    case Created => Number(m.created)
    case LastUpdated => Number(m.lastUpdated)
    case CmpId => Number(m.cmpId)
    case CmpVersion => Number(m.cmpVersion)
    case ConsentScreen => Number(m.consentScreen)
    case ConsentLanguage => Text(m.consentLanguage)
    case VendorListVersion => Number(m.vendorListVersion)
    case PolicyVersion => Number(m.policyVersion)
    case IsServiceSpecific => Flag(m.isServiceSpecific)
    case UseNonStandardTexts => Flag(m.useNonStandardTexts)
    case SpecialFeatureOptins => Ids(m.specialFeatureOptins)
    case PurposeConsents => Ids(m.purposeConsents)
    case PurposeLegitimateInterests => Ids(m.purposeLegitimateInterests)
    case PurposeOneTreatment => Flag(m.purposeOneTreatment)
    case PublisherCountryCode => Text(m.publisherCountryCode)
    case VendorConsents => Ids(m.vendorConsents)
    case VendorLegitimateInterests => Ids(m.vendorLegitimateInterests)
    case PublisherRestrictions => Limits(m.publisherRestrictions)
  }

  function Upper(s: string): string {
    seq(|s|, i requires 0 <= i < |s| => if 'a' <= s[i] <= 'z' then s[i] - 'a' + 'A' else s[i])
  }

  /** Two characters between 'A' and 'z', punctuation included. */
  predicate IsCountryCode(s: string) {
    |s| == 2 && 'A' <= s[0] <= 'z' && 'A' <= s[1] <= 'z'
  }

  predicate NotNegative(v: Value)
    requires v.Number?
  {
    v.n >= 0
  }

  /** The setters: some refuse what they get. */
  function Store(m: Model, f: Field, v: Value): Coded<Model> {
    if !Suits(EncoderOf(f), v) then Err(ModelError)
    else
    match f
    case Version => Ok(m.(version := v.n))
    case Created => Ok(m.(created := v.n))
    case LastUpdated => Ok(m.(lastUpdated := v.n))
    case CmpId => if v.n > 1 then Ok(m.(cmpId := v.n)) else Err(ModelError)
    case CmpVersion => if NotNegative(v) then Ok(m.(cmpVersion := v.n)) else Err(ModelError)
    case ConsentScreen => if NotNegative(v) then Ok(m.(consentScreen := v.n)) else Err(ModelError)
    case ConsentLanguage => Ok(m.(consentLanguage := v.s))
    case VendorListVersion => if NotNegative(v) then Ok(m.(vendorListVersion := v.n)) else Err(ModelError)
    case PolicyVersion => if NotNegative(v) then Ok(m.(policyVersion := v.n)) else Err(ModelError)
    case IsServiceSpecific => Ok(m.(isServiceSpecific := v.b))
    case UseNonStandardTexts => Ok(m.(useNonStandardTexts := v.b))
    case SpecialFeatureOptins => Ok(m.(specialFeatureOptins := v.ids))
    case PurposeConsents => Ok(m.(purposeConsents := v.ids))
    case PurposeLegitimateInterests => Ok(m.(purposeLegitimateInterests := v.ids))
    case PurposeOneTreatment => Ok(m.(purposeOneTreatment := v.b))
    case PublisherCountryCode =>
      if IsCountryCode(v.s) then Ok(m.(publisherCountryCode := Upper(v.s))) else Err(ModelError)
    case VendorConsents => Ok(m.(vendorConsents := v.ids))
    case VendorLegitimateInterests => Ok(m.(vendorLegitimateInterests := v.ids))
    case PublisherRestrictions => Ok(m.(publisherRestrictions := v.t))
  }

  // ---------- encoders ----------

  /** Milliseconds to the nearest tenth of a second. */
  function Deciseconds(t: int): int {
    (t + 50) / 100
  }

  predicate IsLetter(c: char) {
    'A' <= c <= 'Z'
  }

  /** The first two letters; a shorter code does not reach the base64 layer. */
  function EncodeLetters(s: string, width: nat): Coded<Bits> {
    var u := Upper(s);
    if |u| < 2 || !IsLetter(u[0]) || !IsLetter(u[1]) || width % 2 == 1 then Err(EncodingError)
    else
      var first := EncodeInt((u[0] - 'A') as int, width / 2);
      var second := EncodeInt((u[1] - 'A') as int, width / 2);
      if first.Err? || second.Err? then Err(EncodingError) else Ok(first.value + second.value)
  }

  function Letter(n: nat): char {
    if n < 64 then 'A' + n as char else 'A'
  }

  function DecodeLetters(bits: Bits, pos: nat, width: nat): Coded<string> {
    var first, second := ReadInt(bits, pos, width / 2), ReadInt(bits, pos + width / 2, width / 2);
    if first.Err? || second.Err? || width % 2 == 1 then Err(DecodingError)
    else Ok([Letter(first.value), Letter(second.value)])
  }

  ghost function MaxOf(ids: set<nat>): (m: nat)
    ensures IsMaxId(ids, m)
  {
    MaxExists(ids);
    var m: nat :| IsMaxId(ids, m);
    m
  }

  lemma {:induction false} MaxExists(ids: set<nat>)
    ensures exists m: nat :: IsMaxId(ids, m)
  {
    if ids == {} {
      assert IsMaxId(ids, 0);
    } else {
      var id :| id in ids;
      MaxExists(ids - {id});
      var m: nat :| IsMaxId(ids - {id}, m);
      assert forall x | x in ids :: x == id || x in ids - {id};
      assert IsMaxId(ids, if id > m then id else m);
    }
  }

  ghost function EncodeValue(e: Encoder, v: Value, gvl: Option<VendorList>): Coded<Bits>
    requires Suits(e, v)
  {
    match e
    case IntEncoder(width) => EncodeInt(v.n, width)
    case DateEncoder(width) => EncodeInt(Deciseconds(v.n), width)
    case BooleanEncoder => Ok(EncodeFlag(v.b))
    case LangEncoder(width) => EncodeLetters(v.s, width)
    case FixedVectorEncoder(width) => Ok(FieldBits(v.ids, width))
    case VendorVectorEncoder => TcfVendors.EncodeVendors(v.ids, MaxOf(v.ids))
    case RestrictionsEncoder => Codec.EncodeRestrictions(v.t, gvl)
  }

  datatype Read = Read(v: Value, pos: nat)

  function Rest(bits: Bits, pos: nat): Bits {
    if pos >= |bits| then [] else seq(|bits| - pos, i requires 0 <= i < |bits| - pos => bits[pos + i])
  }

  /** Self-delimiting fields say themselves how far they reach. */
  function DecodeValue(e: Encoder, bits: Bits, pos: nat): (r: Coded<Read>)
    ensures r.Ok? ==> Suits(e, r.value.v)
  {
    match e
    case IntEncoder(width) =>
      var n := ReadInt(bits, pos, width);
      if n.Err? then Err(DecodingError) else Ok(Read(Number(n.value), pos + width))
    case DateEncoder(width) =>
      var n := ReadInt(bits, pos, width);
      if n.Err? then Err(DecodingError) else Ok(Read(Number(n.value * 100), pos + width))
    case BooleanEncoder => Ok(Read(Flag(ReadFlag(bits, pos)), pos + 1))
    case LangEncoder(width) =>
      var s := DecodeLetters(bits, pos, width);
      if s.Err? then Err(DecodingError) else Ok(Read(Text(s.value), pos + width))
    case FixedVectorEncoder(width) =>
      var ids := DecodeField(Sub(bits, pos, width), width);
      if ids.Err? then Err(DecodingError) else Ok(Read(Ids(ids.value), pos + width))
    case VendorVectorEncoder =>
      var entry := TcfVendors.DecodeVendors(Rest(bits, pos), 2);
      if entry.Err? then Err(entry.error) else Ok(Read(Ids(entry.value.ids), pos + entry.value.pos))
    case RestrictionsEncoder =>
      var back := Codec.DecodeRestrictions(Rest(bits, pos));
      if back.Err? then Err(back.error) else Ok(Read(Limits(back.value.table), pos + back.value.pos))
  }

  // ---------- the segment ----------

  ghost function FieldWriter(m: Model, gvl: Option<VendorList>): Field -> Coded<Bits> {
    f => EncodeValue(EncoderOf(f), Fetch(m, f), gvl)
  }

  function Chunks(fs: seq<Field>, write: Field -> Coded<Bits>): seq<Coded<Bits>> {
    seq(|fs|, i requires 0 <= i < |fs| => write(fs[i]))
  }

  /** The bits of the fields, one after the other. */
  ghost function EncodeFields(fs: seq<Field>, m: Model, gvl: Option<VendorList>): Coded<Bits> {
    Concat(Chunks(fs, FieldWriter(m, gvl)), |fs|)
  }

  /** Only version 2 is modelled. */
  ghost function EncodeCore(m: Model, gvl: Option<VendorList>): Coded<string> {
    if m.version != 2 then Err(EncodingError)
    else
      var bits := EncodeFields(FIELDS, m, gvl);
      if bits.Err? then Err(EncodingError) else TcfBase64.Encode(bits.value)
  }

  function FieldReader(bits: Bits): (Field, nat) -> Coded<Read> {
    (f: Field, pos: nat) => DecodeValue(EncoderOf(f), bits, pos)
  }

  /** The fields from the k-th on, read at the cursor and put into the model. */
  function DecodeFields(read: (Field, nat) -> Coded<Read>, pos: nat, fs: seq<Field>, k: nat, t: Model): Coded<Model>
    requires k <= |fs|
    decreases |fs| - k
  {
    if k == |fs| then Ok(t)
    else
      var value := read(fs[k], pos);
      if value.Err? then Err(value.error)
      else
        var next := Store(t, fs[k], value.value.v);
        if next.Err? then Err(next.error) else DecodeFields(read, value.value.pos, fs, k + 1, next.value)
  }

  /** Decode into the model `t`. */
  function DecodeCore(s: string, t: Model): Coded<Model> {
    var bits := TcfBase64.Decode(s);
    if bits.Err? then Err(DecodingError)
    else
      var version := ReadInt(bits.value, 0, 6);
      if version.Err? || version.value != 2 then Err(DecodingError)
      else DecodeFields(FieldReader(bits.value), 0, FIELDS, 0, t.(version := version.value))
  }
}
