/** Which consent models have a core segment: the exact condition on each field,
    down to how many ranges a publisher restriction needs. */
module TcfEncodable {
  import opened Wrappers
  import opened TcfBits
  import TcfBase64
  import opened TcfVector
  import TcfVendors
  import opened TcfRestrictions
  import Codec = TcfRestrictionCodec
  import opened TcfSegment
  import opened TcfSegmentRoundTrip

  // ---------- the ranges of one restriction ----------

  /** The encoder ends a range at vendor `v`: it is the last one, or no listed id
      follows it up to the last one, or a listed id comes before the next one. */
  predicate EndsRange(ids: set<nat>, list: set<nat>, v: nat) {
    && v in ids
    && (|| (forall u | u in ids :: u <= v)
        || (forall x | x in list && v < x :: forall u | u in ids :: u < x)
        || (exists x | x in list :: v < x && forall u | u in ids && v < u :: x < u))
  }

  function RangeEnds(ids: set<nat>, list: set<nat>): set<nat> {
    set v | v in ids && EndsRange(ids, list, v)
  }

  lemma {:induction false} LastIsGreatest(vs: seq<nat>, ids: set<nat>)
    requires IsAscending(vs, ids) && vs != []
    ensures vs[|vs| - 1] in ids && forall u | u in ids :: u <= vs[|vs| - 1]
  {
    forall u | u in ids ensures u <= vs[|vs| - 1] {
      assert u in vs;
    }
  }

  lemma {:induction false} NextIsNext(vs: seq<nat>, ids: set<nat>, n: nat)
    requires IsAscending(vs, ids) && n + 1 < |vs|
    ensures vs[n] < vs[n + 1] && vs[n + 1] in ids && forall u | u in ids && vs[n] < u :: vs[n + 1] <= u
  {
    forall u | u in ids && vs[n] < u ensures vs[n + 1] <= u {
      assert u in vs;
    }
  }

  /** Between two neighbouring vendors `v` and `next`. */
  lemma {:induction false} ClosesBetween(ids: set<nat>, list: set<nat>, v: nat, next: nat, last: nat)
    requires v in ids && next in ids && v < next <= last && last in ids && forall u | u in ids :: u <= last
    requires forall u | u in ids && v < u :: next <= u
    ensures next > Codec.NextListed(list, v + 1, last, v) <==> EndsRange(ids, list, v)
  {
    var r := Codec.NextListed(list, v + 1, last, v);
    if x :| x in list && v < x && forall u | u in ids && v < u :: x < u {
      assert x < next && r <= x;
    } else if forall x | x in list && v < x :: forall u | u in ids :: u < x {
      assert r == v;
    }
  }

  lemma {:induction false} ClosesIff(vs: seq<nat>, ids: set<nat>, list: set<nat>, n: nat)
    requires IsAscending(vs, ids) && n < |vs|
    ensures Codec.Closes(vs, list, n) <==> EndsRange(ids, list, vs[n])
  {
    assert vs[n] in ids;
    LastIsGreatest(vs, ids);
    if n < |vs| - 1 {
      NextIsNext(vs, ids, n);
      ClosesBetween(ids, list, vs[n], vs[n + 1], vs[|vs| - 1]);
    }
  }

  /** The vendors at which the first `n` ranges end. */
  function EndsBefore(vs: seq<nat>, list: set<nat>, n: nat): set<nat>
    requires n <= |vs|
  {
    set i | 0 <= i < n && Codec.Closes(vs, list, i) :: vs[i]
  }

  lemma {:induction false} OneMoreEnd(vs: seq<nat>, ids: set<nat>, list: set<nat>, n: nat)
    requires IsAscending(vs, ids) && 0 < n <= |vs|
    ensures |EndsBefore(vs, list, n)| == |EndsBefore(vs, list, n - 1)| + if Codec.Closes(vs, list, n - 1) then 1 else 0
  {
    var before := EndsBefore(vs, list, n - 1);
    assert vs[n - 1] !in before;
    assert EndsBefore(vs, list, n) == before + if Codec.Closes(vs, list, n - 1) then {vs[n - 1]} else {};
  }

  lemma {:induction false} OneMoreRange(vs: seq<nat>, list: set<nat>, n: nat)
    requires 0 < n <= |vs|
    ensures |Codec.After(vs, list, n).ranges|
            == |Codec.After(vs, list, n - 1).ranges| + if Codec.Closes(vs, list, n - 1) then 1 else 0
  {
  }

  lemma {:induction false} RangesAreCounted(vs: seq<nat>, ids: set<nat>, list: set<nat>, n: nat)
    requires IsAscending(vs, ids) && n <= |vs|
    ensures |Codec.After(vs, list, n).ranges| == |EndsBefore(vs, list, n)|
  {
    if n > 0 {
      RangesAreCounted(vs, ids, list, n - 1);
      OneMoreEnd(vs, ids, list, n);
      OneMoreRange(vs, list, n);
    }
  }

  lemma {:induction false} RangeCount(vs: seq<nat>, ids: set<nat>, list: set<nat>)
    requires IsAscending(vs, ids)
    ensures |Codec.Joined(vs, list).ranges| == |RangeEnds(ids, list)|
  {
    RangesAreCounted(vs, ids, list, |vs|);
    forall v ensures v in EndsBefore(vs, list, |vs|) <==> v in RangeEnds(ids, list) {
      if v in vs {
        var i :| 0 <= i < |vs| && vs[i] == v;
        ClosesIff(vs, ids, list, i);
      }
    }
    assert EndsBefore(vs, list, |vs|) == RangeEnds(ids, list);
  }

  // ---------- one restriction ----------

  ghost predicate Below(rs: seq<TcfVendors.Range>, bound: nat) {
    forall i | 0 <= i < |rs| :: rs[i].first < bound && rs[i].last < bound
  }

  lemma {:induction false} RangeEncodesIff(r: TcfVendors.Range)
    ensures TcfVendors.RangeBits(r).Ok? <==> r.first < 65536 && r.last < 65536
  {
    TcfVendors.Sixteen();
    IntRoundTrip(r.first, TcfVendors.VENDOR_ID_BITS);
    IntRoundTrip(r.last, TcfVendors.VENDOR_ID_BITS);
  }

  lemma {:induction false} RangesEncodeIff(rs: seq<TcfVendors.Range>, n: nat)
    requires n <= |rs|
    ensures TcfVendors.AllRangeBits(rs, n).Ok? <==> forall i | 0 <= i < n :: rs[i].first < 65536 && rs[i].last < 65536
  {
    if n > 0 {
      RangesEncodeIff(rs, n - 1);
      RangeEncodesIff(rs[n - 1]);
    }
  }

  /** Ranges start and end at vendors, and the last one ends at the last vendor. */
  lemma {:induction false} EndsAreVendors(vs: seq<nat>, list: set<nat>, n: nat, bound: nat)
    requires n <= |vs| && Codec.Ascends(vs)
    requires forall i | 0 <= i < n :: vs[i] < bound
    ensures Below(Codec.After(vs, list, n).ranges, bound)
    ensures Codec.After(vs, list, n).open < bound || n == 0
  {
    if n > 0 {
      EndsAreVendors(vs, list, n - 1, bound);
    }
  }

  lemma {:induction false} LastEnds(vs: seq<nat>, list: set<nat>)
    requires vs != []
    ensures var rs := Codec.Joined(vs, list).ranges; rs != [] && rs[|rs| - 1].last == vs[|vs| - 1]
  {
    assert Codec.Closes(vs, list, |vs| - 1);
  }

  lemma {:induction false} IdsEncodeIff(vs: seq<nat>, ids: set<nat>, list: set<nat>)
    requires IsAscending(vs, ids) && Codec.Ascends(vs)
    ensures var rs := Codec.Joined(vs, list).ranges;
            TcfVendors.AllRangeBits(rs, |rs|).Ok? <==> forall id | id in ids :: id < 65536
  {
    var rs := Codec.Joined(vs, list).ranges;
    RangesEncodeIff(rs, |rs|);
    if forall id | id in ids :: id < 65536 {
      assert forall i | 0 <= i < |vs| :: vs[i] in ids;
      EndsAreVendors(vs, list, |vs|, 65536);
    } else {
      var id :| id in ids && id >= 65536;
      assert id in vs;
      LastEnds(vs, list);
    }
  }

  /** What a restriction must be like to be written. */
  ghost predicate RowFits(r: Restriction, ids: set<nat>, gvl: Option<VendorList>) {
    && r.purposeId < 64 && r.restrictionType < 4
    && (forall id | id in ids :: id < 65536)
    && (gvl.Some? || |ids| <= 1)
    && |RangeEnds(ids, Codec.ListedIds(gvl))| < 4096
  }

  lemma {:induction false} AscendingSize(vs: seq<nat>, ids: set<nat>)
    requires IsAscending(vs, ids)
    ensures |vs| == |ids|
    decreases |vs|
  {
    NoneLeft(vs, ids);
    if vs != [] {
      var rest := ids - {vs[0]};
      assert vs[0] in ids;
      forall id ensures id in vs[1..] <==> id in rest {}
      AscendingSize(vs[1..], rest);
    }
  }

  lemma {:induction false} Powers()
    ensures Pow2(2) == 4 && Pow2(6) == 64 && Pow2(12) == 4096 && Pow2(16) == 65536
  {
    TcfVendors.Sixteen();
    assert Pow2(4) == 16;
    assert Pow2(6) == 64;
  }

  lemma {:induction false} RowEncodesIff(row: Codec.Row, ids: set<nat>, gvl: Option<VendorList>)
    requires IsAscending(row.vs, ids) && (gvl.Some? ==> forall id | id in ids :: id > 0)
    ensures Codec.RowBits(row, gvl).Ok? <==> RowFits(row.key, ids, gvl)
  {
    Powers();
    AscendingSize(row.vs, ids);
    IntRoundTrip(row.key.purposeId, PURPOSE_ID_BITS);
    IntRoundTrip(row.key.restrictionType, RESTRICTION_TYPE_BITS);
    if gvl.Some? || |row.vs| <= 1 {
      var list := Codec.ListedIds(gvl);
      assert |row.vs| > 0 ==> row.vs[0] in ids;
      Codec.AfterCounts(row.vs, list, |row.vs|);
      RangeCount(row.vs, ids, list);
      IdsEncodeIff(row.vs, ids, list);
      IntRoundTrip(Codec.Joined(row.vs, list).count, TcfVendors.NUM_ENTRIES_BITS);
    }
  }

  // ---------- all restrictions ----------

  lemma {:induction false} ConcatOkIff(chunks: seq<Coded<Bits>>, n: nat)
    requires n <= |chunks|
    ensures Concat(chunks, n).Ok? <==> forall k | 0 <= k < n :: chunks[k].Ok?
  {
    if n > 0 {
      ConcatOkIff(chunks, n - 1);
    }
  }

  ghost predicate TableFits(t: Table, gvl: Option<VendorList>) {
    |t.order| < 4096 && forall r | r in t.order :: RowFits(r, Get(t, r), gvl)
  }

  lemma {:induction false} RestrictionsEncodeIff(t: Table, gvl: Option<VendorList>)
    requires ValidTable(t) && Codec.PositiveIds(t, gvl)
    ensures Codec.EncodeRestrictions(t, gvl).Ok? <==> TableFits(t, gvl)
  {
    var rows := Codec.RowsOf(t);
    var chunks := Codec.RowChunks(rows, gvl);
    Powers();
    IntRoundTrip(|chunks|, NUM_RESTRICTIONS_BITS);
    ConcatOkIff(chunks, |chunks|);
    forall k | 0 <= k < |rows| ensures chunks[k].Ok? <==> RowFits(t.order[k], Get(t, t.order[k]), gvl) {
      RowEncodesIff(rows[k], Get(t, t.order[k]), gvl);
    }
    AllRowsFitIff(t, gvl, chunks);
  }

  lemma {:induction false} AllRowsFitIff(t: Table, gvl: Option<VendorList>, chunks: seq<Coded<Bits>>)
    requires |chunks| == |t.order|
    requires forall k | 0 <= k < |chunks| :: chunks[k].Ok? <==> RowFits(t.order[k], Get(t, t.order[k]), gvl)
    ensures (forall k | 0 <= k < |chunks| :: chunks[k].Ok?) <==> forall r | r in t.order :: RowFits(r, Get(t, r), gvl)
  {
    if forall k | 0 <= k < |chunks| :: chunks[k].Ok? {
      forall r | r in t.order ensures RowFits(r, Get(t, r), gvl) {
        var k :| 0 <= k < |t.order| && t.order[k] == r;
        assert chunks[k].Ok?;
      }
    } else {
      var k :| 0 <= k < |chunks| && !chunks[k].Ok?;
      assert t.order[k] in t.order;
    }
  }

  // ---------- one field ----------

  /** What a value must be like to be written. */
  ghost predicate Fits(e: Encoder, v: Value, gvl: Option<VendorList>)
    requires Suits(e, v)
  {
    match e
    case IntEncoder(width) => 0 <= v.n < Pow2(width)
    case DateEncoder(width) => 0 <= Deciseconds(v.n) < Pow2(width)
    case BooleanEncoder => true
    case LangEncoder(_) => |v.s| >= 2 && IsLetter(Upper(v.s)[0]) && IsLetter(Upper(v.s)[1])
    case FixedVectorEncoder(_) => true
    case VendorVectorEncoder => VendorsFit(v.ids)
    case RestrictionsEncoder => TableFits(v.t, gvl)
  }

  /** No id over 16 bits, and not 4096 isolated ids that end with one of the last
      three. */
  ghost predicate VendorsFit(ids: set<nat>) {
    var maxId := MaxOf(ids);
    maxId < 65536 && !(65533 <= maxId && |ids| == 4096 && TcfVendors.Isolated(ids, maxId))
  }

  lemma {:induction false} LettersEncodeIff(s: string)
    ensures EncodeLetters(s, 12).Ok? <==> |s| >= 2 && IsLetter(Upper(s)[0]) && IsLetter(Upper(s)[1])
  {
    Powers();
    if |s| >= 2 && IsLetter(Upper(s)[0]) && IsLetter(Upper(s)[1]) {
      IntRoundTrip((Upper(s)[0] - 'A') as int, 6);
      IntRoundTrip((Upper(s)[1] - 'A') as int, 6);
    }
  }

  lemma {:induction false} ValueEncodesIff(e: Encoder, v: Value, gvl: Option<VendorList>)
    requires IsSized(e) && Suits(e, v) && Sane(v, gvl)
    ensures EncodeValue(e, v, gvl).Ok? <==> Fits(e, v, gvl)
  {
    match e
    case IntEncoder(width) => IntRoundTrip(v.n, width);
    case DateEncoder(width) => IntRoundTrip(Deciseconds(v.n), width);
    case BooleanEncoder =>
    case LangEncoder(_) => LettersEncodeIff(v.s);
    case FixedVectorEncoder(_) =>
    case VendorVectorEncoder => TcfVendors.EncodeFailsIff(v.ids, MaxOf(v.ids));
    case RestrictionsEncoder => RestrictionsEncodeIff(v.t, gvl);
  }

  // ---------- the core segment ----------

  ghost predicate FieldFits(m: Model, gvl: Option<VendorList>, f: Field) {
    Fits(EncoderOf(f), Fetch(m, f), gvl)
  }

  ghost predicate AllFit(m: Model, gvl: Option<VendorList>) {
    forall f: Field {:trigger FieldFits(m, gvl, f)} :: FieldFits(m, gvl, f)
  }

  lemma {:induction false} FieldEncodesIff(m: Model, gvl: Option<VendorList>, f: Field)
    requires SaneModel(m, gvl)
    ensures FieldWriter(m, gvl)(f).Ok? <==> FieldFits(m, gvl, f)
  {
    assert Sane(Fetch(m, f), gvl);
    ValueEncodesIff(EncoderOf(f), Fetch(m, f), gvl);
  }

  lemma {:induction false} AllOkIff(fs: seq<Field>, write: Field -> Coded<Bits>)
    ensures Concat(Chunks(fs, write), |fs|).Ok? <==> forall k | 0 <= k < |fs| :: write(fs[k]).Ok?
  {
    ConcatOkIff(Chunks(fs, write), |fs|);
    assert forall k | 0 <= k < |fs| :: Chunks(fs, write)[k] == write(fs[k]);
  }

  lemma {:induction false} TheseEncodeIff(fs: seq<Field>, m: Model, gvl: Option<VendorList>)
    requires SaneModel(m, gvl)
    ensures EncodeFields(fs, m, gvl).Ok? <==> forall k | 0 <= k < |fs| :: FieldFits(m, gvl, fs[k])
  {
    AllOkIff(fs, FieldWriter(m, gvl));
    forall k | 0 <= k < |fs| ensures FieldWriter(m, gvl)(fs[k]).Ok? <==> FieldFits(m, gvl, fs[k]) {
      FieldEncodesIff(m, gvl, fs[k]);
    }
  }

  lemma {:induction false} FieldsEncodeIff(m: Model, gvl: Option<VendorList>)
    requires SaneModel(m, gvl)
    ensures EncodeFields(FIELDS, m, gvl).Ok? <==> AllFit(m, gvl)
  {
    TheseEncodeIff(FIELDS, m, gvl);
    if forall k | 0 <= k < |FIELDS| :: FieldFits(m, gvl, FIELDS[k]) {
      forall f: Field ensures FieldFits(m, gvl, f) {
        assert FIELDS[IndexOf(f)] == f;
      }
    }
  }

  lemma {:induction false} NotEmpty(m: Model, gvl: Option<VendorList>)
    requires EncodeFields(FIELDS, m, gvl).Ok?
    ensures EncodeFields(FIELDS, m, gvl).value != []
  {
    var bits := EncodeFields(FIELDS, m, gvl).value;
    assert At(bits, 0, bits);
    VersionRead(bits, m, gvl);
  }

  /** A version 2 model has a core segment exactly when every field fits. */
  lemma {:induction false} CoreEncodesIff(m: Model, gvl: Option<VendorList>)
    requires SaneModel(m, gvl)
    ensures EncodeCore(m, gvl).Ok? <==> m.version == 2 && AllFit(m, gvl)
  {
    FieldsEncodeIff(m, gvl);
    if EncodeFields(FIELDS, m, gvl).Ok? {
      NotEmpty(m, gvl);
    }
  }

  /** Encoding, and decoding into any model, succeeds and recovers the model
      exactly when it has version 2, every field fits, and the CMP id is greater
      than 1. */
  lemma {:induction false} CoreSurvivesIff(m: Model, gvl: Option<VendorList>, t: Model)
    requires SaneModel(m, gvl)
    ensures (EncodeCore(m, gvl).Ok? && DecodeCore(EncodeCore(m, gvl).value, t).Ok?)
            <==> m.version == 2 && AllFit(m, gvl) && m.cmpId > 1
    ensures m.version == 2 && AllFit(m, gvl) && m.cmpId > 1 ==>
              Recovered(m, DecodeCore(EncodeCore(m, gvl).value, t).value, gvl)
  {
    CoreEncodesIff(m, gvl);
    if EncodeCore(m, gvl).Ok? {
      CoreRoundTrip(m, gvl, t);
    }
  }

  // ---------- a model that does not survive ----------

  /** A model as it is before a CMP has set its id. */
  const UNSET := Model(2, 0, 0, 0, 0, 0, "EN", 0, 0, false, false, {}, {}, {}, false, "AA", {}, {}, EMPTY)

  lemma {:induction false} UnsetFits(f: Field)
    ensures Sane(Fetch(UNSET, f), None) && FieldFits(UNSET, None, f)
  {
    var none: set<nat> := {};
    assert MaxOf(none) == 0;
    assert Upper("EN") == "EN" && Upper("AA") == "AA";
  }

  /** Without a CMP id the model encodes, and the result does not decode. */
  lemma {:induction false} UnsetIdIsLost(t: Model)
    ensures EncodeCore(UNSET, None).Ok? && DecodeCore(EncodeCore(UNSET, None).value, t).Err?
  {
    forall f: Field ensures Sane(Fetch(UNSET, f), None) && FieldFits(UNSET, None, f) {
      UnsetFits(f);
    }
    assert SaneModel(UNSET, None) && AllFit(UNSET, None);
    CoreEncodesIff(UNSET, None);
    CoreSurvivesIff(UNSET, None, t);
  }
}
