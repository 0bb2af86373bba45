/** What stands where in the core segment: every field at its offset, every
    publisher restriction with the ranges of its vendors. */
module TcfCoreLayout {
  import opened Wrappers
  import opened TcfBits
  import opened TcfVector
  import opened TcfVendors
  import opened TcfRestrictions
  import Codec = TcfRestrictionCodec
  import opened TcfSegment
  import opened TcfSegmentRoundTrip
  import opened TcfEncodable
  import opened TcfLayout

  // ---------- the ranges of one restriction ----------

  /** What the ranges of a restriction must be, given the listed ids: each starts and
      ends at a vendor and reaches to the first vendor at which it has to end, and
      every vendor is in one. */
  ghost predicate AreJoined(rs: seq<Range>, ids: set<nat>, list: set<nat>) {
    && (forall k | 0 <= k < |rs| :: IsJoined(rs[k], ids, list))
    && (forall j, k | 0 <= j < k < |rs| :: rs[j].last < rs[k].first)
    && (forall id | id in ids :: InSome(rs, id))
  }

  ghost predicate IsJoined(r: Range, ids: set<nat>, list: set<nat>) {
    && r.first in ids && r.last in ids && r.first <= r.last && EndsRange(ids, list, r.last)
    && forall v {:trigger EndsRange(ids, list, v)} | v in ids && r.first <= v < r.last :: !EndsRange(ids, list, v)
  }

  ghost predicate InSome(rs: seq<Range>, id: nat) {
    exists k :: 0 <= k < |rs| && rs[k].first <= id <= rs[k].last
  }

  /** After the vendors up to `upto`. */
  ghost predicate Joins(p: Codec.Progress, ids: set<nat>, list: set<nat>, upto: int) {
    && (forall k | 0 <= k < |p.ranges| :: IsJoined(p.ranges[k], ids, list) && p.ranges[k].last <= upto)
    && (forall j, k | 0 <= j < k < |p.ranges| :: p.ranges[j].last < p.ranges[k].first)
    && (p.open != 0 ==> IsOpen(p, ids, list, upto))
    && (forall id | id in ids && id <= upto :: InSome(p.ranges, id) || (p.open != 0 && p.open <= id))
  }

  ghost predicate IsOpen(p: Codec.Progress, ids: set<nat>, list: set<nat>, upto: int) {
    && p.open in ids && p.open <= upto && (forall k | 0 <= k < |p.ranges| :: p.ranges[k].last < p.open)
    && forall v {:trigger EndsRange(ids, list, v)} | v in ids && p.open <= v <= upto :: !EndsRange(ids, list, v)
  }

  lemma {:induction false} ClosedStep(p: Codec.Progress, ids: set<nat>, list: set<nat>, prev: int, d: nat)
    requires Joins(p, ids, list, prev) && prev < d && d in ids && forall u | u in ids :: u <= prev || d <= u
    requires EndsRange(ids, list, d)
    ensures var start := if p.open == 0 then d else p.open;
            && start <= d && IsJoined(Range(start, d), ids, list)
            && forall k | 0 <= k < |p.ranges| :: p.ranges[k].last < start
  {
  }

  lemma {:induction false} InSomeMore(rs: seq<Range>, r: Range, id: nat)
    ensures InSome(rs + [r], id) <==> InSome(rs, id) || r.first <= id <= r.last
  {
    if InSome(rs, id) {
      var k :| 0 <= k < |rs| && rs[k].first <= id <= rs[k].last;
      assert (rs + [r])[k] == rs[k];
    } else if r.first <= id <= r.last {
      assert (rs + [r])[|rs|] == r;
    }
  }

  lemma {:induction false} CoverStep(p: Codec.Progress, ids: set<nat>, list: set<nat>, prev: int, d: nat, id: nat)
    requires Joins(p, ids, list, prev) && prev < d && id in ids && id <= d && (id <= prev || id == d)
    ensures var q := Codec.Step(p, d, EndsRange(ids, list, d));
            InSome(q.ranges, id) || (q.open != 0 && q.open <= id) || d == 0
  {
    InSomeMore(p.ranges, Range(if p.open == 0 then d else p.open, d), id);
  }

  lemma {:induction false} CoverSteps(p: Codec.Progress, ids: set<nat>, list: set<nat>, prev: int, d: nat)
    requires Joins(p, ids, list, prev) && prev < d && forall u | u in ids :: u <= prev || d <= u
    requires d > 0 || EndsRange(ids, list, d)
    ensures var q := Codec.Step(p, d, EndsRange(ids, list, d));
            forall id | id in ids && id <= d :: InSome(q.ranges, id) || (q.open != 0 && q.open <= id)
  {
    var q := Codec.Step(p, d, EndsRange(ids, list, d));
    forall id | id in ids && id <= d ensures InSome(q.ranges, id) || (q.open != 0 && q.open <= id) {
      CoverStep(p, ids, list, prev, d, id);
      InSomeMore(p.ranges, Range(if p.open == 0 then d else p.open, d), id);
    }
  }

  lemma {:induction false} OpenStep(p: Codec.Progress, ids: set<nat>, list: set<nat>, prev: int, d: nat)
    requires Joins(p, ids, list, prev) && prev < d && d in ids && forall u | u in ids :: u <= prev || d <= u
    requires !EndsRange(ids, list, d)
    ensures IsOpen(Codec.Step(p, d, false), ids, list, d)
  {
  }

  lemma {:induction false} OneMoreJoined(rs: seq<Range>, r: Range, ids: set<nat>, list: set<nat>)
    requires forall k | 0 <= k < |rs| :: IsJoined(rs[k], ids, list) && rs[k].last < r.first
    requires (forall j, k | 0 <= j < k < |rs| :: rs[j].last < rs[k].first) && IsJoined(r, ids, list)
    ensures var more := rs + [r];
            && (forall k | 0 <= k < |more| :: IsJoined(more[k], ids, list) && more[k].last <= r.last)
            && (forall j, k | 0 <= j < k < |more| :: more[j].last < more[k].first)
  {
  }

  /** One more vendor. */
  lemma {:induction false} JoinStep(p: Codec.Progress, ids: set<nat>, list: set<nat>, prev: int, d: nat)
    requires Joins(p, ids, list, prev) && prev < d && d in ids && forall u | u in ids :: u <= prev || d <= u
    requires d > 0 || EndsRange(ids, list, d)
    ensures Joins(Codec.Step(p, d, EndsRange(ids, list, d)), ids, list, d)
  {
    CoverSteps(p, ids, list, prev, d);
    if EndsRange(ids, list, d) {
      var start := if p.open == 0 then d else p.open;
      ClosedStep(p, ids, list, prev, d);
      OneMoreJoined(p.ranges, Range(start, d), ids, list);
    } else {
      OpenStep(p, ids, list, prev, d);
    }
  }

  lemma {:induction false} JoinedUpto(vs: seq<nat>, ids: set<nat>, list: set<nat>, n: nat)
    requires IsAscending(vs, ids) && Codec.Ascends(vs) && n <= |vs|
    ensures Joins(Codec.After(vs, list, n), ids, list, if n == 0 then -1 else vs[n - 1])
  {
    if n > 0 {
      JoinedUpto(vs, ids, list, n - 1);
      ClosesIff(vs, ids, list, n - 1);
      assert vs[n - 1] in ids;
      var prev: int := if n == 1 then -1 else vs[n - 2];
      forall u | u in ids ensures u <= prev || vs[n - 1] <= u {
        assert u in vs;
      }
      if vs[n - 1] == 0 {
        assert |vs| == 1;
      }
      JoinStep(Codec.After(vs, list, n - 1), ids, list, prev, vs[n - 1]);
    }
  }

  lemma {:induction false} RangesAreJoined(vs: seq<nat>, ids: set<nat>, list: set<nat>)
    requires IsAscending(vs, ids) && Codec.Ascends(vs)
    ensures AreJoined(Codec.Joined(vs, list).ranges, ids, list)
  {
    JoinedUpto(vs, ids, list, |vs|);
    Codec.AfterCounts(vs, list, |vs|);
    if vs != [] {
      LastIsGreatest(vs, ids);
    } else {
      assert forall id | id in ids :: id in vs;
    }
  }

  // ---------- the restrictions section ----------

  /** One restriction: purpose, type, number of ranges, ranges. */
  predicate HoldsRow(bits: Bits, pos: nat, key: Restriction, ranges: seq<Range>) {
    && Holds(bits, pos, 6, key.purposeId) && Holds(bits, pos + 6, 2, key.restrictionType)
    && HoldsRanges(bits, pos + 8, ranges)
  }

  lemma {:induction false} HeadHolds(bits: Bits, pos: nat, key: Restriction)
    requires Codec.RowHead(key).Ok? && At(bits, pos, Codec.RowHead(key).value)
    ensures Holds(bits, pos, 6, key.purposeId) && Holds(bits, pos + 6, 2, key.restrictionType)
    ensures |Codec.RowHead(key).value| == 8
  {
    AtSplit(bits, pos, EncodeInt(key.purposeId, 6).value, EncodeInt(key.restrictionType, 2).value);
    IntHolds(bits, pos, key.purposeId, 6);
    IntHolds(bits, pos + 6, key.restrictionType, 2);
  }

  lemma {:induction false} RowHolds(bits: Bits, pos: nat, row: Codec.Row, gvl: Option<VendorList>, rs: seq<Range>)
    requires Codec.Ascends(row.vs) && rs == Codec.Joined(row.vs, Codec.ListedIds(gvl)).ranges
    requires Codec.RowBits(row, gvl).Ok? && At(bits, pos, Codec.RowBits(row, gvl).value)
    ensures HoldsRow(bits, pos, row.key, rs)
    ensures |Codec.RowBits(row, gvl).value| == 20 + EntryOffset(rs, |rs|)
  {
    var p := Codec.Joined(row.vs, Codec.ListedIds(gvl));
    var section := Codec.RangesBits(p).value;
    Codec.AfterCounts(row.vs, Codec.ListedIds(gvl), |row.vs|);
    assert p.count == |rs| && RangeSection(rs) == Ok(section);
    AtSplit(bits, pos, Codec.RowHead(row.key).value, section);
    HeadHolds(bits, pos, row.key);
    SectionHolds(bits, pos + 8, rs);
  }

  lemma {:induction false} RowAscends(t: Table, gvl: Option<VendorList>, row: Codec.Row)
    requires Codec.PositiveIds(t, gvl) && IsAscending(row.vs, Get(t, row.key)) && Codec.RowBits(row, gvl).Ok?
    ensures Codec.Ascends(row.vs)
  {
    if |row.vs| > 1 {
      assert row.vs[0] in Get(t, row.key);
    }
  }

  /** Where the k-th restriction starts, if `rs[i]` are the ranges of the i-th. */
  function RowOffset(rs: seq<seq<Range>>, k: nat): nat
    requires k <= |rs|
  {
    if k == 0 then 12 else RowOffset(rs, k - 1) + 20 + EntryOffset(rs[k - 1], |rs[k - 1]|)
  }

  /** The section of restrictions: their number in 12 bits, and one behind the other
      the restrictions in the order of the table, each with the ranges of its
      vendors. */
  ghost predicate HoldsTable(bits: Bits, pos: nat, t: Table, list: set<nat>, rs: seq<seq<Range>>) {
    && |rs| == |t.order| && Holds(bits, pos, 12, |t.order|)
    && forall k {:trigger HoldsNth(bits, pos, t, list, rs, k)} | 0 <= k < |rs| :: HoldsNth(bits, pos, t, list, rs, k)
  }

  ghost predicate HoldsNth(bits: Bits, pos: nat, t: Table, list: set<nat>, rs: seq<seq<Range>>, k: nat)
    requires k < |t.order| == |rs|
  {
    && AreJoined(rs[k], Get(t, t.order[k]), list)
    && HoldsRow(bits, pos + RowOffset(rs, k), t.order[k], rs[k])
  }

  ghost function RangesOf(t: Table, gvl: Option<VendorList>): (rs: seq<seq<Range>>)
    ensures |rs| == |t.order|
  {
    var rows := Codec.RowsOf(t);
    seq(|rows|, k requires 0 <= k < |rows| => Codec.Joined(rows[k].vs, Codec.ListedIds(gvl)).ranges)
  }

  lemma {:induction false} TableRow(bits: Bits, pos: nat, t: Table, gvl: Option<VendorList>, k: nat, chunk: Bits)
    requires Codec.PositiveIds(t, gvl) && k < |t.order|
    requires Codec.RowBits(Codec.RowsOf(t)[k], gvl) == Ok(chunk) && At(bits, pos, chunk)
    ensures AreJoined(RangesOf(t, gvl)[k], Get(t, t.order[k]), Codec.ListedIds(gvl))
    ensures HoldsRow(bits, pos, t.order[k], RangesOf(t, gvl)[k])
    ensures |chunk| == 20 + EntryOffset(RangesOf(t, gvl)[k], |RangesOf(t, gvl)[k]|)
  {
    var row := Codec.RowsOf(t)[k];
    RowAscends(t, gvl, row);
    RangesAreJoined(row.vs, Get(t, t.order[k]), Codec.ListedIds(gvl));
    RowHolds(bits, pos, row, gvl, RangesOf(t, gvl)[k]);
  }

  /** A chunk as long as the row of its ranges. */
  predicate IsSizedRow(chunks: seq<Coded<Bits>>, rs: seq<seq<Range>>, k: nat)
    requires k < |chunks| == |rs|
  {
    chunks[k].Ok? && |chunks[k].value| == 20 + EntryOffset(rs[k], |rs[k]|)
  }

  lemma {:induction false} RowStart(chunks: seq<Coded<Bits>>, rs: seq<seq<Range>>, k: nat)
    requires k <= |chunks| == |rs|
    requires forall i {:trigger IsSizedRow(chunks, rs, i)} | 0 <= i < k :: IsSizedRow(chunks, rs, i)
    ensures 12 + Upto(chunks, k) == RowOffset(rs, k)
  {
    if k > 0 {
      RowStart(chunks, rs, k - 1);
      assert IsSizedRow(chunks, rs, k - 1);
    }
  }

  lemma {:induction false} RowsAreSized(t: Table, gvl: Option<VendorList>, chunks: seq<Coded<Bits>>,
                                        rs: seq<seq<Range>>)
    requires Codec.PositiveIds(t, gvl) && chunks == Codec.RowChunks(Codec.RowsOf(t), gvl) && rs == RangesOf(t, gvl)
    requires Concat(chunks, |chunks|).Ok?
    ensures forall k {:trigger IsSizedRow(chunks, rs, k)} | 0 <= k < |chunks| :: IsSizedRow(chunks, rs, k)
  {
    forall k | 0 <= k < |chunks| ensures IsSizedRow(chunks, rs, k) {
      ConcatOk(chunks, |chunks|, k);
      var chunk := chunks[k].value;
      assert At(chunk, 0, chunk);
      TableRow(chunk, 0, t, gvl, k, chunk);
    }
  }

  lemma {:induction false} CountHolds(bits: Bits, pos: nat, chunks: seq<Coded<Bits>>)
    requires Codec.EncodeChunks(chunks).Ok? && At(bits, pos, Codec.EncodeChunks(chunks).value)
    ensures Holds(bits, pos, 12, |chunks|)
    ensures Concat(chunks, |chunks|).Ok? && At(bits, pos + 12, Concat(chunks, |chunks|).value)
    ensures |Codec.EncodeChunks(chunks).value| == 12 + Upto(chunks, |chunks|)
  {
    AtSplit(bits, pos, EncodeInt(|chunks|, 12).value, Concat(chunks, |chunks|).value);
    IntHolds(bits, pos, |chunks|, 12);
    ConcatLength(chunks, |chunks|);
  }

  lemma {:induction false} NthStands(bits: Bits, pos: nat, chunks: seq<Coded<Bits>>, rs: seq<seq<Range>>,
                                     k: nat, at: nat)
    requires k < |chunks| == |rs| && at == pos + RowOffset(rs, k)
    requires forall i {:trigger IsSizedRow(chunks, rs, i)} | 0 <= i < |rs| :: IsSizedRow(chunks, rs, i)
    requires Concat(chunks, |chunks|).Ok? && At(bits, pos + 12, Concat(chunks, |chunks|).value)
    ensures chunks[k].Ok? && At(bits, at, chunks[k].value)
  {
    ConcatAt(bits, pos + 12, chunks, |chunks|, k);
    RowStart(chunks, rs, k);
  }

  lemma {:induction false} TableLayout(bits: Bits, pos: nat, t: Table, gvl: Option<VendorList>)
    requires Codec.PositiveIds(t, gvl)
    requires Codec.EncodeRestrictions(t, gvl).Ok? && At(bits, pos, Codec.EncodeRestrictions(t, gvl).value)
    ensures HoldsTable(bits, pos, t, Codec.ListedIds(gvl), RangesOf(t, gvl))
    ensures |Codec.EncodeRestrictions(t, gvl).value| == RowOffset(RangesOf(t, gvl), |t.order|)
  {
    var chunks, rs := Codec.RowChunks(Codec.RowsOf(t), gvl), RangesOf(t, gvl);
    CountHolds(bits, pos, chunks);
    RowsAreSized(t, gvl, chunks, rs);
    RowStart(chunks, rs, |t.order|);
    forall k | 0 <= k < |t.order| ensures HoldsNth(bits, pos, t, Codec.ListedIds(gvl), rs, k) {
      var at := pos + RowOffset(rs, k);
      NthStands(bits, pos, chunks, rs, k, at);
      TableRow(bits, at, t, gvl, k, chunks[k].value);
    }
  }

  // ---------- where the fields stand ----------

  /** Where the fields stand, up to the first that sizes itself. */
  const STARTS: seq<nat> := [0, 6, 42, 78, 90, 102, 108, 120, 132, 138, 139, 140, 152, 176, 200, 201, 213]

  predicate SizesItself(e: Encoder) {
    e.VendorVectorEncoder? || e.RestrictionsEncoder?
  }

  lemma {:induction false} FixedWidth(e: Encoder, v: Value, gvl: Option<VendorList>)
    requires IsSized(e) && Suits(e, v) && EncodeValue(e, v, gvl).Ok? && !SizesItself(e)
    ensures |EncodeValue(e, v, gvl).value| == if e.BooleanEncoder? then 1 else e.width
  {
    match e
    case IntEncoder(width) => IntRoundTrip(v.n, width);
    case DateEncoder(width) => IntRoundTrip(Deciseconds(v.n), width);
    case BooleanEncoder =>
    case LangEncoder(width) =>
      IntRoundTrip((Upper(v.s)[0] - 'A') as int, width / 2);
      IntRoundTrip((Upper(v.s)[1] - 'A') as int, width / 2);
    case FixedVectorEncoder(_) =>
  }

  /** A field of fixed width that reaches from the k-th start to the next one. */
  predicate Reaches(e: Encoder, k: nat)
    requires k < 16
  {
    !SizesItself(e) && STARTS[k + 1] == STARTS[k] + if e.BooleanEncoder? then 1 else e.width
  }

  lemma {:induction false} AllReach(k: nat)
    requires k < 16
    ensures Reaches(EncoderOf(FIELDS[k]), k)
  {
    if k < 8 {
      assert k == 0 || k == 1 || k == 2 || k == 3 || k == 4 || k == 5 || k == 6 || k == 7;
    } else {
      assert k == 8 || k == 9 || k == 10 || k == 11 || k == 12 || k == 13 || k == 14 || k == 15;
    }
  }

  lemma {:induction false} FieldWidth(m: Model, gvl: Option<VendorList>, f: Field, k: nat)
    requires k < 16 && Reaches(EncoderOf(f), k) && FieldWriter(m, gvl)(f).Ok?
    ensures STARTS[k + 1] == STARTS[k] + |FieldWriter(m, gvl)(f).value|
  {
    FixedWidth(EncoderOf(f), Fetch(m, f), gvl);
  }

  /** For any chunks in a row. */
  lemma {:induction false} ChunkStart(chunks: seq<Coded<Bits>>, starts: seq<nat>, k: nat)
    requires k <= |chunks| && k < |starts| && starts[0] == 0
    requires forall i | 0 <= i < k :: chunks[i].Ok? && starts[i + 1] == starts[i] + |chunks[i].value|
    ensures Upto(chunks, k) == starts[k]
  {
    if k > 0 {
      ChunkStart(chunks, starts, k - 1);
    }
  }

  ghost function CoreChunks(m: Model, gvl: Option<VendorList>): seq<Coded<Bits>> {
    Chunks(FIELDS, FieldWriter(m, gvl))
  }

  lemma {:induction false} ChunkAt(chunks: seq<Coded<Bits>>, n: nat, k: nat, bits: Bits)
    requires k < n <= |chunks| && Concat(chunks, n) == Ok(bits)
    ensures chunks[k].Ok? && At(bits, Upto(chunks, k), chunks[k].value)
  {
    assert At(bits, 0, bits);
    ConcatAt(bits, 0, chunks, n, k);
  }

  lemma {:induction false} FieldStart(m: Model, gvl: Option<VendorList>, chunks: seq<Coded<Bits>>, k: nat)
    requires k < 17 && chunks == CoreChunks(m, gvl) && Concat(chunks, |chunks|).Ok?
    ensures Upto(chunks, k) == STARTS[k]
  {
    forall i | 0 <= i < k ensures chunks[i].Ok? && STARTS[i + 1] == STARTS[i] + |chunks[i].value| {
      ConcatOk(chunks, |chunks|, i);
      AllReach(i);
      FieldWidth(m, gvl, FIELDS[i], i);
    }
    ChunkStart(chunks, STARTS, k);
  }

  function Start(f: Field): nat {
    match f
    case Version => 0
    case Created => 6
    case LastUpdated => 42
    case CmpId => 78
    case CmpVersion => 90
    case ConsentScreen => 102
    case ConsentLanguage => 108
    case VendorListVersion => 120
    case PolicyVersion => 132
    case IsServiceSpecific => 138
    case UseNonStandardTexts => 139
    case SpecialFeatureOptins => 140
    case PurposeConsents => 152
    case PurposeLegitimateInterests => 176
    case PurposeOneTreatment => 200
    case PublisherCountryCode => 201
    case _ => 213
  }

  lemma {:induction false} StartIs(f: Field)
    requires !SizesItself(EncoderOf(f))
    ensures IndexOf(f) < 16 && STARTS[IndexOf(f)] == Start(f)
  {
  }

  lemma {:induction false} ChunkIs(m: Model, gvl: Option<VendorList>, f: Field)
    ensures |CoreChunks(m, gvl)| == 19
    ensures CoreChunks(m, gvl)[IndexOf(f)] == EncodeValue(EncoderOf(f), Fetch(m, f), gvl)
  {
  }

  /** The bits of a field stand where it starts. */
  lemma {:induction false} FieldStands(m: Model, gvl: Option<VendorList>, chunks: seq<Coded<Bits>>, bits: Bits,
                                       f: Field)
    requires chunks == CoreChunks(m, gvl) && Concat(chunks, |chunks|) == Ok(bits) && !SizesItself(EncoderOf(f))
    ensures EncodeValue(EncoderOf(f), Fetch(m, f), gvl).Ok?
    ensures At(bits, Start(f), EncodeValue(EncoderOf(f), Fetch(m, f), gvl).value)
  {
    StartIs(f);
    ChunkIs(m, gvl, f);
    ChunkAt(chunks, |chunks|, IndexOf(f), bits);
    FieldStart(m, gvl, chunks, IndexOf(f));
  }

  // ---------- what the fields hold ----------

  /** Letters are numbered from A, whatever their case. */
  function LetterNumber(c: char): int {
    if 97 <= c as int <= 122 then c as int - 97 else c as int - 65
  }

  predicate HoldsCode(bits: Bits, pos: nat, s: string) {
    |s| >= 2 && Holds(bits, pos, 6, LetterNumber(s[0])) && Holds(bits, pos + 6, 6, LetterNumber(s[1]))
  }

  /** One bit for each id from 1 on. */
  predicate HoldsIds(bits: Bits, pos: nat, count: nat, ids: set<nat>) {
    pos + count <= |bits| && forall id | 1 <= id <= count :: bits[pos + id - 1] == (id in ids)
  }

  predicate HoldsFlag(bits: Bits, pos: nat, b: bool) {
    pos < |bits| && bits[pos] == b
  }

  /** A time in milliseconds, to the nearest tenth of a second. */
  function Tenths(t: int): int {
    (t + 50) / 100
  }

  /** Where each field of fixed width stands, and what it holds there. */
  predicate HoldsField(bits: Bits, m: Model, f: Field) {
    match f
    case Version => Holds(bits, 0, 6, m.version)
    case Created => Holds(bits, 6, 36, Tenths(m.created))
    case LastUpdated => Holds(bits, 42, 36, Tenths(m.lastUpdated))
    case CmpId => Holds(bits, 78, 12, m.cmpId)
    case CmpVersion => Holds(bits, 90, 12, m.cmpVersion)
    case ConsentScreen => Holds(bits, 102, 6, m.consentScreen)
    case ConsentLanguage => HoldsCode(bits, 108, m.consentLanguage)
    case VendorListVersion => Holds(bits, 120, 12, m.vendorListVersion)
    case PolicyVersion => Holds(bits, 132, 6, m.policyVersion)
    case IsServiceSpecific => HoldsFlag(bits, 138, m.isServiceSpecific)
    case UseNonStandardTexts => HoldsFlag(bits, 139, m.useNonStandardTexts)
    case SpecialFeatureOptins => HoldsIds(bits, 140, 12, m.specialFeatureOptins)
    case PurposeConsents => HoldsIds(bits, 152, 24, m.purposeConsents)
    case PurposeLegitimateInterests => HoldsIds(bits, 176, 24, m.purposeLegitimateInterests)
    case PurposeOneTreatment => HoldsFlag(bits, 200, m.purposeOneTreatment)
    case PublisherCountryCode => HoldsCode(bits, 201, m.publisherCountryCode)
    case _ => true
  }

  /** The same by encoder. */
  predicate HoldsValue(bits: Bits, pos: nat, e: Encoder, v: Value)
    requires Suits(e, v)
  {
    match e
    case IntEncoder(width) => Holds(bits, pos, width, v.n)
    case DateEncoder(width) => Holds(bits, pos, width, Tenths(v.n))
    case BooleanEncoder => HoldsFlag(bits, pos, v.b)
    case LangEncoder(_) => HoldsCode(bits, pos, v.s)
    case FixedVectorEncoder(width) => HoldsIds(bits, pos, width, v.ids)
    case _ => true
  }

  lemma {:induction false} UpperNumber(s: string, i: nat)
    requires i < |s| && IsLetter(Upper(s)[i])
    ensures (Upper(s)[i] - 'A') as int == LetterNumber(s[i])
  {
  }

  lemma {:induction false} CodeHolds(bits: Bits, pos: nat, s: string)
    requires EncodeLetters(s, 12).Ok? && At(bits, pos, EncodeLetters(s, 12).value)
    ensures HoldsCode(bits, pos, s)
  {
    UpperNumber(s, 0);
    UpperNumber(s, 1);
    var a, b := LetterNumber(s[0]), LetterNumber(s[1]);
    assert EncodeLetters(s, 12).value == EncodeInt(a, 6).value + EncodeInt(b, 6).value;
    AtSplit(bits, pos, EncodeInt(a, 6).value, EncodeInt(b, 6).value);
    IntHolds(bits, pos, a, 6);
    IntHolds(bits, pos + 6, b, 6);
  }

  lemma {:induction false} IdsHold(bits: Bits, pos: nat, count: nat, ids: set<nat>)
    requires At(bits, pos, FieldBits(ids, count))
    ensures HoldsIds(bits, pos, count, ids)
  {
    forall id | 1 <= id <= count ensures bits[pos + id - 1] == (id in ids) {
      assert FieldBits(ids, count)[id - 1] == bits[pos + (id - 1)];
    }
  }

  lemma {:induction false} ValueHolds(bits: Bits, pos: nat, e: Encoder, v: Value, gvl: Option<VendorList>)
    requires IsSized(e) && Suits(e, v) && EncodeValue(e, v, gvl).Ok? && At(bits, pos, EncodeValue(e, v, gvl).value)
    ensures HoldsValue(bits, pos, e, v)
  {
    match e
    case IntEncoder(width) => IntHolds(bits, pos, v.n, width);
    case DateEncoder(width) => IntHolds(bits, pos, Tenths(v.n), width);
    case BooleanEncoder => assert EncodeFlag(v.b)[0] == bits[pos + 0];
    case LangEncoder(_) => CodeHolds(bits, pos, v.s);
    case FixedVectorEncoder(width) => IdsHold(bits, pos, width, v.ids);
    case VendorVectorEncoder =>
    case RestrictionsEncoder =>
  }

  lemma {:induction false} FieldIsValue(bits: Bits, m: Model, f: Field)
    requires HoldsValue(bits, Start(f), EncoderOf(f), Fetch(m, f))
    ensures HoldsField(bits, m, f)
  {
  }

  lemma {:induction false} FieldLayout(m: Model, gvl: Option<VendorList>, chunks: seq<Coded<Bits>>, bits: Bits,
                                       f: Field)
    requires chunks == CoreChunks(m, gvl) && Concat(chunks, |chunks|) == Ok(bits)
    ensures HoldsField(bits, m, f)
  {
    if !SizesItself(EncoderOf(f)) {
      FieldStands(m, gvl, chunks, bits, f);
      ValueHolds(bits, Start(f), EncoderOf(f), Fetch(m, f), gvl);
      FieldIsValue(bits, m, f);
    }
  }

  /** From bit 213 on: the vendors with consent, those with legitimate interest, and
      the restrictions, one behind the other to the end. */
  ghost predicate HoldsSections(bits: Bits, consents: Bits, interests: Bits, limits: Bits) {
    && At(bits, 213, consents) && At(bits, 213 + |consents|, interests)
    && At(bits, 213 + |consents| + |interests|, limits)
    && |bits| == 213 + |consents| + |interests| + |limits|
  }

  /** For any chunks in a row, the seventeenth of which stands at 213. */
  lemma {:induction false} LastThree(chunks: seq<Coded<Bits>>, n: nat, bits: Bits)
    requires |chunks| == n == 19 && Concat(chunks, n) == Ok(bits) && Upto(chunks, n - 3) == 213
    ensures chunks[16].Ok? && chunks[17].Ok? && chunks[18].Ok?
    ensures HoldsSections(bits, chunks[16].value, chunks[17].value, chunks[18].value)
  {
    ChunkAt(chunks, n, n - 3, bits);
    ChunkAt(chunks, n, n - 2, bits);
    ChunkAt(chunks, n, n - 1, bits);
    ConcatLength(chunks, n);
    NextStarts(chunks, n - 3);
    NextStarts(chunks, n - 2);
    NextStarts(chunks, n - 1);
  }

  lemma {:induction false} NextStarts(chunks: seq<Coded<Bits>>, n: nat)
    requires n < |chunks| && chunks[n].Ok?
    ensures Upto(chunks, n + 1) == Upto(chunks, n) + |chunks[n].value|
  {
  }

  lemma {:induction false} SectionsStand(m: Model, gvl: Option<VendorList>, chunks: seq<Coded<Bits>>, bits: Bits)
    requires chunks == CoreChunks(m, gvl) && Concat(chunks, |chunks|) == Ok(bits)
    ensures |chunks| == 19 && chunks[16].Ok? && chunks[17].Ok? && chunks[18].Ok?
    ensures HoldsSections(bits, chunks[16].value, chunks[17].value, chunks[18].value)
  {
    FieldStart(m, gvl, chunks, 16);
    LastThree(chunks, |chunks|, bits);
  }

  lemma {:induction false} SectionChunks(m: Model, gvl: Option<VendorList>, chunks: seq<Coded<Bits>>)
    requires chunks == CoreChunks(m, gvl)
    ensures |chunks| == 19
    ensures chunks[16] == EncodeVendors(m.vendorConsents, MaxOf(m.vendorConsents))
    ensures chunks[17] == EncodeVendors(m.vendorLegitimateInterests, MaxOf(m.vendorLegitimateInterests))
    ensures chunks[18] == Codec.EncodeRestrictions(m.publisherRestrictions, gvl)
  {
    ChunkIs(m, gvl, VendorConsents);
    ChunkIs(m, gvl, VendorLegitimateInterests);
    ChunkIs(m, gvl, PublisherRestrictions);
  }

  // ---------- which models are written ----------

  predicate IsCode(s: string) {
    |s| >= 2 && IsAsciiLetter(s[0]) && IsAsciiLetter(s[1])
  }

  predicate IsAsciiLetter(c: char) {
    65 <= c as int <= 90 || 97 <= c as int <= 122
  }

  lemma {:induction false} LargePowers()
    ensures Pow2(6) == 64 && Pow2(12) == 4096 && Pow2(36) == 68719476736
  {
    Sixteen();
    assert Pow2(6) == 64;
    assert Pow2(18) == 262144;
    assert Pow2(20) == 1048576;
    assert Pow2(22) == 4194304;
    assert Pow2(24) == 16777216;
    assert Pow2(26) == 67108864;
    assert Pow2(28) == 268435456;
    assert Pow2(30) == 1073741824;
    assert Pow2(32) == 4294967296;
    assert Pow2(34) == 17179869184;
  }

  lemma {:induction false} CodeIff(s: string)
    ensures IsCode(s) <==> |s| >= 2 && IsLetter(Upper(s)[0]) && IsLetter(Upper(s)[1])
  {
  }

  /** What a model must be like, in numbers. */
  ghost predicate InRange(m: Model, gvl: Option<VendorList>) {
    m.version == 2 && forall f: Field {:trigger IsInRange(m, gvl, f)} :: IsInRange(m, gvl, f)
  }

  ghost predicate IsInRange(m: Model, gvl: Option<VendorList>, f: Field) {
    match f
    case Version => 0 <= m.version < 64
    case Created => 0 <= Tenths(m.created) < 68719476736
    case LastUpdated => 0 <= Tenths(m.lastUpdated) < 68719476736
    case CmpId => 0 <= m.cmpId < 4096
    case CmpVersion => 0 <= m.cmpVersion < 4096
    case ConsentScreen => 0 <= m.consentScreen < 64
    case ConsentLanguage => IsCode(m.consentLanguage)
    case VendorListVersion => 0 <= m.vendorListVersion < 4096
    case PolicyVersion => 0 <= m.policyVersion < 64
    case PublisherCountryCode => IsCode(m.publisherCountryCode)
    case VendorConsents => VendorsFit(m.vendorConsents)
    case VendorLegitimateInterests => VendorsFit(m.vendorLegitimateInterests)
    case PublisherRestrictions => TableFits(m.publisherRestrictions, gvl)
    case _ => true
  }

  lemma {:induction false} NumberInRangeIff(m: Model, gvl: Option<VendorList>, f: Field)
    requires EncoderOf(f).IntEncoder?
    ensures FieldFits(m, gvl, f) <==> IsInRange(m, gvl, f)
  {
    LargePowers();
  }

  lemma {:induction false} OtherInRangeIff(m: Model, gvl: Option<VendorList>, f: Field)
    requires !EncoderOf(f).IntEncoder?
    ensures FieldFits(m, gvl, f) <==> IsInRange(m, gvl, f)
  {
    LargePowers();
    CodeIff(m.consentLanguage);
    CodeIff(m.publisherCountryCode);
  }

  /** A model has a core segment exactly when its numbers are in range. */
  lemma {:induction false} InRangeEncodesIff(m: Model, gvl: Option<VendorList>)
    requires SaneModel(m, gvl)
    ensures EncodeCore(m, gvl).Ok? <==> InRange(m, gvl)
  {
    CoreEncodesIff(m, gvl);
    forall f: Field ensures FieldFits(m, gvl, f) <==> IsInRange(m, gvl, f) {
      if EncoderOf(f).IntEncoder? {
        NumberInRangeIff(m, gvl, f);
      } else {
        OtherInRangeIff(m, gvl, f);
      }
    }
  }

  // ---------- the whole segment ----------

  /** A vendor section of length `len` at `pos`. */
  ghost predicate HoldsVendors(bits: Bits, pos: nat, ids: set<nat>, maxId: nat, rs: seq<Range>, len: nat) {
    && IsMaxId(ids, maxId) && Holds(bits, pos, 16, maxId) && HoldsFlag(bits, pos + 16, RangesPay(ids, maxId))
    && AreMaximalRuns(rs, ids)
    && (if RangesPay(ids, maxId) then HoldsRanges(bits, pos + 17, rs) else HoldsIds(bits, pos + 17, maxId, ids))
    && len == 17 + if RangesPay(ids, maxId) then 12 + EntryOffset(rs, |rs|) else maxId
  }

  lemma {:induction false} VendorsStand(bits: Bits, pos: nat, ids: set<nat>, chunk: Bits) returns (rs: seq<Range>)
    requires 0 !in ids && EncodeVendors(ids, MaxOf(ids)) == Ok(chunk) && At(bits, pos, chunk)
    ensures HoldsVendors(bits, pos, ids, MaxOf(ids), rs, |chunk|)
  {
    rs := VendorLayout(bits, pos, ids, MaxOf(ids));
    if !RangesPay(ids, MaxOf(ids)) {
      forall id | 1 <= id <= MaxOf(ids) ensures bits[pos + 17 + id - 1] == (id in ids) {
        assert bits[pos + 16 + id] == (id in ids);
      }
    }
  }

  lemma {:induction false} SaneSections(m: Model, gvl: Option<VendorList>)
    requires SaneModel(m, gvl)
    ensures 0 !in m.vendorConsents && 0 !in m.vendorLegitimateInterests
    ensures Codec.PositiveIds(m.publisherRestrictions, gvl)
  {
    assert Sane(Fetch(m, VendorConsents), gvl) && Sane(Fetch(m, VendorLegitimateInterests), gvl);
    assert Sane(Fetch(m, PublisherRestrictions), gvl);
  }

  /** The sections one behind the other, the first two of lengths `a` and `b`. */
  ghost predicate HoldsAllSections(bits: Bits, m: Model, gvl: Option<VendorList>, consents: seq<Range>,
                                   interests: seq<Range>, limits: seq<seq<Range>>, a: nat, b: nat) {
    && HoldsVendors(bits, 213, m.vendorConsents, MaxOf(m.vendorConsents), consents, a)
    && HoldsVendors(bits, 213 + a, m.vendorLegitimateInterests, MaxOf(m.vendorLegitimateInterests), interests, b)
    && HoldsTable(bits, 213 + a + b, m.publisherRestrictions, Codec.ListedIds(gvl), limits)
    && |bits| == 213 + a + b + RowOffset(limits, |limits|)
  }

  lemma {:induction false} SectionsLayout(m: Model, gvl: Option<VendorList>, bits: Bits, v: Bits, w: Bits, x: Bits)
    returns (consents: seq<Range>, interests: seq<Range>, limits: seq<seq<Range>>)
    requires SaneModel(m, gvl) && HoldsSections(bits, v, w, x)
    requires EncodeVendors(m.vendorConsents, MaxOf(m.vendorConsents)) == Ok(v)
    requires EncodeVendors(m.vendorLegitimateInterests, MaxOf(m.vendorLegitimateInterests)) == Ok(w)
    requires Codec.EncodeRestrictions(m.publisherRestrictions, gvl) == Ok(x)
    ensures HoldsAllSections(bits, m, gvl, consents, interests, limits, |v|, |w|)
  {
    SaneSections(m, gvl);
    consents := VendorsStand(bits, 213, m.vendorConsents, v);
    interests := VendorsStand(bits, 213 + |v|, m.vendorLegitimateInterests, w);
    limits := RangesOf(m.publisherRestrictions, gvl);
    TableStands(bits, 213 + |v| + |w|, m.publisherRestrictions, gvl, x);
  }

  lemma {:induction false} TableStands(bits: Bits, pos: nat, t: Table, gvl: Option<VendorList>, chunk: Bits)
    requires Codec.PositiveIds(t, gvl) && Codec.EncodeRestrictions(t, gvl) == Ok(chunk) && At(bits, pos, chunk)
    ensures HoldsTable(bits, pos, t, Codec.ListedIds(gvl), RangesOf(t, gvl))
    ensures |chunk| == RowOffset(RangesOf(t, gvl), |RangesOf(t, gvl)|)
  {
    TableLayout(bits, pos, t, gvl);
  }

  /** A model in range is written: bits that hold every field at its place, and the
      letters that spell them. */
  lemma {:induction false} CoreLayout(m: Model, gvl: Option<VendorList>)
    returns (bits: Bits, consents: seq<Range>, interests: seq<Range>, limits: seq<seq<Range>>, a: nat, b: nat)
    requires SaneModel(m, gvl) && InRange(m, gvl)
    ensures EncodeCore(m, gvl).Ok?
    ensures forall f :: HoldsField(bits, m, f)
    ensures HoldsAllSections(bits, m, gvl, consents, interests, limits, a, b)
    ensures var s := EncodeCore(m, gvl).value;
            |s| == (|bits| + 23) / 24 * 4 && forall k | 0 <= k < |s| :: Spells(bits, s, k)
  {
    InRangeEncodesIff(m, gvl);
    bits := EncodeFields(FIELDS, m, gvl).value;
    NotEmpty(m, gvl);
    LettersAre(bits);
    var chunks := CoreChunks(m, gvl);
    forall f ensures HoldsField(bits, m, f) {
      FieldLayout(m, gvl, chunks, bits, f);
    }
    SectionsStand(m, gvl, chunks, bits);
    SectionChunks(m, gvl, chunks);
    var v, w := chunks[16].value, chunks[17].value;
    a, b := |v|, |w|;
    consents, interests, limits := SectionsLayout(m, gvl, bits, v, w, chunks[18].value);
  }
}
