/** The publisher restrictions section. Its encoder joins two neighbouring
    vendors of a restriction when no listed vendor lies between them. */
module TcfRestrictionCodec {
  import opened Wrappers
  import opened TcfBits
  import opened TcfVendors
  import opened TcfRestrictions

  // ---------- joining vendors into ranges ----------

  /** The first listed id in `from..last`, or `none`. */
  function NextListed(list: set<nat>, from: nat, last: nat, none: nat): (r: nat)
    ensures (r == none && forall id | from <= id <= last :: id !in list)
            || (from <= r <= last && r in list && forall id | from <= id < r :: id !in list)
    decreases last + 1 - from
  {
    if from > last then none
    else if from in list then from
    else NextListed(list, from + 1, last, none)
  }

  method FindNextListed(list: set<nat>, d: nat, last: nat) returns (r: nat)
    ensures r == NextListed(list, d + 1, last, d)
  {
    var id := d + 1;
    while id <= last
      invariant NextListed(list, d + 1, last, d) == NextListed(list, id, last, d)
      decreases last + 1 - id
    {
      if id in list {
        return id;
      }
      id := id + 1;
    }
    return d;
  }

  /** How far the encoder is with one restriction: the ranges it has counted,
      where the open one starts (0 for none), and the closed ones. */
  datatype Progress = Progress(count: nat, open: nat, ranges: seq<Range>)

  /** Whether the range that reaches the n-th vendor ends there. */
  predicate Closes(vs: seq<nat>, list: set<nat>, n: nat)
    requires n < |vs|
  {
    n == |vs| - 1 || vs[n + 1] > NextListed(list, vs[n] + 1, vs[|vs| - 1], vs[n])
  }

  function Step(p: Progress, d: nat, closes: bool): Progress {
    var start := if p.open == 0 then d else p.open;
    var count := p.count + if p.open == 0 then 1 else 0;
    if closes then Progress(count, 0, p.ranges + [Range(start, d)]) else Progress(count, start, p.ranges)
  }

  /** After the first `n` vendors. */
  function After(vs: seq<nat>, list: set<nat>, n: nat): Progress
    requires n <= |vs|
  {
    if n == 0 then Progress(0, 0, []) else Step(After(vs, list, n - 1), vs[n - 1], Closes(vs, list, n - 1))
  }

  function Joined(vs: seq<nat>, list: set<nat>): Progress {
    After(vs, list, |vs|)
  }

  // ---------- encoding ----------

  /** A restriction with its vendors in ascending order. */
  datatype Row = Row(key: Restriction, vs: seq<nat>)

  function RowHead(key: Restriction): Coded<Bits> {
    var purpose := EncodeInt(key.purposeId, PURPOSE_ID_BITS);
    var kind := EncodeInt(key.restrictionType, RESTRICTION_TYPE_BITS);
    if purpose.Err? || kind.Err? then Err(EncodingError) else Ok(purpose.value + kind.value)
  }

  function RangesBits(p: Progress): Coded<Bits> {
    var count := EncodeInt(p.count, NUM_ENTRIES_BITS);
    var entries := AllRangeBits(p.ranges, |p.ranges|);
    if count.Err? || entries.Err? then Err(EncodingError) else Ok(count.value + entries.value)
  }

  function ListedIds(gvl: Option<VendorList>): set<nat> {
    if gvl.Some? then gvl.value.vendorIds else {}
  }

  /** Two vendors or more cannot be encoded without a vendor list. */
  function RowBits(row: Row, gvl: Option<VendorList>): Coded<Bits> {
    var head := RowHead(row.key);
    var ranges := RangesBits(Joined(row.vs, ListedIds(gvl)));
    if head.Err? || ranges.Err? || (|row.vs| > 1 && gvl.None?) then Err(EncodingError)
    else Ok(head.value + ranges.value)
  }

  function RowChunks(rows: seq<Row>, gvl: Option<VendorList>): seq<Coded<Bits>> {
    seq(|rows|, i requires 0 <= i < |rows| => RowBits(rows[i], gvl))
  }

  /** How many chunks, and the chunks. */
  function EncodeChunks(chunks: seq<Coded<Bits>>): Coded<Bits> {
    var count := EncodeInt(|chunks|, NUM_RESTRICTIONS_BITS);
    var all := Concat(chunks, |chunks|);
    if count.Err? || all.Err? then Err(EncodingError) else Ok(count.value + all.value)
  }

  function EncodeRows(rows: seq<Row>, gvl: Option<VendorList>): Coded<Bits> {
    EncodeChunks(RowChunks(rows, gvl))
  }

  /** The rows of a table, in its order. */
  ghost predicate AreRows(rows: seq<Row>, t: Table) {
    && |rows| == |t.order|
    && forall i | 0 <= i < |rows| :: rows[i].key == t.order[i] && IsAscending(rows[i].vs, Get(t, t.order[i]))
  }

  /** A row for each restriction of the table, in its order. */
  ghost function RowsOf(t: Table): (rows: seq<Row>)
    ensures AreRows(rows, t)
  {
    seq(|t.order|, i requires 0 <= i < |t.order| => Row(t.order[i], Sorted(Get(t, t.order[i]))))
  }

  ghost function EncodeRestrictions(t: Table, gvl: Option<VendorList>): Coded<Bits> {
    EncodeRows(RowsOf(t), gvl)
  }

  // ---------- decoding ----------

  /** One entry at the cursor. A range must not run backwards, and a restriction
      that gets a vendor must be valid. */
  function DecodeEntry(bits: Bits, pos: nat, valid: bool): Coded<Entry> {
    var first := ReadInt(bits, pos + 1, VENDOR_ID_BITS);
    if first.Err? then Err(DecodingError)
    else if ReadFlag(bits, pos) then
      var last := ReadInt(bits, pos + 1 + VENDOR_ID_BITS, VENDOR_ID_BITS);
      if last.Err? || last.value < first.value then Err(DecodingError)
      else if !valid then Err(ModelError)
      else Ok(Entry(Span(first.value, last.value), pos + 1 + 2 * VENDOR_ID_BITS))
    else if !valid then Err(ModelError)
    else Ok(Entry({first.value}, pos + 1 + VENDOR_ID_BITS))
  }

  function EntryReader(bits: Bits, valid: bool): nat -> Coded<Entry> {
    (pos: nat) => DecodeEntry(bits, pos, valid)
  }

  datatype Parsed = Parsed(key: Restriction, ids: set<nat>, pos: nat)

  const ROW_HEAD_BITS := PURPOSE_ID_BITS + RESTRICTION_TYPE_BITS + NUM_ENTRIES_BITS

  function DecodeRow(bits: Bits, pos: nat): Coded<Parsed> {
    var purpose := ReadInt(bits, pos, PURPOSE_ID_BITS);
    var kind := ReadInt(bits, pos + PURPOSE_ID_BITS, RESTRICTION_TYPE_BITS);
    var count := ReadInt(bits, pos + PURPOSE_ID_BITS + RESTRICTION_TYPE_BITS, NUM_ENTRIES_BITS);
    if purpose.Err? || kind.Err? || count.Err? then Err(DecodingError)
    else
      var key := Restriction(purpose.value, kind.value);
      var entries := Entries(EntryReader(bits, IsValid(key)), pos + ROW_HEAD_BITS, count.value, {});
      if entries.Err? then Err(entries.error) else Ok(Parsed(key, entries.value.ids, entries.value.pos))
  }

  datatype Decoded = Decoded(table: Table, pos: nat)

  /** The next `n` restrictions from the cursor on, where `read` reads one. */
  function Rows(read: nat -> Coded<Parsed>, pos: nat, n: nat, t: Table): Coded<Decoded>
    decreases n
  {
    if n == 0 then Ok(Decoded(t, pos))
    else
      var row := read(pos);
      if row.Err? then Err(row.error)
      else Rows(read, row.value.pos, n - 1, Insert(t, row.value.key, row.value.ids))
  }

  function RowReader(bits: Bits): nat -> Coded<Parsed> {
    (pos: nat) => DecodeRow(bits, pos)
  }

  function DecodeRestrictions(bits: Bits): Coded<Decoded> {
    var count := ReadInt(bits, 0, NUM_RESTRICTIONS_BITS);
    if count.Err? then Err(DecodingError) else Rows(RowReader(bits), NUM_RESTRICTIONS_BITS, count.value, EMPTY)
  }

  // ---------- what a row covers ----------

  /** The encoder has 0 for "no open range", so the vendor 0 must be alone. */
  ghost predicate Ascends(vs: seq<nat>) {
    && (forall i, j | 0 <= i < j < |vs| :: vs[i] < vs[j])
    && (|vs| > 1 ==> vs[0] > 0)
  }

  predicate IsSpan(r: Range) {
    r.first <= r.last
  }

  ghost predicate AreSpans(rs: seq<Range>) {
    forall i {:trigger IsSpan(rs[i])} | 0 <= i < |rs| :: IsSpan(rs[i])
  }

  /** The ids the closed ranges cover, with the open one up to the n-th vendor. */
  ghost function Claimed(vs: seq<nat>, list: set<nat>, n: nat): set<nat>
    requires n <= |vs|
  {
    var p := After(vs, list, n);
    Covered(p.ranges, |p.ranges|) + if p.open == 0 || n == 0 then {} else Span(p.open, vs[n - 1])
  }

  /** The counter counts ranges; 0 never starts one. */
  ghost predicate Counts(p: Progress) {
    AreSpans(p.ranges) && p.count == |p.ranges| + if p.open == 0 then 0 else 1
  }

  lemma {:induction false} AfterCounts(vs: seq<nat>, list: set<nat>, n: nat)
    requires n <= |vs| && Ascends(vs)
    ensures Counts(After(vs, list, n))
    ensures n > 0 ==> After(vs, list, n).open <= vs[n - 1]
    ensures n > 0 ==> (After(vs, list, n).open == 0 <==> Closes(vs, list, n - 1))
  {
    if n > 0 {
      AfterCounts(vs, list, n - 1);
      var p := After(vs, list, n - 1);
      if n > 1 {
        assert vs[n - 2] < vs[n - 1];
      }
      assert vs[0] <= vs[n - 1];
      var start := if p.open == 0 then vs[n - 1] else p.open;
      assert IsSpan(Range(start, vs[n - 1]));
    }
  }

  /** One more vendor: the claim grows by the span from the open start to it. */
  lemma {:induction false} ClaimedGrows(vs: seq<nat>, list: set<nat>, n: nat)
    requires 0 < n <= |vs| && Ascends(vs)
    ensures var p := After(vs, list, n - 1);
            var start := if p.open == 0 then vs[n - 1] else p.open;
            start <= vs[n - 1] &&
            Claimed(vs, list, n) == Covered(p.ranges, |p.ranges|) + Span(start, vs[n - 1])
  {
    var p, q, d := After(vs, list, n - 1), After(vs, list, n), vs[n - 1];
    AfterCounts(vs, list, n - 1);
    AfterCounts(vs, list, n);
    var start := if p.open == 0 then d else p.open;
    assert n > 1 ==> vs[n - 2] < d;
    if Closes(vs, list, n - 1) {
      CoveredPrefix(p.ranges, Range(start, d), |p.ranges|);
      assert q.ranges == p.ranges + [Range(start, d)];
      assert Covered(q.ranges, |q.ranges|) == Covered(p.ranges, |p.ranges|) + Span(start, d);
    }
  }

  /** The vendor is claimed, and nothing listed with it. */
  lemma {:induction false} ClaimedStep(vs: seq<nat>, list: set<nat>, n: nat)
    requires 0 < n <= |vs| && Ascends(vs)
    ensures Claimed(vs, list, n - 1) + {vs[n - 1]} <= Claimed(vs, list, n)
    ensures forall id | id in Claimed(vs, list, n) && id in list :: id in Claimed(vs, list, n - 1) + {vs[n - 1]}
  {
    var p, d := After(vs, list, n - 1), vs[n - 1];
    var start := if p.open == 0 then d else p.open;
    ClaimedGrows(vs, list, n);
    InSpan(start, d);
    if n > 1 && p.open != 0 {
      AfterCounts(vs, list, n - 1);
      InSpan(p.open, vs[n - 2]);
      assert vs[n - 2] < d;
    }
  }

  /** Claimed are the first `n` vendors and, besides, only unlisted ids. */
  lemma {:induction false} ClaimedListed(vs: seq<nat>, list: set<nat>, n: nat)
    requires n <= |vs| && Ascends(vs)
    ensures forall i | 0 <= i < n :: vs[i] in Claimed(vs, list, n)
    ensures forall id | id in Claimed(vs, list, n) && id in list :: id in vs[..n]
  {
    if n > 0 {
      ClaimedListed(vs, list, n - 1);
      ClaimedStep(vs, list, n);
      assert vs[..n] == vs[..n - 1] + [vs[n - 1]];
    }
  }

  /** The ids a row decodes to. */
  ghost function RowIds(row: Row, gvl: Option<VendorList>): set<nat> {
    var ranges := Joined(row.vs, ListedIds(gvl)).ranges;
    Covered(ranges, |ranges|)
  }

  ghost predicate Listed(gvl: Option<VendorList>, id: nat) {
    gvl.Some? ==> id in gvl.value.vendorIds
  }

  /** A row keeps its vendors, and gains none that is listed. */
  lemma {:induction false} RowKeepsVendors(row: Row, gvl: Option<VendorList>)
    requires Ascends(row.vs) && (gvl.None? ==> |row.vs| <= 1)
    ensures Counts(Joined(row.vs, ListedIds(gvl))) && Joined(row.vs, ListedIds(gvl)).open == 0
    ensures forall id | id in row.vs :: id in RowIds(row, gvl)
    ensures forall id | id in RowIds(row, gvl) && Listed(gvl, id) :: id in row.vs
    ensures RowIds(row, gvl) == {} <==> row.vs == []
  {
    var vs, list := row.vs, ListedIds(gvl);
    AfterCounts(vs, list, |vs|);
    ClaimedListed(vs, list, |vs|);
    assert Claimed(vs, list, |vs|) == RowIds(row, gvl);
    assert vs[..|vs|] == vs;
    if |vs| == 1 {
      assert vs == [vs[0]];
      SingleRange(vs[0], list);
    }
    if |vs| > 0 {
      assert vs[0] in RowIds(row, gvl);
    }
  }

  lemma {:induction false} SingleRange(d: nat, list: set<nat>)
    ensures Covered(Joined([d], list).ranges, |Joined([d], list).ranges|) == {d}
  {
    assert After([d], list, 0) == Progress(0, 0, []);
    assert Joined([d], list).ranges == [] + [Range(d, d)];
    CoveredPrefix([], Range(d, d), 0);
    InSpan(d, d);
    assert Covered([Range(d, d)], 1) == Covered([Range(d, d)], 0) + Span(d, d);
  }

  // ---------- round trip ----------

  lemma {:induction false} EntryReadBack(bits: Bits, pos: nat, r: Range)
    requires IsSpan(r) && Written(bits, pos, r)
    ensures DecodeEntry(bits, pos, true) == Ok(Entry(Span(r.first, r.last), pos + WidthOf(r)))
  {
    if r.first == r.last {
      InSpan(r.first, r.last);
      assert Span(r.first, r.last) == {r.first};
    }
  }

  lemma {:induction false} EntryReads(bits: Bits, pos: nat, rs: seq<Range>, i: nat)
    requires i < |rs| && IsSpan(rs[i]) && WrittenAt(bits, pos, rs, i)
    ensures ReadsAt(EntryReader(bits, true), pos, rs, i)
  {
    EntryReadBack(bits, pos + Offset(rs, i), rs[i]);
  }

  lemma {:induction false} AllEntriesRead(bits: Bits, pos: nat, rs: seq<Range>)
    requires AreSpans(rs)
    requires AllRangeBits(rs, |rs|).Ok? && At(bits, pos, AllRangeBits(rs, |rs|).value)
    ensures ReadsAll(EntryReader(bits, true), pos, rs)
  {
    var read := EntryReader(bits, true);
    forall i | 0 <= i < |rs| ensures ReadsAt(read, pos, rs, i) {
      assert IsSpan(rs[i]);
      EntryAt(bits, pos, rs, |rs|, i);
      EntryReads(bits, pos, rs, i);
    }
  }

  lemma {:induction false} EntriesReadBack(bits: Bits, pos: nat, rs: seq<Range>)
    requires AreSpans(rs)
    requires AllRangeBits(rs, |rs|).Ok? && At(bits, pos, AllRangeBits(rs, |rs|).value)
    ensures Entries(EntryReader(bits, true), pos, |rs|, {})
            == Ok(Entry(Covered(rs, |rs|), pos + |AllRangeBits(rs, |rs|).value|))
  {
    AllEntriesRead(bits, pos, rs);
    OffsetIsLength(rs, |rs|);
    EntriesInARow(EntryReader(bits, true), pos, rs, 0);
  }

  lemma {:induction false} HeadRead(bits: Bits, pos: nat, key: Restriction)
    requires RowHead(key).Ok? && At(bits, pos, RowHead(key).value)
    ensures |RowHead(key).value| == PURPOSE_ID_BITS + RESTRICTION_TYPE_BITS
    ensures ReadInt(bits, pos, PURPOSE_ID_BITS) == Ok(key.purposeId)
    ensures ReadInt(bits, pos + PURPOSE_ID_BITS, RESTRICTION_TYPE_BITS) == Ok(key.restrictionType)
  {
    var purpose := EncodeInt(key.purposeId, PURPOSE_ID_BITS).value;
    AtSplit(bits, pos, purpose, EncodeInt(key.restrictionType, RESTRICTION_TYPE_BITS).value);
    ReadWritten(bits, pos, key.purposeId, PURPOSE_ID_BITS);
    ReadWritten(bits, pos + PURPOSE_ID_BITS, key.restrictionType, RESTRICTION_TYPE_BITS);
  }

  lemma {:induction false} RangesRead(bits: Bits, pos: nat, p: Progress)
    requires Counts(p) && p.open == 0
    requires RangesBits(p).Ok? && At(bits, pos, RangesBits(p).value)
    ensures ReadInt(bits, pos, NUM_ENTRIES_BITS) == Ok(|p.ranges|)
    ensures Entries(EntryReader(bits, true), pos + NUM_ENTRIES_BITS, |p.ranges|, {})
            == Ok(Entry(Covered(p.ranges, |p.ranges|), pos + |RangesBits(p).value|))
  {
    var count := EncodeInt(p.count, NUM_ENTRIES_BITS).value;
    AtSplit(bits, pos, count, AllRangeBits(p.ranges, |p.ranges|).value);
    ReadWritten(bits, pos, p.count, NUM_ENTRIES_BITS);
    EntriesReadBack(bits, pos + NUM_ENTRIES_BITS, p.ranges);
  }

  ghost predicate GoodRow(row: Row) {
    IsValid(row.key) && Ascends(row.vs)
  }

  /** The parts of a row, read one after the other. */
  ghost predicate RowParts(bits: Bits, pos: nat, key: Restriction, n: nat, entries: Entry) {
    && ReadInt(bits, pos, PURPOSE_ID_BITS) == Ok(key.purposeId)
    && ReadInt(bits, pos + PURPOSE_ID_BITS, RESTRICTION_TYPE_BITS) == Ok(key.restrictionType)
    && ReadInt(bits, pos + PURPOSE_ID_BITS + RESTRICTION_TYPE_BITS, NUM_ENTRIES_BITS) == Ok(n)
    && Entries(EntryReader(bits, true), pos + ROW_HEAD_BITS, n, {}) == Ok(entries)
  }

  lemma {:induction false} RowToParts(bits: Bits, pos: nat, key: Restriction, p: Progress, head: Bits, ranges: Bits)
    requires RowHead(key) == Ok(head) && RangesBits(p) == Ok(ranges) && At(bits, pos, head + ranges)
    requires Counts(p) && p.open == 0
    ensures RowParts(bits, pos, key, |p.ranges|, Entry(Covered(p.ranges, |p.ranges|), pos + |head + ranges|))
  {
    AtSplit(bits, pos, head, ranges);
    HeadRead(bits, pos, key);
    RangesRead(bits, pos + PURPOSE_ID_BITS + RESTRICTION_TYPE_BITS, p);
  }

  lemma {:induction false} RowReadBack(bits: Bits, pos: nat, row: Row, gvl: Option<VendorList>)
    requires GoodRow(row) && RowBits(row, gvl).Ok? && At(bits, pos, RowBits(row, gvl).value)
    ensures DecodeRow(bits, pos) == Ok(Parsed(row.key, RowIds(row, gvl), pos + |RowBits(row, gvl).value|))
  {
    var p := Joined(row.vs, ListedIds(gvl));
    RowKeepsVendors(row, gvl);
    RowToParts(bits, pos, row.key, p, RowHead(row.key).value, RangesBits(p).value);
  }

  /** The table that parsed rows are read into. */
  ghost function TableOf(parsed: seq<Parsed>, n: nat): Table
    requires n <= |parsed|
  {
    if n == 0 then EMPTY else Insert(TableOf(parsed, n - 1), parsed[n - 1].key, parsed[n - 1].ids)
  }

  ghost function EndOf(parsed: seq<Parsed>, start: nat, n: nat): nat
    requires n <= |parsed|
  {
    if n == 0 then start else parsed[n - 1].pos
  }

  /** The k-th row is read where the one before it ends. */
  ghost predicate ReadsRow(read: nat -> Coded<Parsed>, start: nat, parsed: seq<Parsed>, k: nat)
    requires k < |parsed|
  {
    read(EndOf(parsed, start, k)) == Ok(parsed[k])
  }

  lemma {:induction false} RowsInARow(read: nat -> Coded<Parsed>, start: nat, parsed: seq<Parsed>, k: nat)
    requires k <= |parsed|
    requires forall i {:trigger ReadsRow(read, start, parsed, i)} | k <= i < |parsed| ::
               ReadsRow(read, start, parsed, i)
    ensures Rows(read, EndOf(parsed, start, k), |parsed| - k, TableOf(parsed, k))
            == Ok(Decoded(TableOf(parsed, |parsed|), EndOf(parsed, start, |parsed|)))
    decreases |parsed| - k
  {
    if k < |parsed| {
      assert ReadsRow(read, start, parsed, k);
      RowsInARow(read, start, parsed, k + 1);
    }
  }

  /** Wherever the chunk stands, `read` reads it as `p` and stops behind it. */
  ghost predicate ReadsAs(bits: Bits, read: nat -> Coded<Parsed>, chunk: Coded<Bits>, p: Parsed) {
    forall pos: nat {:trigger read(pos)} | chunk.Ok? && At(bits, pos, chunk.value) ::
      read(pos) == Ok(Parsed(p.key, p.ids, pos + |chunk.value|))
  }

  /** `parsed` is what the chunks are read as, from `start` on. */
  ghost predicate AreParsed(bits: Bits, read: nat -> Coded<Parsed>, chunks: seq<Coded<Bits>>, start: nat,
                            parsed: seq<Parsed>)
  {
    && |parsed| == |chunks|
    && (forall k {:trigger parsed[k]} | 0 <= k < |chunks| :: parsed[k].pos == start + Upto(chunks, k + 1))
    && (forall k {:trigger parsed[k]} | 0 <= k < |chunks| :: ReadsAs(bits, read, chunks[k], parsed[k]))
  }

  lemma {:induction false} ChunkAt(bits: Bits, read: nat -> Coded<Parsed>, chunks: seq<Coded<Bits>>,
                                   start: nat, parsed: seq<Parsed>, k: nat)
    requires AreParsed(bits, read, chunks, start, parsed) && k < |chunks|
    requires Concat(chunks, |chunks|).Ok? && At(bits, start, Concat(chunks, |chunks|).value)
    ensures ReadsRow(read, start, parsed, k)
  {
    ConcatAt(bits, start, chunks, |chunks|, k);
    var p := parsed[k];
    assert EndOf(parsed, start, k) == start + Upto(chunks, k);
    assert ReadsAs(bits, read, chunks[k], p);
  }

  lemma {:induction false} ChunksRead(bits: Bits, read: nat -> Coded<Parsed>, chunks: seq<Coded<Bits>>,
                                      start: nat, parsed: seq<Parsed>)
    requires AreParsed(bits, read, chunks, start, parsed)
    requires Concat(chunks, |chunks|).Ok? && At(bits, start, Concat(chunks, |chunks|).value)
    ensures Rows(read, start, |chunks|, EMPTY)
            == Ok(Decoded(TableOf(parsed, |parsed|), start + |Concat(chunks, |chunks|).value|))
  {
    forall k | 0 <= k < |chunks| ensures ReadsRow(read, start, parsed, k) {
      ChunkAt(bits, read, chunks, start, parsed, k);
    }
    RowsInARow(read, start, parsed, 0);
    ConcatLength(chunks, |chunks|);
  }

  ghost predicate DistinctKeys(parsed: seq<Parsed>) {
    forall i, j | 0 <= i < j < |parsed| :: parsed[i].key != parsed[j].key
  }

  lemma {:induction false} TableOfRows(parsed: seq<Parsed>, n: nat)
    requires n <= |parsed| && DistinctKeys(parsed) && forall i | 0 <= i < |parsed| :: IsValid(parsed[i].key)
    ensures ValidTable(TableOf(parsed, n))
    ensures forall i | 0 <= i < n :: Get(TableOf(parsed, n), parsed[i].key) == parsed[i].ids
    ensures forall r | (forall i | 0 <= i < n :: parsed[i].key != r) :: Get(TableOf(parsed, n), r) == {}
  {
    if n > 0 {
      TableOfRows(parsed, n - 1);
      InsertIsUnion(TableOf(parsed, n - 1), parsed[n - 1].key, parsed[n - 1].ids);
    }
  }

  lemma {:induction false} ChunksReadBack(bits: Bits, read: nat -> Coded<Parsed>, chunks: seq<Coded<Bits>>,
                                          parsed: seq<Parsed>)
    requires AreParsed(bits, read, chunks, NUM_RESTRICTIONS_BITS, parsed)
    requires EncodeChunks(chunks).Ok? && At(bits, 0, EncodeChunks(chunks).value)
    ensures ReadInt(bits, 0, NUM_RESTRICTIONS_BITS) == Ok(|chunks|)
    ensures Rows(read, NUM_RESTRICTIONS_BITS, |chunks|, EMPTY)
            == Ok(Decoded(TableOf(parsed, |parsed|), |EncodeChunks(chunks).value|))
  {
    var count := EncodeInt(|chunks|, NUM_RESTRICTIONS_BITS).value;
    AtSplit(bits, 0, count, Concat(chunks, |chunks|).value);
    ReadWritten(bits, 0, |chunks|, NUM_RESTRICTIONS_BITS);
    ChunksRead(bits, read, chunks, NUM_RESTRICTIONS_BITS, parsed);
  }

  lemma {:induction false} ChunksRoundTrip(bits: Bits, chunks: seq<Coded<Bits>>, parsed: seq<Parsed>)
    requires AreParsed(bits, RowReader(bits), chunks, NUM_RESTRICTIONS_BITS, parsed)
    requires EncodeChunks(chunks).Ok? && At(bits, 0, EncodeChunks(chunks).value)
    ensures DecodeRestrictions(bits) == Ok(Decoded(TableOf(parsed, |parsed|), |EncodeChunks(chunks).value|))
  {
    ChunksReadBack(bits, RowReader(bits), chunks, parsed);
  }

  lemma {:induction false} RowReadsAs(bits: Bits, row: Row, gvl: Option<VendorList>, p: Parsed)
    requires GoodRow(row) && p.key == row.key && p.ids == RowIds(row, gvl)
    ensures ReadsAs(bits, RowReader(bits), RowBits(row, gvl), p)
  {
    var read := RowReader(bits);
    forall pos: nat | RowBits(row, gvl).Ok? && At(bits, pos, RowBits(row, gvl).value)
      ensures read(pos) == Ok(Parsed(p.key, p.ids, pos + |RowBits(row, gvl).value|))
    {
      RowReadBack(bits, pos, row, gvl);
    }
  }

  /** What the rows are read as. */
  ghost predicate AreParsedRows(parsed: seq<Parsed>, rows: seq<Row>, gvl: Option<VendorList>) {
    && |parsed| == |rows|
    && forall k | 0 <= k < |rows| ::
         parsed[k]
         == Parsed(rows[k].key, RowIds(rows[k], gvl), NUM_RESTRICTIONS_BITS + Upto(RowChunks(rows, gvl), k + 1))
  }

  lemma {:induction false} RowsAreParsed(bits: Bits, rows: seq<Row>, gvl: Option<VendorList>, parsed: seq<Parsed>)
    requires AreParsedRows(parsed, rows, gvl)
    requires forall i {:trigger GoodRow(rows[i])} | 0 <= i < |rows| :: GoodRow(rows[i])
    ensures AreParsed(bits, RowReader(bits), RowChunks(rows, gvl), NUM_RESTRICTIONS_BITS, parsed)
  {
    var chunks, read := RowChunks(rows, gvl), RowReader(bits);
    forall k | 0 <= k < |rows| ensures ReadsAs(bits, read, chunks[k], parsed[k]) {
      assert GoodRow(rows[k]);
      RowReadsAs(bits, rows[k], gvl, parsed[k]);
    }
  }

  /** Vendor lists have positive ids; without a list anything goes. */
  ghost predicate PositiveIds(t: Table, gvl: Option<VendorList>) {
    gvl.Some? ==> forall r, id | id in Get(t, r) :: id > 0
  }

  lemma {:induction false} RowsAreGood(rows: seq<Row>, t: Table, gvl: Option<VendorList>)
    requires ValidTable(t) && PositiveIds(t, gvl) && AreRows(rows, t)
    requires gvl.Some? || forall i | 0 <= i < |rows| :: |rows[i].vs| <= 1
    ensures forall i | 0 <= i < |rows| :: GoodRow(rows[i])
  {
    forall i | 0 <= i < |rows| ensures GoodRow(rows[i]) {
      assert rows[i].key in t.order;
      if |rows[i].vs| > 0 {
        assert rows[i].vs[0] in Get(t, t.order[i]);
      }
    }
  }

  /** `back` holds the restrictions of `t`: each has all its vendors, and has
      gained none that is listed. */
  ghost predicate Restores(t: Table, back: Table, gvl: Option<VendorList>) {
    && (forall r :: Get(t, r) <= Get(back, r))
    && (forall r, id | id in Get(back, r) && Listed(gvl, id) :: id in Get(t, r))
  }

  /** Each restriction is restored by its row. */
  lemma {:induction false} RowRestored(row: Row, gvl: Option<VendorList>, p: Parsed, ids: set<nat>)
    requires GoodRow(row) && (gvl.None? ==> |row.vs| <= 1)
    requires p.ids == RowIds(row, gvl) && IsAscending(row.vs, ids)
    ensures ids <= p.ids && forall id | id in p.ids && Listed(gvl, id) :: id in ids
  {
    RowKeepsVendors(row, gvl);
  }

  /** What `RowRestored` says, for all rows. */
  ghost predicate AllRestored(t: Table, gvl: Option<VendorList>, parsed: seq<Parsed>) {
    && |parsed| == |t.order|
    && forall i | 0 <= i < |parsed| ::
         && parsed[i].key == t.order[i] && Get(t, t.order[i]) <= parsed[i].ids
         && forall id | id in parsed[i].ids && Listed(gvl, id) :: id in Get(t, t.order[i])
  }

  lemma {:induction false} RowsRestored(t: Table, rows: seq<Row>, gvl: Option<VendorList>, parsed: seq<Parsed>)
    requires AreRows(rows, t) && AreParsedRows(parsed, rows, gvl)
    requires gvl.Some? || forall i | 0 <= i < |rows| :: |rows[i].vs| <= 1
    requires forall i {:trigger GoodRow(rows[i])} | 0 <= i < |rows| :: GoodRow(rows[i])
    ensures AllRestored(t, gvl, parsed)
  {
    forall i | 0 <= i < |parsed|
      ensures parsed[i].key == t.order[i] && Get(t, t.order[i]) <= parsed[i].ids
      ensures forall id | id in parsed[i].ids && Listed(gvl, id) :: id in Get(t, t.order[i])
    {
      assert GoodRow(rows[i]);
      RowRestored(rows[i], gvl, parsed[i], Get(t, t.order[i]));
    }
  }

  lemma {:induction false} TableRestored(t: Table, gvl: Option<VendorList>, parsed: seq<Parsed>)
    requires ValidTable(t) && AllRestored(t, gvl, parsed)
    requires DistinctKeys(parsed) && forall i | 0 <= i < |parsed| :: IsValid(parsed[i].key)
    ensures ValidTable(TableOf(parsed, |parsed|)) && Restores(t, TableOf(parsed, |parsed|), gvl)
  {
    TableOfRows(parsed, |parsed|);
    var back := TableOf(parsed, |parsed|);
    forall r
      ensures Get(t, r) <= Get(back, r)
      ensures forall id | id in Get(back, r) && Listed(gvl, id) :: id in Get(t, r)
    {
      if r in t.order {
        var i :| 0 <= i < |t.order| && t.order[i] == r;
        assert Get(back, parsed[i].key) == parsed[i].ids;
      } else {
        assert forall i | 0 <= i < |parsed| :: parsed[i].key != r;
      }
    }
  }

  lemma {:induction false} WithoutListOne(rows: seq<Row>)
    requires EncodeRows(rows, None).Ok?
    ensures forall i | 0 <= i < |rows| :: |rows[i].vs| <= 1
  {
    forall i | 0 <= i < |rows| ensures |rows[i].vs| <= 1 {
      ConcatOk(RowChunks(rows, None), |rows|, i);
      assert RowChunks(rows, None)[i] == RowBits(rows[i], None);
    }
  }

  lemma {:induction false} RowsDecoded(bits: Bits, rows: seq<Row>, gvl: Option<VendorList>, parsed: seq<Parsed>)
    requires AreParsedRows(parsed, rows, gvl)
    requires forall i {:trigger GoodRow(rows[i])} | 0 <= i < |rows| :: GoodRow(rows[i])
    requires EncodeRows(rows, gvl).Ok? && At(bits, 0, EncodeRows(rows, gvl).value)
    ensures DecodeRestrictions(bits) == Ok(Decoded(TableOf(parsed, |parsed|), |EncodeRows(rows, gvl).value|))
  {
    RowsAreParsed(bits, rows, gvl, parsed);
    ChunksRoundTrip(bits, RowChunks(rows, gvl), parsed);
  }

  lemma {:induction false} TableBack(t: Table, rows: seq<Row>, gvl: Option<VendorList>, parsed: seq<Parsed>)
    requires ValidTable(t) && PositiveIds(t, gvl) && AreRows(rows, t) && AreParsedRows(parsed, rows, gvl)
    requires gvl.Some? || EncodeRows(rows, None).Ok?
    ensures ValidTable(TableOf(parsed, |parsed|)) && Restores(t, TableOf(parsed, |parsed|), gvl)
  {
    if gvl.None? {
      WithoutListOne(rows);
    }
    RowsAreGood(rows, t, gvl);
    RowsRestored(t, rows, gvl, parsed);
    TableRestored(t, gvl, parsed);
  }

  ghost function Parse(rows: seq<Row>, gvl: Option<VendorList>): (parsed: seq<Parsed>)
    ensures AreParsedRows(parsed, rows, gvl)
  {
    var chunks := RowChunks(rows, gvl);
    seq(|rows|, k requires 0 <= k < |rows| =>
      Parsed(rows[k].key, RowIds(rows[k], gvl), NUM_RESTRICTIONS_BITS + Upto(chunks, k + 1)))
  }

  /** Decoding what was encoded, with anything behind it, restores the
      restrictions and ends where the encoding ends. */
  lemma {:induction false} RestrictionsRoundTrip(t: Table, gvl: Option<VendorList>, after: Bits)
    requires ValidTable(t) && PositiveIds(t, gvl) && EncodeRestrictions(t, gvl).Ok?
    ensures var bits := EncodeRestrictions(t, gvl).value;
            var back := DecodeRestrictions(bits + after);
            back.Ok? && back.value.pos == |bits| && ValidTable(back.value.table) && Restores(t, back.value.table, gvl)
  {
    var rows := RowsOf(t);
    var parsed := Parse(rows, gvl);
    if gvl.None? {
      WithoutListOne(rows);
    }
    RowsAreGood(rows, t, gvl);
    RowsDecoded(EncodeRows(rows, gvl).value + after, rows, gvl, parsed);
    TableBack(t, rows, gvl, parsed);
  }

  /** When the vendor list allows every restriction, setting that list on what
      was decoded leaves exactly the original triples. */
  lemma {:induction false} SettingTheListRestores(t: Table, back: Table, gvl: VendorList)
    requires IsList(gvl) && AllOk(t, Some(gvl)) && Restores(t, back, Some(gvl))
    ensures forall r :: Get(Filtered(back, gvl), r) == Get(t, r)
  {
    forall r ensures Get(Filtered(back, gvl), r) == Get(t, r) {
      forall id | id in Get(t, r) ensures id in Get(back, r) && IsOkToHave(Some(gvl), r, id) {
      }
      forall id | id in Get(back, r) && IsOkToHave(Some(gvl), r, id) ensures id in Get(t, r) {
        assert Listed(Some(gvl), id);
      }
    }
  }

  // ---------- the loops of the bundle ----------

  lemma {:induction false} RangesGrow(vs: seq<nat>, list: set<nat>, n: nat, m: nat)
    requires n <= m <= |vs|
    ensures After(vs, list, n).ranges <= After(vs, list, m).ranges
  {
    if n < m {
      RangesGrow(vs, list, n, m - 1);
    }
  }

  lemma {:induction false} PrefixBits(a: seq<Range>, b: seq<Range>, n: nat)
    requires a <= b && n <= |a|
    ensures AllRangeBits(a, n) == AllRangeBits(b, n)
  {
    if n > 0 {
      PrefixBits(a, b, n - 1);
    }
  }

  /** A range that has no bits leaves the row without bits. */
  lemma {:induction false} BadRange(vs: seq<nat>, list: set<nat>, n: nat)
    requires n <= |vs|
    requires var rs := After(vs, list, n).ranges; AllRangeBits(rs, |rs|).Err?
    ensures RangesBits(Joined(vs, list)).Err?
  {
    var rs, all := After(vs, list, n).ranges, Joined(vs, list).ranges;
    RangesGrow(vs, list, n, |vs|);
    PrefixBits(rs, all, |rs|);
    RangeErrorStays(all, |rs|, |all|);
  }

  /** Whether the range that reaches the n-th vendor ends there. */
  method EndsAt(vs: seq<nat>, gvl: Option<VendorList>, n: nat) returns (closes: bool)
    requires n < |vs| && (gvl.Some? || n == |vs| - 1)
    ensures closes == Closes(vs, ListedIds(gvl), n)
  {
    closes := n == |vs| - 1;
    if !closes {
      var next := FindNextListed(gvl.value.vendorIds, vs[n], vs[|vs| - 1]);
      closes := vs[n + 1] > next;
    }
  }

  /** The ranges of one restriction, built vendor by vendor. */
  method EncodeRanges(vs: seq<nat>, gvl: Option<VendorList>) returns (r: Coded<Bits>)
    ensures |vs| > 1 && gvl.None? ==> r.Err?
    ensures !(|vs| > 1 && gvl.None?) ==> r == RangesBits(Joined(vs, ListedIds(gvl)))
  {
    if |vs| > 1 && gvl.None? {
      return Err(EncodingError);
    }
    ghost var list, p := ListedIds(gvl), Progress(0, 0, []);
    var count, open, bits: Bits := 0, 0, [];
    for n := 0 to |vs|
      invariant After(vs, list, n) == p && p.count == count && p.open == open
      invariant AllRangeBits(p.ranges, |p.ranges|) == Ok(bits)
    {
      if open == 0 {
        count := count + 1;
        open := vs[n];
      }
      var closes := EndsAt(vs, gvl, n);
      ghost var before := p.ranges;
      p := Step(p, vs[n], closes);
      if closes {
        var entry := RangeBits(Range(open, vs[n]));
        MoreBits(before, Range(open, vs[n]));
        if entry.Err? {
          BadRange(vs, list, n + 1);
          return Err(EncodingError);
        }
        bits := bits + entry.value;
        open := 0;
      }
    }
    var total := EncodeInt(count, NUM_ENTRIES_BITS);
    if total.Err? {
      return Err(EncodingError);
    }
    return Ok(total.value + bits);
  }

  lemma {:induction false} MoreBits(rs: seq<Range>, r: Range)
    requires AllRangeBits(rs, |rs|).Ok?
    ensures AllRangeBits(rs + [r], |rs + [r]|)
            == if RangeBits(r).Ok? then Ok(AllRangeBits(rs, |rs|).value + RangeBits(r).value) else Err(EncodingError)
  {
    PrefixBits(rs, rs + [r], |rs|);
    assert (rs + [r])[|rs|] == r;
  }

  /** The chunk of one restriction. */
  method EncodeRow(v: PurposeRestrictionVector, key: Restriction, ghost row: Row) returns (r: Coded<Bits>)
    requires row == Row(key, Sorted(Get(v.table, key)))
    ensures r == RowBits(row, v.gvl)
  {
    var vs := v.GetVendors(key);
    var head := RowHead(key);
    var ranges := EncodeRanges(vs, v.gvl);
    if head.Err? || ranges.Err? {
      return Err(EncodingError);
    }
    return Ok(head.value + ranges.value);
  }

  method EncodeLoop(v: PurposeRestrictionVector) returns (r: Coded<Bits>)
    ensures r == EncodeRestrictions(v.table, v.gvl)
  {
    var order := v.table.order;
    var bits := EncodeInt(|order|, NUM_RESTRICTIONS_BITS);
    if bits.Err? {
      return Err(EncodingError);
    }
    ghost var rows := RowsOf(v.table);
    ghost var chunks := RowChunks(rows, v.gvl);
    var all: Bits := [];
    for i := 0 to |order|
      invariant Concat(chunks, i) == Ok(all)
    {
      var chunk := EncodeRow(v, order[i], rows[i]);
      assert chunks[i] == chunk;
      if chunk.Err? {
        ConcatErrorStays(chunks, i + 1, |order|);
        return Err(EncodingError);
      }
      all := all + chunk.value;
    }
    return Ok(bits.value + all);
  }

  method AddSpan(v: PurposeRestrictionVector, first: nat, last: nat, key: Restriction) returns (ok: bool)
    requires v.Valid() && v.gvl == None && first <= last
    modifies v`table, v`bitLength
    ensures v.Valid() && ok == IsValid(key)
    ensures ok ==> v.table == Insert(old(v.table), key, Span(first, last))
  {
    ok := true;
    var id := first;
    while id <= last
      invariant v.Valid() && first <= id <= last + 1 && (ok <==> id == first || IsValid(key))
      invariant v.table == Insert(old(v.table), key, if id == first then {} else Span(first, id - 1))
    {
      ok := v.Add(id, key);
      if !ok {
        return;
      }
      InsertTwice(old(v.table), key, if id == first then {} else Span(first, id - 1), {id});
      assert Span(first, id) == (if id == first then {} else Span(first, id - 1)) + {id};
      id := id + 1;
    }
  }

  /** Add the entry at the cursor to the restriction `key`. */
  method ReadEntry(bits: Bits, pos: nat, key: Restriction, v: PurposeRestrictionVector) returns (next: Coded<nat>)
    requires v.Valid() && v.gvl == None
    modifies v`table, v`bitLength
    ensures v.Valid()
    ensures next.Err? <==> DecodeEntry(bits, pos, IsValid(key)).Err?
    ensures next.Ok? ==> next.value == DecodeEntry(bits, pos, IsValid(key)).value.pos
                         && v.table == Insert(old(v.table), key, DecodeEntry(bits, pos, IsValid(key)).value.ids)
  {
    var flag := ReadFlag(bits, pos);
    var first := ReadInt(bits, pos + 1, VENDOR_ID_BITS);
    if first.Err? {
      return Err(DecodingError);
    }
    if flag {
      var last := ReadInt(bits, pos + 1 + VENDOR_ID_BITS, VENDOR_ID_BITS);
      if last.Err? || last.value < first.value {
        return Err(DecodingError);
      }
      var ok := AddSpan(v, first.value, last.value, key);
      return if ok then Ok(pos + 1 + 2 * VENDOR_ID_BITS) else Err(ModelError);
    } else {
      var ok := v.Add(first.value, key);
      return if ok then Ok(pos + 1 + VENDOR_ID_BITS) else Err(ModelError);
    }
  }

  method ReadEntries(bits: Bits, start: nat, n: nat, key: Restriction, v: PurposeRestrictionVector)
    returns (end: Coded<nat>)
    requires v.Valid() && v.gvl == None
    modifies v`table, v`bitLength
    ensures v.Valid()
    ensures end.Err? <==> Entries(EntryReader(bits, IsValid(key)), start, n, {}).Err?
    ensures end.Ok? ==> var entry := Entries(EntryReader(bits, IsValid(key)), start, n, {}).value;
                        end.value == entry.pos && v.table == Insert(old(v.table), key, entry.ids)
  {
    var pos: nat := start;
    ghost var read, ids: set<nat> := EntryReader(bits, IsValid(key)), {};
    ghost var whole := Entries(read, start, n, {});
    for c := 0 to n
      invariant v.Valid() && v.table == Insert(old(v.table), key, ids)
      invariant Entries(read, pos, n - c, ids) == whole
    {
      ghost var entry := DecodeEntry(bits, pos, IsValid(key));
      assert read(pos) == entry;
      var next := ReadEntry(bits, pos, key, v);
      if next.Err? {
        return next;
      }
      InsertTwice(old(v.table), key, ids, entry.value.ids);
      ids := ids + entry.value.ids;
      pos := next.value;
    }
    return Ok(pos);
  }

  /** Read the restriction at the cursor, as `read` does. */
  method ReadRow(bits: Bits, pos: nat, ghost read: nat -> Coded<Parsed>, v: PurposeRestrictionVector)
    returns (next: Coded<nat>)
    requires v.Valid() && v.gvl == None && read == RowReader(bits)
    modifies v`table, v`bitLength
    ensures v.Valid()
    ensures next.Err? <==> read(pos).Err?
    ensures next.Ok? ==> next.value == read(pos).value.pos
                         && v.table == Insert(old(v.table), read(pos).value.key, read(pos).value.ids)
  {
    var purpose := ReadInt(bits, pos, PURPOSE_ID_BITS);
    var kind := ReadInt(bits, pos + PURPOSE_ID_BITS, RESTRICTION_TYPE_BITS);
    var count := ReadInt(bits, pos + PURPOSE_ID_BITS + RESTRICTION_TYPE_BITS, NUM_ENTRIES_BITS);
    if purpose.Err? || kind.Err? || count.Err? {
      return Err(DecodingError);
    }
    next := ReadEntries(bits, pos + ROW_HEAD_BITS, count.value, Restriction(purpose.value, kind.value), v);
  }

  method ReadRows(bits: Bits, start: nat, n: nat, ghost read: nat -> Coded<Parsed>, v: PurposeRestrictionVector)
    returns (end: Coded<nat>)
    requires v.Valid() && v.gvl == None && read == RowReader(bits)
    modifies v`table, v`bitLength
    ensures v.Valid()
    ensures end.Err? <==> Rows(read, start, n, old(v.table)).Err?
    ensures end.Ok? ==> Rows(read, start, n, old(v.table)) == Ok(Decoded(v.table, end.value))
  {
    var pos: nat := start;
    ghost var whole := Rows(read, start, n, v.table);
    for c := 0 to n
      invariant v.Valid() && Rows(read, pos, n - c, v.table) == whole
    {
      var next := ReadRow(bits, pos, read, v);
      if next.Err? {
        return next;
      }
      pos := next.value;
    }
    return Ok(pos);
  }

  method DecodeLoop(bits: Bits) returns (r: Coded<PurposeRestrictionVector>)
    ensures r.Err? <==> DecodeRestrictions(bits).Err?
    ensures r.Ok? ==> fresh(r.value) && r.value.Valid() && r.value.gvl == None
                      && DecodeRestrictions(bits) == Ok(Decoded(r.value.table, r.value.bitLength))
  {
    var v := new PurposeRestrictionVector();
    var count := ReadInt(bits, 0, NUM_RESTRICTIONS_BITS);
    if count.Err? {
      return Err(DecodingError);
    }
    var end := ReadRows(bits, NUM_RESTRICTIONS_BITS, count.value, RowReader(bits), v);
    if end.Err? {
      return Err(end.error);
    }
    v.bitLength := end.value;
    return Ok(v);
  }
}
