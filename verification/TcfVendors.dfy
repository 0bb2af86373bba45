/** The vendor section: a bit field, or a list of ranges when the running cost
    of the ranges stays below the length of the field. */
module TcfVendors {
  import opened Wrappers
  import opened TcfBits
  import opened TcfVector

  const MAX_ID_BITS := 16
  const ENCODING_TYPE_BITS := 1
  const NUM_ENTRIES_BITS := 12
  const VENDOR_ID_BITS := 16
  const SINGLE_OR_RANGE_BITS := 1

  /** What every range section costs, and the smallest section worth one. */
  const RANGE_BASE := 29
  const MIN_MAX_ID := 45

  datatype Range = Range(first: nat, last: nat)

  // ---------- ranges and their cost ----------

  /** Where the run of ids that contains `l` starts. */
  function RunStart(ids: set<nat>, l: nat): (r: nat)
    ensures r <= l
    ensures l in ids ==> r in ids
  {
    if l > 0 && l - 1 in ids then RunStart(ids, l - 1) else l
  }

  /** The maximal runs of ids that end at or before `l`. */
  function Runs(ids: set<nat>, l: nat): seq<Range> {
    if l == 0 then []
    else Runs(ids, l - 1) + if l in ids && l + 1 !in ids then [Range(RunStart(ids, l), l)] else []
  }

  /** The encoder's running cost after id `l`: 17 bits when a run of two or more
      starts, 16 when a run ends. */
  function Cost(ids: set<nat>, l: nat): nat {
    if l == 0 then RANGE_BASE
    else
      Cost(ids, l - 1) +
      if l !in ids then 0
      else if l + 1 !in ids then VENDOR_ID_BITS
      else if l - 1 in ids then 0
      else SINGLE_OR_RANGE_BITS + VENDOR_ID_BITS
  }

  /** The test the encoder makes before it handles id `l`. */
  predicate Cheaper(ids: set<nat>, maxId: nat, l: nat)
    requires l > 0
  {
    maxId > MIN_MAX_ID && Cost(ids, l - 1) < MAX_ID_BITS + ENCODING_TYPE_BITS + maxId
  }

  /** Its last outcome decides. */
  predicate ByRanges(ids: set<nat>, maxId: nat) {
    maxId > 0 && Cheaper(ids, maxId, maxId)
  }

  // ---------- encoding ----------

  function RangeBits(r: Range): Coded<Bits> {
    var first := EncodeInt(r.first, VENDOR_ID_BITS);
    var last := EncodeInt(r.last, VENDOR_ID_BITS);
    if first.Err? || last.Err? then Err(EncodingError)
    else if r.first == r.last then Ok(EncodeFlag(false) + first.value)
    else Ok(EncodeFlag(true) + first.value + last.value)
  }

  /** The first `n` entries, one after the other. */
  function AllRangeBits(rs: seq<Range>, n: nat): Coded<Bits>
    requires n <= |rs|
  {
    if n == 0 then Ok([])
    else
      var before := AllRangeBits(rs, n - 1);
      var last := RangeBits(rs[n - 1]);
      if before.Err? || last.Err? then Err(EncodingError) else Ok(before.value + last.value)
  }

  function RangeSection(rs: seq<Range>): Coded<Bits> {
    var count := EncodeInt(|rs|, NUM_ENTRIES_BITS);
    var entries := AllRangeBits(rs, |rs|);
    if count.Err? || entries.Err? then Err(EncodingError) else Ok(count.value + entries.value)
  }

  function EncodeVendors(ids: set<nat>, maxId: nat): Coded<Bits> {
    var head := EncodeInt(maxId, MAX_ID_BITS);
    if head.Err? then Err(EncodingError)
    else if ByRanges(ids, maxId) then
      var section := RangeSection(Runs(ids, maxId));
      if section.Err? then Err(EncodingError) else Ok(head.value + [true] + section.value)
    else Ok(head.value + [false] + FieldBits(ids, maxId))
  }

  // ---------- decoding ----------

  function Span(first: nat, last: nat): set<nat> {
    if last < first then {}
    else if last == 0 then {0}
    else Span(first, last - 1) + {last}
  }

  lemma {:induction false} InSpan(first: nat, last: nat)
    ensures forall x :: x in Span(first, last) <==> first <= x <= last
  {
    if first <= last && last > 0 {
      InSpan(first, last - 1);
    }
  }

  datatype Entry = Entry(ids: set<nat>, pos: nat)

  /** One entry at the cursor; the id 0 cannot be set. */
  function DecodeEntry(bits: Bits, pos: nat): Coded<Entry> {
    var first := ReadInt(bits, pos + SINGLE_OR_RANGE_BITS, VENDOR_ID_BITS);
    if first.Err? then Err(DecodingError)
    else if ReadFlag(bits, pos) then
      var last := ReadInt(bits, pos + SINGLE_OR_RANGE_BITS + VENDOR_ID_BITS, VENDOR_ID_BITS);
      if last.Err? then Err(DecodingError)
      else if first.value == 0 then Err(ModelError)
      else Ok(Entry(Span(first.value, last.value), pos + SINGLE_OR_RANGE_BITS + 2 * VENDOR_ID_BITS))
    else if first.value == 0 then Err(ModelError)
    else Ok(Entry({first.value}, pos + SINGLE_OR_RANGE_BITS + VENDOR_ID_BITS))
  }

  /** The next `n` entries from the cursor on, added to `ids`, where `read`
      reads one entry. */
  function Entries(read: nat -> Coded<Entry>, pos: nat, n: nat, ids: set<nat>): Coded<Entry>
    decreases n
  {
    if n == 0 then Ok(Entry(ids, pos))
    else
      var entry := read(pos);
      if entry.Err? then entry else Entries(read, entry.value.pos, n - 1, ids + entry.value.ids)
  }

  function EntryReader(bits: Bits): nat -> Coded<Entry> {
    (pos: nat) => DecodeEntry(bits, pos)
  }

  function DecodeEntries(bits: Bits, pos: nat, n: nat, ids: set<nat>): Coded<Entry> {
    Entries(EntryReader(bits), pos, n, ids)
  }

  /** The entries of a range section; version 1 has one more bit before them,
      which must be 0. */
  function DecodeRanges(bits: Bits, pos: nat, version: int): Coded<Entry> {
    if version == 1 && Sub(bits, pos, 1) == [true] then Err(DecodingError)
    else
      var at := if version == 1 then pos + 1 else pos;
      var count := ReadInt(bits, at, NUM_ENTRIES_BITS);
      if count.Err? then Err(DecodingError) else DecodeEntries(bits, at + NUM_ENTRIES_BITS, count.value, {})
  }

  function DecodeVendors(bits: Bits, version: int): Coded<Entry> {
    var maxId := ReadInt(bits, 0, MAX_ID_BITS);
    var form := ReadInt(bits, MAX_ID_BITS, ENCODING_TYPE_BITS);
    var pos := MAX_ID_BITS + ENCODING_TYPE_BITS;
    if maxId.Err? || form.Err? then Err(DecodingError)
    else if form.value == 1 then DecodeRanges(bits, pos, version)
    else
      var field := DecodeField(Sub(bits, pos, maxId.value), maxId.value);
      if field.Err? then Err(field.error) else Ok(Entry(field.value, pos + maxId.value))
  }

  // ---------- the loops of the bundle ----------

  method BuildRanges(rs: seq<Range>) returns (r: Coded<Bits>)
    ensures r == RangeSection(rs)
  {
    var bits := EncodeInt(|rs|, NUM_ENTRIES_BITS);
    if bits.Err? {
      return Err(EncodingError);
    }
    var entries: Bits := [];
    for i := 0 to |rs|
      invariant AllRangeBits(rs, i) == Ok(entries)
    {
      var entry := RangeBits(rs[i]);
      if entry.Err? {
        RangeErrorStays(rs, i + 1, |rs|);
        return Err(EncodingError);
      }
      entries := entries + entry.value;
    }
    return Ok(bits.value + entries);
  }

  lemma {:induction false} RangeErrorStays(rs: seq<Range>, i: nat, n: nat)
    requires i <= n <= |rs| && AllRangeBits(rs, i).Err?
    ensures AllRangeBits(rs, n).Err?
  {
    if i < n {
      RangeErrorStays(rs, i, n - 1);
    }
  }

  /** One pass over all ids builds both forms; the range list stops growing as
      soon as it is no longer cheaper. */
  method EncodeLoop(v: Vector) returns (r: Coded<Bits>)
    requires v.Valid()
    ensures r == EncodeVendors(v.ids, v.maxId)
  {
    var head := EncodeInt(v.maxId, MAX_ID_BITS);
    if head.Err? {
      return Err(EncodingError);
    }
    var field: Bits, ranges: seq<Range>, open := [], [], 0;
    var byRanges, cost := false, RANGE_BASE;
    for l := 1 to v.maxId + 1
      invariant field == FieldBits(v.ids, l - 1)
      invariant l == 1 ==> !byRanges
      invariant l > 1 ==> byRanges == Cheaper(v.ids, v.maxId, l - 1)
      invariant l == 1 || byRanges ==> cost == Cost(v.ids, l - 1) && ranges == Runs(v.ids, l - 1)
      invariant l == 1 || byRanges ==> open == (if l - 1 in v.ids && l in v.ids then RunStart(v.ids, l - 1) else 0)
      invariant !(l == 1 || byRanges) ==> v.maxId <= MIN_MAX_ID || cost >= MAX_ID_BITS + ENCODING_TYPE_BITS + v.maxId
    {
      var has := v.Has(l);
      field := field + EncodeFlag(has);
      byRanges := v.maxId > MIN_MAX_ID && cost < MAX_ID_BITS + ENCODING_TYPE_BITS + v.maxId;
      if l > 1 {
        CheaperStops(v.ids, v.maxId, l - 1, l);
      }
      if byRanges && has {
        var more := v.Has(l + 1);
        if more {
          if open == 0 {
            open := l;
            cost := cost + SINGLE_OR_RANGE_BITS + VENDOR_ID_BITS;
          }
        } else {
          cost := cost + VENDOR_ID_BITS;
          ranges := ranges + [Range(if open == 0 then l else open, l)];
          open := 0;
        }
      }
    }
    if byRanges {
      var section := BuildRanges(ranges);
      if section.Err? {
        return Err(EncodingError);
      }
      return Ok(head.value + [true] + section.value);
    }
    return Ok(head.value + [false] + field);
  }

  lemma {:induction false} CostGrows(ids: set<nat>, k: nat, l: nat)
    requires k <= l
    ensures Cost(ids, k) <= Cost(ids, l)
  {
    if k < l {
      CostGrows(ids, k, l - 1);
    }
  }

  /** Once the ranges are too long they stay too long, so the list is complete
      whenever it is used. */
  lemma {:induction false} CheaperStops(ids: set<nat>, maxId: nat, k: nat, l: nat)
    requires 0 < k <= l
    ensures Cheaper(ids, maxId, l) ==> Cheaper(ids, maxId, k)
  {
    CostGrows(ids, k - 1, l - 1);
  }

  method SetSpan(v: Vector, first: nat, last: nat)
    requires v.Valid() && first > 0
    modifies v
    ensures v.Valid() && v.ids == old(v.ids) + Span(first, last)
  {
    var l := first;
    while l <= last
      invariant v.Valid()
      invariant first <= l && (if first <= last then l <= last + 1 else l == first)
      invariant v.ids == old(v.ids) + Span(first, l - 1)
    {
      var ok := v.Set(l);
      l := l + 1;
    }
  }

  /** Put the ids of the entry at the cursor into the vector. */
  method ReadEntry(bits: Bits, pos: nat, v: Vector)
    requires v.Valid() && DecodeEntry(bits, pos).Ok?
    modifies v
    ensures v.Valid() && v.ids == old(v.ids) + DecodeEntry(bits, pos).value.ids
  {
    var first := ReadInt(bits, pos + SINGLE_OR_RANGE_BITS, VENDOR_ID_BITS).value;
    if ReadFlag(bits, pos) {
      var last := ReadInt(bits, pos + SINGLE_OR_RANGE_BITS + VENDOR_ID_BITS, VENDOR_ID_BITS).value;
      SetSpan(v, first, last);
    } else {
      var ok := v.Set(first);
    }
  }

  /** Put the next `n` entries into the vector; returns where they end. */
  method ReadEntries(bits: Bits, start: nat, n: nat, v: Vector) returns (end: Coded<nat>)
    requires v.Valid()
    modifies v
    ensures end.Err? <==> DecodeEntries(bits, start, n, old(v.ids)).Err?
    ensures v.Valid()
    ensures end.Ok? ==> DecodeEntries(bits, start, n, old(v.ids)) == Ok(Entry(v.ids, end.value))
  {
    var pos: nat := start;
    ghost var read := EntryReader(bits);
    ghost var whole := Entries(read, start, n, v.ids);
    for c := 0 to n
      invariant v.Valid()
      invariant Entries(read, pos, n - c, v.ids) == whole
    {
      var entry := DecodeEntry(bits, pos);
      if entry.Err? {
        return Err(entry.error);
      }
      ReadEntry(bits, pos, v);
      pos := entry.value.pos;
    }
    return Ok(pos);
  }

  method DecodeRangesLoop(bits: Bits, start: nat, version: int) returns (r: Coded<Vector>)
    ensures r.Err? <==> DecodeRanges(bits, start, version).Err?
    ensures r.Ok? ==> fresh(r.value) && r.value.Valid()
                      && DecodeRanges(bits, start, version) == Ok(Entry(r.value.ids, r.value.bitLength))
  {
    var v := new Vector();
    var pos: nat := start;
    if version == 1 {
      if Sub(bits, pos, 1) == [true] {
        return Err(DecodingError);
      }
      pos := pos + 1;
    }
    var count := ReadInt(bits, pos, NUM_ENTRIES_BITS);
    if count.Err? {
      return Err(DecodingError);
    }
    pos := pos + NUM_ENTRIES_BITS;
    var end := ReadEntries(bits, pos, count.value, v);
    if end.Err? {
      return Err(end.error);
    }
    v.bitLength := end.value;
    return Ok(v);
  }

  method DecodeLoop(bits: Bits, version: int) returns (r: Coded<Vector>)
    ensures r.Err? <==> DecodeVendors(bits, version).Err?
    ensures r.Ok? ==> fresh(r.value) && r.value.Valid()
                      && DecodeVendors(bits, version) == Ok(Entry(r.value.ids, r.value.bitLength))
  {
    var maxId := ReadInt(bits, 0, MAX_ID_BITS);
    var form := ReadInt(bits, MAX_ID_BITS, ENCODING_TYPE_BITS);
    var pos := MAX_ID_BITS + ENCODING_TYPE_BITS;
    if maxId.Err? || form.Err? {
      return Err(DecodingError);
    }
    if form.value == 1 {
      r := DecodeRangesLoop(bits, pos, version);
    } else {
      r := DecodeFieldLoop(Sub(bits, pos, maxId.value), maxId.value);
      if r.Ok? {
        r.value.bitLength := pos + maxId.value;
      }
    }
  }

  // ---------- round trip ----------

  /** The ids of the first `n` ranges. */
  function Covered(rs: seq<Range>, n: nat): set<nat>
    requires n <= |rs|
  {
    if n == 0 then {} else Covered(rs, n - 1) + Span(rs[n - 1].first, rs[n - 1].last)
  }

  /** Where the n-th entry starts. */
  function Offset(rs: seq<Range>, n: nat): nat
    requires n <= |rs|
  {
    if n == 0 then 0
    else Offset(rs, n - 1) + WidthOf(rs[n - 1])
  }

  predicate IsRange(r: Range) {
    0 < r.first <= r.last
  }

  ghost predicate AreRanges(rs: seq<Range>) {
    forall i {:trigger IsRange(rs[i])} | 0 <= i < |rs| :: IsRange(rs[i])
  }

  function WidthOf(r: Range): nat {
    SINGLE_OR_RANGE_BITS + if r.first == r.last then VENDOR_ID_BITS else 2 * VENDOR_ID_BITS
  }

  /** The entry of `r` can be read at the cursor. */
  ghost predicate Written(bits: Bits, pos: nat, r: Range) {
    && ReadFlag(bits, pos) == (r.first != r.last)
    && ReadInt(bits, pos + 1, VENDOR_ID_BITS) == Ok(r.first)
    && (r.first != r.last ==> ReadInt(bits, pos + 1 + VENDOR_ID_BITS, VENDOR_ID_BITS) == Ok(r.last))
  }

  lemma {:induction false} EntryWritten(bits: Bits, pos: nat, r: Range)
    requires RangeBits(r).Ok? && At(bits, pos, RangeBits(r).value)
    ensures Written(bits, pos, r)
  {
    var first := EncodeInt(r.first, VENDOR_ID_BITS).value;
    var last := EncodeInt(r.last, VENDOR_ID_BITS).value;
    if r.first == r.last {
      AtSplit(bits, pos, EncodeFlag(false), first);
      ReadWrittenFlag(bits, pos, false);
      ReadWritten(bits, pos + 1, r.first, VENDOR_ID_BITS);
    } else {
      AtSplit(bits, pos, EncodeFlag(true) + first, last);
      AtSplit(bits, pos, EncodeFlag(true), first);
      ReadWrittenFlag(bits, pos, true);
      ReadWritten(bits, pos + 1, r.first, VENDOR_ID_BITS);
      ReadWritten(bits, pos + 1 + |first|, r.last, VENDOR_ID_BITS);
    }
  }

  lemma {:induction false} EntryReadBack(bits: Bits, pos: nat, r: Range)
    requires IsRange(r) && Written(bits, pos, r)
    ensures DecodeEntry(bits, pos) == Ok(Entry(Span(r.first, r.last), pos + WidthOf(r)))
  {
    if r.first == r.last {
      assert Span(r.first, r.last) == {r.first};
    }
  }

  /** The entry of the i-th range stands at its offset. */
  ghost predicate WrittenAt(bits: Bits, pos: nat, rs: seq<Range>, i: nat)
    requires i < |rs|
  {
    Written(bits, pos + Offset(rs, i), rs[i])
  }

  /** The k-th of the first `n` entries stands at its offset. */
  lemma {:induction false} EntryAt(bits: Bits, pos: nat, rs: seq<Range>, n: nat, k: nat)
    requires k < n <= |rs|
    requires AllRangeBits(rs, n).Ok? && At(bits, pos, AllRangeBits(rs, n).value)
    ensures WrittenAt(bits, pos, rs, k)
  {
    var before, last := AllRangeBits(rs, n - 1).value, RangeBits(rs[n - 1]).value;
    AtSplit(bits, pos, before, last);
    if k < n - 1 {
      EntryAt(bits, pos, rs, n - 1, k);
    } else {
      OffsetIsLength(rs, k);
      EntryWritten(bits, pos + Offset(rs, k), rs[k]);
    }
  }

  lemma {:induction false} OffsetIsLength(rs: seq<Range>, n: nat)
    requires n <= |rs| && AllRangeBits(rs, n).Ok?
    ensures |AllRangeBits(rs, n).value| == Offset(rs, n)
  {
    if n > 0 {
      OffsetIsLength(rs, n - 1);
    }
  }

  /** The i-th range is read at its offset. */
  ghost predicate ReadsAt(read: nat -> Coded<Entry>, pos: nat, rs: seq<Range>, i: nat)
    requires i < |rs|
  {
    read(pos + Offset(rs, i)) == Ok(Entry(Span(rs[i].first, rs[i].last), pos + Offset(rs, i) + WidthOf(rs[i])))
  }

  ghost predicate ReadsAll(read: nat -> Coded<Entry>, pos: nat, rs: seq<Range>) {
    forall i {:trigger ReadsAt(read, pos, rs, i)} | 0 <= i < |rs| :: ReadsAt(read, pos, rs, i)
  }

  /** Entries that can be read at their places can be read in a row. */
  lemma {:induction false} EntriesInARow(read: nat -> Coded<Entry>, pos: nat, rs: seq<Range>, k: nat)
    requires k <= |rs| && ReadsAll(read, pos, rs)
    ensures Entries(read, pos + Offset(rs, k), |rs| - k, Covered(rs, k))
            == Ok(Entry(Covered(rs, |rs|), pos + Offset(rs, |rs|)))
    decreases |rs| - k
  {
    if k < |rs| {
      assert ReadsAt(read, pos, rs, k);
      EntriesInARow(read, pos, rs, k + 1);
    }
  }

  lemma {:induction false} WrittenReads(bits: Bits, pos: nat, rs: seq<Range>, i: nat)
    requires i < |rs| && IsRange(rs[i]) && WrittenAt(bits, pos, rs, i)
    ensures ReadsAt(EntryReader(bits), pos, rs, i)
  {
    EntryReadBack(bits, pos + Offset(rs, i), rs[i]);
  }

  lemma {:induction false} AllRead(bits: Bits, pos: nat, rs: seq<Range>)
    requires AreRanges(rs)
    requires AllRangeBits(rs, |rs|).Ok? && At(bits, pos, AllRangeBits(rs, |rs|).value)
    ensures ReadsAll(EntryReader(bits), pos, rs)
  {
    var read := EntryReader(bits);
    forall i | 0 <= i < |rs| ensures ReadsAt(read, pos, rs, i) {
      assert IsRange(rs[i]);
      EntryAt(bits, pos, rs, |rs|, i);
      WrittenReads(bits, pos, rs, i);
    }
  }

  lemma {:induction false} EntriesRoundTrip(bits: Bits, pos: nat, rs: seq<Range>)
    requires AreRanges(rs)
    requires AllRangeBits(rs, |rs|).Ok? && At(bits, pos, AllRangeBits(rs, |rs|).value)
    ensures DecodeEntries(bits, pos, |rs|, {}) == Ok(Entry(Covered(rs, |rs|), pos + |AllRangeBits(rs, |rs|).value|))
  {
    AllRead(bits, pos, rs);
    OffsetIsLength(rs, |rs|);
    EntriesInARow(EntryReader(bits), pos, rs, 0);
  }

  lemma {:induction false} RunIsFull(ids: set<nat>, l: nat)
    requires l in ids && 0 !in ids
    ensures 0 < RunStart(ids, l) && RunStart(ids, l) - 1 !in ids
    ensures forall x | RunStart(ids, l) <= x <= l :: x in ids
  {
    if l - 1 in ids {
      RunIsFull(ids, l - 1);
    }
  }

  /** The ids of the runs that end at or before `l`. */
  function Finished(ids: set<nat>, l: nat): set<nat> {
    set x | x in ids && x <= l && !(l in ids && l + 1 in ids && RunStart(ids, l) <= x)
  }

  lemma {:induction false} CoveredPrefix(rs: seq<Range>, r: Range, n: nat)
    requires n <= |rs|
    ensures Covered(rs + [r], n) == Covered(rs, n)
  {
    if n > 0 {
      CoveredPrefix(rs, r, n - 1);
    }
  }

  /** What the step from `l - 1` to `l` finishes. */
  lemma {:induction false} FinishedStep(ids: set<nat>, l: nat)
    requires 0 !in ids && l > 0
    ensures l in ids && l + 1 !in ids ==> Finished(ids, l) == Finished(ids, l - 1) + Span(RunStart(ids, l), l)
    ensures !(l in ids && l + 1 !in ids) ==> Finished(ids, l) == Finished(ids, l - 1)
  {
    if l in ids {
      RunIsFull(ids, l);
      InSpan(RunStart(ids, l), l);
    }
    if l - 1 in ids {
      RunIsFull(ids, l - 1);
    }
  }

  lemma {:induction false} RunsCover(ids: set<nat>, l: nat)
    requires 0 !in ids
    ensures Covered(Runs(ids, l), |Runs(ids, l)|) == Finished(ids, l)
  {
    if l == 0 {
      assert Finished(ids, 0) == {};
    } else {
      RunsCover(ids, l - 1);
      FinishedStep(ids, l);
      if l in ids && l + 1 !in ids {
        var before, r := Runs(ids, l - 1), Range(RunStart(ids, l), l);
        CoveredPrefix(before, r, |before|);
        assert (before + [r])[|before|] == r;
        assert Covered(before + [r], |before| + 1) == Covered(before, |before|) + Span(r.first, r.last);
        assert Runs(ids, l) == before + [r];
      } else {
        assert Runs(ids, l) == Runs(ids, l - 1);
      }
    }
  }

  lemma {:induction false} RunsAreRanges(ids: set<nat>, l: nat)
    requires 0 !in ids
    ensures AreRanges(Runs(ids, l))
    ensures forall i | 0 <= i < |Runs(ids, l)| :: Runs(ids, l)[i].last <= l
  {
    if l > 0 {
      RunsAreRanges(ids, l - 1);
      if l in ids {
        RunIsFull(ids, l);
      }
    }
  }

  /** At the greatest id every run is finished. */
  lemma {:induction false} RunsCoverAll(ids: set<nat>, maxId: nat)
    requires 0 !in ids && IsMaxId(ids, maxId)
    ensures Covered(Runs(ids, maxId), |Runs(ids, maxId)|) == ids
  {
    RunsCover(ids, maxId);
    assert maxId + 1 !in ids;
    assert Finished(ids, maxId) == ids;
  }

  lemma {:induction false} HeadRead(bits: Bits, maxId: nat, form: bool)
    requires EncodeInt(maxId, MAX_ID_BITS).Ok? && At(bits, 0, EncodeInt(maxId, MAX_ID_BITS).value + [form])
    ensures |EncodeInt(maxId, MAX_ID_BITS).value| == MAX_ID_BITS
    ensures ReadInt(bits, 0, MAX_ID_BITS) == Ok(maxId)
    ensures ReadInt(bits, MAX_ID_BITS, ENCODING_TYPE_BITS) == Ok(if form then 1 else 0)
  {
    AtSplit(bits, 0, EncodeInt(maxId, MAX_ID_BITS).value, [form]);
    ReadWritten(bits, 0, maxId, MAX_ID_BITS);
    assert [form][0] == bits[MAX_ID_BITS + 0];
    assert ValueAt(bits, MAX_ID_BITS, 0) == 0;
  }

  lemma {:induction false} RangesRead(bits: Bits, pos: nat, rs: seq<Range>)
    requires AreRanges(rs)
    requires RangeSection(rs).Ok? && At(bits, pos, RangeSection(rs).value)
    ensures DecodeRanges(bits, pos, 2) == Ok(Entry(Covered(rs, |rs|), pos + |RangeSection(rs).value|))
  {
    var count, entries := EncodeInt(|rs|, NUM_ENTRIES_BITS).value, AllRangeBits(rs, |rs|).value;
    AtSplit(bits, pos, count, entries);
    ReadWritten(bits, pos, |rs|, NUM_ENTRIES_BITS);
    EntriesRoundTrip(bits, pos + |count|, rs);
  }

  lemma {:induction false} RangesRoundTrip(bits: Bits, ids: set<nat>, maxId: nat)
    requires 0 !in ids && IsMaxId(ids, maxId) && ByRanges(ids, maxId)
    requires EncodeVendors(ids, maxId).Ok? && At(bits, 0, EncodeVendors(ids, maxId).value)
    ensures DecodeVendors(bits, 2) == Ok(Entry(ids, |EncodeVendors(ids, maxId).value|))
  {
    var head := EncodeInt(maxId, MAX_ID_BITS).value;
    var rs := Runs(ids, maxId);
    AtSplit(bits, 0, head + [true], RangeSection(rs).value);
    HeadRead(bits, maxId, true);
    RunsCoverAll(ids, maxId);
    RunsAreRanges(ids, maxId);
    RangesRead(bits, MAX_ID_BITS + ENCODING_TYPE_BITS, rs);
  }

  lemma {:induction false} FieldSectionRoundTrip(bits: Bits, ids: set<nat>, maxId: nat)
    requires 0 !in ids && IsMaxId(ids, maxId) && !ByRanges(ids, maxId)
    requires EncodeVendors(ids, maxId).Ok? && At(bits, 0, EncodeVendors(ids, maxId).value)
    ensures DecodeVendors(bits, 2) == Ok(Entry(ids, |EncodeVendors(ids, maxId).value|))
  {
    var head := EncodeInt(maxId, MAX_ID_BITS).value;
    var field := FieldBits(ids, maxId);
    AtSplit(bits, 0, head + [false], field);
    HeadRead(bits, maxId, false);
    SubAt(bits, MAX_ID_BITS + ENCODING_TYPE_BITS, field);
    FieldKeepsMax(ids, maxId);
  }

  /** Whenever the encoder returns, and whichever form it chose, decoding its
      output followed by anything gives back the ids and the number of bits. */
  lemma {:induction false} VendorRoundTrip(ids: set<nat>, maxId: nat, after: Bits)
    requires 0 !in ids && IsMaxId(ids, maxId) && EncodeVendors(ids, maxId).Ok?
    ensures var bits := EncodeVendors(ids, maxId).value;
            DecodeVendors(bits + after, 2) == Ok(Entry(ids, |bits|))
  {
    var bits := EncodeVendors(ids, maxId).value;
    if ByRanges(ids, maxId) {
      RangesRoundTrip(bits + after, ids, maxId);
    } else {
      FieldSectionRoundTrip(bits + after, ids, maxId);
    }
  }

  // ---------- when encoding fails ----------

  /** No two neighbours up to `l`. */
  predicate Isolated(ids: set<nat>, l: nat) {
    forall x | 0 <= x < l :: !(x in ids && x + 1 in ids)
  }

  function UpTo(ids: set<nat>, l: nat): set<nat> {
    set x | x in ids && x <= l
  }

  /** What the running cost counts: 16 for each finished run, and at least 17
      more as soon as two neighbours have been met. */
  lemma {:induction false} CostCounts(ids: set<nat>, l: nat)
    requires 0 !in ids
    ensures Isolated(ids, l + 1) ==> Cost(ids, l) == RANGE_BASE + 16 * |Runs(ids, l)|
    ensures !Isolated(ids, l + 1) ==> Cost(ids, l) >= RANGE_BASE + 16 * |Runs(ids, l)| + 17
  {
    if l > 0 {
      CostCounts(ids, l - 1);
    }
  }

  lemma {:induction false} IsolatedRuns(ids: set<nat>, l: nat)
    requires 0 !in ids && Isolated(ids, l + 1)
    ensures |Runs(ids, l)| == |UpTo(ids, l)|
  {
    if l > 0 {
      IsolatedRuns(ids, l - 1);
      if l in ids {
        assert UpTo(ids, l) == UpTo(ids, l - 1) + {l};
      } else {
        assert UpTo(ids, l) == UpTo(ids, l - 1);
      }
    } else {
      assert UpTo(ids, 0) == {};
    }
  }

  lemma {:induction false} RangesFit(rs: seq<Range>, n: nat)
    requires n <= |rs| && AreRanges(rs) && forall i | 0 <= i < |rs| :: rs[i].last < 65536
    ensures AllRangeBits(rs, n).Ok?
  {
    if n > 0 {
      assert IsRange(rs[n - 1]);
      Sixteen();
      IntRoundTrip(rs[n - 1].first, VENDOR_ID_BITS);
      IntRoundTrip(rs[n - 1].last, VENDOR_ID_BITS);
      RangesFit(rs, n - 1);
    }
  }

  lemma {:induction false} Sixteen()
    ensures Pow2(16) == 65536 && Pow2(12) == 4096
  {
    assert Pow2(4) == 16;
    assert Pow2(8) == 256;
    assert Pow2(12) == 4096;
  }

  /** The encoder chooses ranges and then cannot count them exactly when the
      4096 ids are pairwise isolated and the greatest is one of the last three. */
  lemma {:induction false} TooManyRangesIff(ids: set<nat>, maxId: nat)
    requires 0 !in ids && IsMaxId(ids, maxId) && maxId < 65536
    ensures ByRanges(ids, maxId) && |Runs(ids, maxId)| >= 4096
            <==> 65533 <= maxId && |ids| == 4096 && Isolated(ids, maxId)
  {
    if maxId > 0 {
      CostCounts(ids, maxId - 1);
      assert |Runs(ids, maxId)| == |Runs(ids, maxId - 1)| + 1;
      if Isolated(ids, maxId) {
        assert Isolated(ids, maxId + 1);
        IsolatedRuns(ids, maxId);
        assert UpTo(ids, maxId) == ids;
      }
    }
  }

  /** Encoding fails exactly on a greatest id of more than 16 bits, and on the
      vectors of 4096 pairwise isolated ids that end with 65533, 65534 or 65535:
      for those the encoder picks ranges and their number needs 13 bits. */
  lemma {:induction false} EncodeFailsIff(ids: set<nat>, maxId: nat)
    requires 0 !in ids && IsMaxId(ids, maxId)
    ensures EncodeVendors(ids, maxId).Err?
            <==> maxId >= 65536 || (65533 <= maxId && |ids| == 4096 && Isolated(ids, maxId))
  {
    Sixteen();
    IntRoundTrip(maxId, MAX_ID_BITS);
    if maxId < 65536 {
      TooManyRangesIff(ids, maxId);
      RunsAreRanges(ids, maxId);
      RangesFit(Runs(ids, maxId), |Runs(ids, maxId)|);
      IntRoundTrip(|Runs(ids, maxId)|, NUM_ENTRIES_BITS);
    }
  }

  /** The first `n` odd ids. */
  lemma {:induction false} OddIds(n: nat) returns (ids: set<nat>)
    ensures |ids| == n && forall id: nat :: id in ids <==> id % 2 == 1 && id < 2 * n
  {
    if n == 0 {
      ids := {};
    } else {
      var before := OddIds(n - 1);
      ids := before + {2 * n - 1};
    }
  }

  /** The 4095 odd ids up to 8189 together with 65533 cannot be encoded, though
      every id has 16 bits. */
  lemma {:induction false} TooManyIsolated() returns (ids: set<nat>)
    ensures forall id: nat :: id in ids <==> (id % 2 == 1 && id <= 8189) || id == 65533
    ensures 0 !in ids && IsMaxId(ids, 65533) && EncodeVendors(ids, 65533).Err?
  {
    var odd := OddIds(4095);
    ids := odd + {65533};
    assert Isolated(ids, 65533);
    EncodeFailsIff(ids, 65533);
  }
}
