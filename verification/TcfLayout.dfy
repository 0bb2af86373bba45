/** What stands where in a consent string: every letter, every entry of the vendor
    sections, and when the vendors are written as ranges. */
module TcfLayout {
  import opened Wrappers
  import opened TcfBits
  import TcfBase64
  import opened TcfVector
  import opened TcfVendors

  // ---------- numbers ----------

  /** The number that `width` bits spell, the most significant one first. */
  function NumberAt(bits: Bits, pos: nat, width: nat): nat
    requires pos + width <= |bits|
  {
    if width == 0 then 0 else 2 * NumberAt(bits, pos, width - 1) + if bits[pos + width - 1] then 1 else 0
  }

  predicate Holds(bits: Bits, pos: nat, width: nat, n: int) {
    pos + width <= |bits| && NumberAt(bits, pos, width) == n
  }

  lemma {:induction false} NumberIs(bits: Bits, pos: nat, width: nat)
    requires pos + width <= |bits|
    ensures NumberAt(bits, pos, width) == ValueAt(bits, pos, width)
  {
    if width > 0 {
      NumberIs(bits, pos, width - 1);
    }
  }

  lemma {:induction false} IntHolds(bits: Bits, pos: nat, n: int, width: nat)
    requires width > 0 && EncodeInt(n, width).Ok? && At(bits, pos, EncodeInt(n, width).value)
    ensures |EncodeInt(n, width).value| == width && Holds(bits, pos, width, n)
  {
    ReadWritten(bits, pos, n, width);
    NumberIs(bits, pos, width);
  }

  // ---------- base64url ----------

  /** The six bits from the k-th group on, where there are none, zeros. */
  ghost predicate Spells(bits: Bits, s: string, k: nat)
    requires k < |s|
  {
    exists group: nat :: group < 64 && IsLetterOf(s[k], group)
      && forall i | 0 <= i < 6 :: (6 * k + i < |bits| && bits[6 * k + i]) == (group / Weight(i) % 2 == 1)
  }

  function Weight(i: int): (w: nat)
    ensures w > 0
  {
    if i == 0 then 32 else if i == 1 then 16 else if i == 2 then 8 else if i == 3 then 4 else if i == 4 then 2 else 1
  }

  /** Letters by their codes: A to Z, a to z, 0 to 9, the hyphen and the low line. */
  predicate IsLetterOf(c: char, n: nat) {
    c as int == if n < 26 then 65 + n else if n < 52 then 97 + (n - 26) else if n < 62 then 48 + (n - 52)
                else if n == 62 then 45 else 95
  }

  lemma {:induction false} CharIs(bits: Bits, n: nat, k: nat)
    requires k < n && n * 6 <= |bits|
    ensures |TcfBase64.Chars(bits, n)| == n
    ensures TcfBase64.Chars(bits, n)[k] == TcfBase64.CharAt(TcfBase64.Group(bits, k * 6))
  {
    if k < n - 1 {
      CharIs(bits, n - 1, k);
    }
    CharsLength(bits, n - 1);
  }

  lemma {:induction false} CharsLength(bits: Bits, n: nat)
    requires n * 6 <= |bits|
    ensures |TcfBase64.Chars(bits, n)| == n
  {
    if n > 0 {
      CharsLength(bits, n - 1);
    }
  }

  lemma {:induction false} SixBits(bits: Bits, pos: nat)
    requires pos + 6 <= |bits|
    ensures forall i | 0 <= i < 6 :: bits[pos + i] == (ValueAt(bits, pos, 6) / Weight(i) % 2 == 1)
  {
    var a, b, c := Digit(bits, pos), Digit(bits, pos + 1), Digit(bits, pos + 2);
    var d, e, f := Digit(bits, pos + 3), Digit(bits, pos + 4), Digit(bits, pos + 5);
    assert ValueAt(bits, pos, 0) == 0;
    assert ValueAt(bits, pos, 1) == a;
    assert ValueAt(bits, pos, 2) == 2 * a + b;
    assert ValueAt(bits, pos, 3) == 4 * a + 2 * b + c;
    assert ValueAt(bits, pos, 4) == 8 * a + 4 * b + 2 * c + d;
    assert ValueAt(bits, pos, 5) == 16 * a + 8 * b + 4 * c + 2 * d + e;
    assert ValueAt(bits, pos, 6) == 32 * a + 16 * b + 8 * c + 4 * d + 2 * e + f;
    SixDigits(a, b, c, d, e, f);
  }

  function Digit(bits: Bits, i: nat): (n: nat)
    requires i < |bits|
    ensures n < 2
  {
    if bits[i] then 1 else 0
  }

  lemma {:induction false} SixDigits(a: nat, b: nat, c: nat, d: nat, e: nat, f: nat)
    requires a < 2 && b < 2 && c < 2 && d < 2 && e < 2 && f < 2
    ensures var n := 32 * a + 16 * b + 8 * c + 4 * d + 2 * e + f;
            n / 32 % 2 == a && n / 16 % 2 == b && n / 8 % 2 == c && n / 4 % 2 == d && n / 2 % 2 == e && n / 1 % 2 == f
  {
  }

  lemma {:induction false} LetterIs(bits: Bits, long: Bits, s: string, k: nat)
    requires k < |s| && 6 * k + 6 <= |long| && bits <= long && (forall i | |bits| <= i < |long| :: !long[i])
    requires s[k] == TcfBase64.CharAt(TcfBase64.Group(long, 6 * k))
    ensures Spells(bits, s, k)
  {
    SixBits(long, 6 * k);
    assert IsLetterOf(s[k], TcfBase64.Group(long, 6 * k));
  }

  /** Every group of six bits is its letter, and four letters stand for 24 bits or
      the rest of them. */
  lemma {:induction false} LettersAre(bits: Bits)
    requires bits != []
    ensures TcfBase64.Encode(bits).Ok?
    ensures var s := TcfBase64.Encode(bits).value;
            |s| == (|bits| + 23) / 24 * 4 && forall k | 0 <= k < |s| :: Spells(bits, s, k)
  {
    var padded, n := TcfBase64.Padded(bits), TcfBase64.Groups(bits);
    var s := TcfBase64.Encode(bits).value;
    CharsLength(padded, n);
    forall k | 0 <= k < n ensures Spells(bits, s, k) {
      CharIs(padded, n, k);
      LetterIs(bits, padded, s, k);
    }
  }

  // ---------- the vendor section ----------

  predicate EndsRun(ids: set<nat>, x: nat) {
    x in ids && x + 1 !in ids
  }

  /** ... of two ids or more. */
  predicate StartsRun(ids: set<nat>, x: nat) {
    x > 0 && x in ids && x - 1 !in ids && x + 1 in ids
  }

  /** The ids up to `l` where a run ends. */
  function Ends(ids: set<nat>, l: nat): set<nat> {
    set x | x in ids && 0 < x <= l && EndsRun(ids, x)
  }

  function Starts(ids: set<nat>, l: nat): set<nat> {
    set x | x in ids && 0 < x <= l && StartsRun(ids, x)
  }

  /** Ranges are chosen from 46 on when they promise to be shorter than the field. */
  predicate RangesPay(ids: set<nat>, maxId: nat) {
    maxId > 45 && 29 + 16 * |Ends(ids, maxId - 1)| + 17 * |Starts(ids, maxId - 1)| < 17 + maxId
  }

  lemma {:induction false} CostIs(ids: set<nat>, l: nat)
    ensures Cost(ids, l) == 29 + 16 * |Ends(ids, l)| + 17 * |Starts(ids, l)|
  {
    if l == 0 {
      assert Ends(ids, 0) == {} && Starts(ids, 0) == {};
    } else {
      CostIs(ids, l - 1);
      assert Ends(ids, l) == Ends(ids, l - 1) + if EndsRun(ids, l) then {l} else {};
      assert Starts(ids, l) == Starts(ids, l - 1) + if StartsRun(ids, l) then {l} else {};
    }
  }

  lemma {:induction false} ChosenIff(ids: set<nat>, maxId: nat)
    ensures ByRanges(ids, maxId) <==> RangesPay(ids, maxId)
  {
    if maxId > 0 {
      CostIs(ids, maxId - 1);
    }
  }

  /** Runs of neighbouring ids that cannot be made longer, in ascending order: all
      of them. */
  ghost predicate AreMaximalRuns(rs: seq<Range>, ids: set<nat>) {
    && (forall k | 0 <= k < |rs| :: IsMaximalRun(rs[k], ids))
    && (forall j, k | 0 <= j < k < |rs| :: rs[j].last < rs[k].first)
    && (forall id | id in ids :: exists k :: 0 <= k < |rs| && rs[k].first <= id <= rs[k].last)
  }

  ghost predicate IsMaximalRun(r: Range, ids: set<nat>) {
    && 0 < r.first <= r.last && r.first - 1 !in ids && r.last + 1 !in ids
    && forall id | r.first <= id <= r.last :: id in ids
  }

  lemma {:induction false} RunStartsAt(ids: set<nat>, l: nat)
    requires 0 !in ids && l in ids
    ensures 0 < RunStart(ids, l) <= l && RunStart(ids, l) - 1 !in ids
    ensures forall id | RunStart(ids, l) <= id <= l :: id in ids
  {
    if l - 1 in ids {
      RunStartsAt(ids, l - 1);
    }
  }

  lemma {:induction false} RunsAreMaximal(ids: set<nat>, l: nat)
    requires 0 !in ids
    ensures forall k | 0 <= k < |Runs(ids, l)| :: IsMaximalRun(Runs(ids, l)[k], ids) && Runs(ids, l)[k].last <= l
  {
    if l > 0 {
      RunsAreMaximal(ids, l - 1);
      if l in ids {
        RunStartsAt(ids, l);
      }
    }
  }

  lemma {:induction false} RunsAreOrdered(ids: set<nat>, l: nat)
    requires 0 !in ids
    ensures forall j, k | 0 <= j < k < |Runs(ids, l)| :: Runs(ids, l)[j].last < Runs(ids, l)[k].first
  {
    if l > 0 {
      RunsAreOrdered(ids, l - 1);
      RunsAreMaximal(ids, l - 1);
      if l in ids {
        var before := Runs(ids, l - 1);
        RunStartsAt(ids, l);
        forall k | 0 <= k < |before| ensures before[k].last < RunStart(ids, l) {
          assert IsMaximalRun(before[k], ids);
        }
      }
    }
  }

  lemma {:induction false} CoveredBy(rs: seq<Range>, n: nat, id: nat)
    requires n <= |rs| && id in Covered(rs, n)
    ensures exists k :: 0 <= k < |rs| && rs[k].first <= id <= rs[k].last
  {
    if id in Covered(rs, n - 1) {
      CoveredBy(rs, n - 1, id);
    } else {
      InSpan(rs[n - 1].first, rs[n - 1].last);
    }
  }

  lemma {:induction false} RunsAre(ids: set<nat>, maxId: nat)
    requires 0 !in ids && IsMaxId(ids, maxId)
    ensures AreMaximalRuns(Runs(ids, maxId), ids)
  {
    RunsAreMaximal(ids, maxId);
    RunsAreOrdered(ids, maxId);
    RunsCoverAll(ids, maxId);
    var rs := Runs(ids, maxId);
    forall id | id in ids ensures exists k :: 0 <= k < |rs| && rs[k].first <= id <= rs[k].last {
      CoveredBy(rs, |rs|, id);
    }
  }

  /** One entry of a section: a flag, the first id, and the last one where it is
      another. */
  predicate HoldsRange(bits: Bits, pos: nat, r: Range) {
    && pos + 17 <= |bits| && bits[pos] == (r.first != r.last)
    && Holds(bits, pos + 1, 16, r.first)
    && (r.first != r.last ==> Holds(bits, pos + 17, 16, r.last))
  }

  /** Where the n-th entry stands. */
  function EntryOffset(rs: seq<Range>, n: nat): nat
    requires n <= |rs|
  {
    if n == 0 then 0 else EntryOffset(rs, n - 1) + if rs[n - 1].first == rs[n - 1].last then 17 else 33
  }

  predicate HoldsEntry(bits: Bits, pos: nat, rs: seq<Range>, k: nat)
    requires k < |rs|
  {
    HoldsRange(bits, pos + EntryOffset(rs, k), rs[k])
  }

  predicate HoldsEntries(bits: Bits, pos: nat, rs: seq<Range>) {
    forall k {:trigger HoldsEntry(bits, pos, rs, k)} | 0 <= k < |rs| :: HoldsEntry(bits, pos, rs, k)
  }

  predicate HoldsRanges(bits: Bits, pos: nat, rs: seq<Range>) {
    Holds(bits, pos, 12, |rs|) && HoldsEntries(bits, pos + 12, rs)
  }

  lemma {:induction false} OffsetIs(rs: seq<Range>, n: nat)
    requires n <= |rs|
    ensures Offset(rs, n) == EntryOffset(rs, n)
  {
    if n > 0 {
      OffsetIs(rs, n - 1);
    }
  }

  lemma {:induction false} EntryHolds(bits: Bits, pos: nat, rs: seq<Range>, k: nat)
    requires k < |rs| && AllRangeBits(rs, |rs|).Ok? && At(bits, pos, AllRangeBits(rs, |rs|).value)
    ensures HoldsEntry(bits, pos, rs, k)
  {
    EntryAt(bits, pos, rs, |rs|, k);
    OffsetIs(rs, k);
    var at := pos + Offset(rs, k);
    assert WrittenAt(bits, pos, rs, k);
    NumberIs(bits, at + 1, 16);
    if rs[k].first != rs[k].last {
      NumberIs(bits, at + 17, 16);
    }
  }

  lemma {:induction false} EntriesHold(bits: Bits, pos: nat, rs: seq<Range>)
    requires AllRangeBits(rs, |rs|).Ok? && At(bits, pos, AllRangeBits(rs, |rs|).value)
    ensures HoldsEntries(bits, pos, rs)
  {
    forall k | 0 <= k < |rs| ensures HoldsEntry(bits, pos, rs, k) {
      EntryHolds(bits, pos, rs, k);
    }
  }

  /** The vendor section: the greatest id in 16 bits, a bit for the form, and then
      either one bit for every id, or the number of runs in 12 bits and the runs. */
  lemma {:induction false} VendorLayout(bits: Bits, pos: nat, ids: set<nat>, maxId: nat) returns (rs: seq<Range>)
    requires 0 !in ids && IsMaxId(ids, maxId)
    requires EncodeVendors(ids, maxId).Ok? && At(bits, pos, EncodeVendors(ids, maxId).value)
    ensures Holds(bits, pos, 16, maxId) && pos + 17 <= |bits| && bits[pos + 16] == RangesPay(ids, maxId)
    ensures AreMaximalRuns(rs, ids)
    ensures if RangesPay(ids, maxId) then HoldsRanges(bits, pos + 17, rs)
            else pos + 17 + maxId <= |bits| && forall id | 1 <= id <= maxId :: bits[pos + 16 + id] == (id in ids)
    ensures |EncodeVendors(ids, maxId).value|
            == 17 + if RangesPay(ids, maxId) then 12 + EntryOffset(rs, |rs|) else maxId
  {
    rs := Runs(ids, maxId);
    RunsAre(ids, maxId);
    ChosenIff(ids, maxId);
    if ByRanges(ids, maxId) {
      RangesLayout(bits, pos, ids, maxId, EncodeInt(maxId, 16).value, RangeSection(rs).value);
    } else {
      FieldLayout(bits, pos, ids, maxId, EncodeInt(maxId, 16).value);
    }
  }

  lemma {:induction false} HeadLayout(bits: Bits, pos: nat, maxId: nat, head: Bits, form: bool, rest: Bits)
    requires EncodeInt(maxId, 16) == Ok(head) && At(bits, pos, head + [form] + rest)
    ensures Holds(bits, pos, 16, maxId) && |head| == 16
    ensures pos + 17 <= |bits| && bits[pos + 16] == form && At(bits, pos + 17, rest)
  {
    AtSplit(bits, pos, head + [form], rest);
    AtSplit(bits, pos, head, [form]);
    IntHolds(bits, pos, maxId, 16);
    assert [form][0] == bits[pos + |head| + 0];
  }

  lemma {:induction false} RangesLayout(bits: Bits, pos: nat, ids: set<nat>, maxId: nat, head: Bits, section: Bits)
    requires EncodeInt(maxId, 16) == Ok(head) && RangeSection(Runs(ids, maxId)) == Ok(section)
    requires At(bits, pos, head + [true] + section)
    ensures Holds(bits, pos, 16, maxId) && pos + 17 <= |bits| && bits[pos + 16]
    ensures HoldsRanges(bits, pos + 17, Runs(ids, maxId))
    ensures |head + [true] + section| == 29 + EntryOffset(Runs(ids, maxId), |Runs(ids, maxId)|)
  {
    HeadLayout(bits, pos, maxId, head, true, section);
    SectionHolds(bits, pos + 17, Runs(ids, maxId));
  }

  lemma {:induction false} FieldLayout(bits: Bits, pos: nat, ids: set<nat>, maxId: nat, head: Bits)
    requires EncodeInt(maxId, 16) == Ok(head) && At(bits, pos, head + [false] + FieldBits(ids, maxId))
    ensures Holds(bits, pos, 16, maxId) && pos + 17 + maxId <= |bits| && !bits[pos + 16]
    ensures forall id | 1 <= id <= maxId :: bits[pos + 16 + id] == (id in ids)
    ensures |head + [false] + FieldBits(ids, maxId)| == 17 + maxId
  {
    var field := FieldBits(ids, maxId);
    HeadLayout(bits, pos, maxId, head, false, field);
    forall id | 1 <= id <= maxId ensures bits[pos + 16 + id] == (id in ids) {
      assert field[id - 1] == bits[pos + 17 + (id - 1)];
    }
  }

  lemma {:induction false} SectionHolds(bits: Bits, pos: nat, rs: seq<Range>)
    requires RangeSection(rs).Ok? && At(bits, pos, RangeSection(rs).value)
    ensures HoldsRanges(bits, pos, rs) && |RangeSection(rs).value| == 12 + EntryOffset(rs, |rs|)
  {
    var count, entries := EncodeInt(|rs|, 12).value, AllRangeBits(rs, |rs|).value;
    AtSplit(bits, pos, count, entries);
    IntHolds(bits, pos, |rs|, 12);
    OffsetIsLength(rs, |rs|);
    OffsetIs(rs, |rs|);
    EntriesHold(bits, pos + 12, rs);
  }
}
