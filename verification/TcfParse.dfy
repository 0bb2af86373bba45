/** Which bits decode, and to what: the sections of a consent string as they may
    come from any encoder, with entries in any order and of either form. */
module TcfParse {
  import opened Wrappers
  import opened TcfBits
  import TcfBase64
  import opened TcfVector
  import opened TcfVendors
  import opened TcfRestrictions
  import Codec = TcfRestrictionCodec
  import opened TcfLayout

  // ---------- entries ----------

  /** An entry with its flag; without it, the last id is the first. */
  datatype Item = Item(range: bool, first: nat, last: nat)

  function Width(it: Item): nat {
    if it.range then 33 else 17
  }

  predicate IsItem(bits: Bits, pos: nat, it: Item) {
    && pos < |bits| && bits[pos] == it.range && Holds(bits, pos + 1, 16, it.first)
    && if it.range then Holds(bits, pos + 17, 16, it.last) else it.last == it.first
  }

  /** The entries stand one behind the other. */
  predicate AreItems(bits: Bits, pos: nat, items: seq<Item>)
    decreases |items|
  {
    items != [] ==> IsItem(bits, pos, items[0]) && AreItems(bits, pos + Width(items[0]), items[1..])
  }

  function EndOf(pos: nat, items: seq<Item>): nat
    decreases |items|
  {
    if items == [] then pos else EndOf(pos + Width(items[0]), items[1..])
  }

  ghost predicate InItem(it: Item, id: nat) {
    it.first <= id <= it.last
  }

  ghost predicate IsCovered(items: seq<Item>, id: nat) {
    exists k :: 0 <= k < |items| && InItem(items[k], id)
  }

  /** The entry at the cursor, if it is all there. */
  function ItemAt(bits: Bits, pos: nat): Option<Item> {
    if pos + 17 > |bits| then None
    else
      var first := NumberAt(bits, pos + 1, 16);
      if !bits[pos] then Some(Item(false, first, first))
      else if pos + 33 > |bits| then None
      else Some(Item(true, first, NumberAt(bits, pos + 17, 16)))
  }

  lemma {:induction false} ItemAtIs(bits: Bits, pos: nat, it: Item)
    ensures ItemAt(bits, pos) == Some(it) <==> IsItem(bits, pos, it)
  {
  }

  /** `read` reads an entry exactly where one stands that is good, and gets its
      ids. */
  ghost predicate ReadsItems(read: nat -> Coded<Entry>, bits: Bits, good: Item -> bool) {
    forall pos: nat {:trigger read(pos)} ::
      var it := ItemAt(bits, pos);
      if it.Some? && good(it.value)
      then read(pos) == Ok(Entry(Span(it.value.first, it.value.last), pos + Width(it.value)))
      else read(pos).Err?
  }

  ghost predicate AllGood(items: seq<Item>, good: Item -> bool) {
    forall k | 0 <= k < |items| :: good(items[k])
  }

  /** The ids of the entries, with those from before. */
  ghost predicate Collects(ids: set<nat>, before: set<nat>, items: seq<Item>) {
    forall id: nat :: id in ids <==> id in before || IsCovered(items, id)
  }

  lemma {:induction false} CollectsMore(ids: set<nat>, before: set<nat>, it: Item, rest: seq<Item>)
    requires Collects(ids, before + Span(it.first, it.last), rest)
    ensures Collects(ids, before, [it] + rest)
  {
    InSpan(it.first, it.last);
    forall id: nat ensures IsCovered([it] + rest, id) <==> InItem(it, id) || IsCovered(rest, id) {
      CoveredMore(it, rest, id);
    }
  }

  lemma {:induction false} CoveredMore(it: Item, rest: seq<Item>, id: nat)
    ensures IsCovered([it] + rest, id) <==> InItem(it, id) || IsCovered(rest, id)
  {
    var all := [it] + rest;
    if IsCovered(rest, id) {
      var k :| 0 <= k < |rest| && InItem(rest[k], id);
      assert all[k + 1] == rest[k];
    }
    if InItem(it, id) {
      assert all[0] == it;
    }
  }

  /** What is read stands there. */
  lemma {:induction false} ReadItems(bits: Bits, read: nat -> Coded<Entry>, good: Item -> bool, pos: nat,
                                     n: nat, before: set<nat>)
    returns (items: seq<Item>)
    requires ReadsItems(read, bits, good) && Entries(read, pos, n, before).Ok?
    ensures |items| == n && AreItems(bits, pos, items) && AllGood(items, good)
    ensures var entry := Entries(read, pos, n, before).value;
            Collects(entry.ids, before, items) && entry.pos == EndOf(pos, items)
    decreases n
  {
    if n == 0 {
      items := [];
    } else {
      var it := ItemAt(bits, pos).value;
      ItemAtIs(bits, pos, it);
      var next := before + Span(it.first, it.last);
      var rest := ReadItems(bits, read, good, pos + Width(it), n - 1, next);
      items := [it] + rest;
      assert items[1..] == rest;
      CollectsMore(Entries(read, pos, n, before).value.ids, before, it, rest);
    }
  }

  /** What stands there is read. */
  lemma {:induction false} StandingItems(bits: Bits, read: nat -> Coded<Entry>, good: Item -> bool, pos: nat,
                                         items: seq<Item>, before: set<nat>)
    requires ReadsItems(read, bits, good) && AreItems(bits, pos, items) && AllGood(items, good)
    ensures Entries(read, pos, |items|, before).Ok?
    decreases |items|
  {
    if items != [] {
      var it := items[0];
      ItemAtIs(bits, pos, it);
      assert forall k | 0 <= k < |items[1..]| :: items[1..][k] == items[k + 1];
      StandingItems(bits, read, good, pos + Width(it), items[1..], before + Span(it.first, it.last));
    }
  }

  // ---------- the vendor section ----------

  function StartsAboveZero(): Item -> bool {
    (it: Item) => it.first > 0
  }

  lemma {:induction false} SpanOfOne(n: nat)
    ensures Span(n, n) == {n}
  {
    InSpan(n, n);
  }

  lemma {:induction false} VendorEntries(bits: Bits)
    ensures ReadsItems(EntryReader(bits), bits, StartsAboveZero())
  {
    var read, good := EntryReader(bits), StartsAboveZero();
    forall pos: nat
      ensures var it := ItemAt(bits, pos);
              if it.Some? && good(it.value)
              then read(pos) == Ok(Entry(Span(it.value.first, it.value.last), pos + Width(it.value)))
              else read(pos).Err?
    {
      VendorEntry(bits, pos);
    }
  }

  lemma {:induction false} VendorEntry(bits: Bits, pos: nat)
    ensures var it := ItemAt(bits, pos);
            if it.Some? && it.value.first > 0
            then DecodeEntry(bits, pos) == Ok(Entry(Span(it.value.first, it.value.last), pos + Width(it.value)))
            else DecodeEntry(bits, pos).Err?
  {
    if pos + 17 <= |bits| {
      NumberIs(bits, pos + 1, 16);
      SpanOfOne(NumberAt(bits, pos + 1, 16));
    }
    if pos + 33 <= |bits| {
      NumberIs(bits, pos + 17, 16);
    }
  }

  /** A vendor section of ranges: their number in 12 bits behind the head, and the
      entries, none of which starts with 0; in version 1 with a zero before them. */
  ghost predicate HasItems(bits: Bits, version: int, items: seq<Item>) {
    var start := if version == 1 then 18 else 17;
    && Holds(bits, start, 12, |items|) && (version == 1 ==> !bits[17])
    && AreItems(bits, start + 12, items) && AllGood(items, StartsAboveZero())
  }

  /** A vendor section decodes exactly when its field or its entries are all there;
      the result is what the field marks or the entries cover. */
  lemma {:induction false} VendorsDecodeIff(bits: Bits, version: int) returns (items: seq<Item>)
    ensures DecodeVendors(bits, version).Ok?
            <==> |bits| >= 17 && if bits[16] then exists some :: HasItems(bits, version, some)
                                 else |bits| >= 17 + NumberAt(bits, 0, 16)
    ensures DecodeVendors(bits, version).Ok? && bits[16] ==>
              var entry := DecodeVendors(bits, version).value;
              HasItems(bits, version, items) && entry.pos == EndOf(if version == 1 then 30 else 29, items)
              && forall id: nat :: id in entry.ids <==> IsCovered(items, id)
    ensures DecodeVendors(bits, version).Ok? && !bits[16] ==>
              var entry := DecodeVendors(bits, version).value;
              entry.pos == 17 + NumberAt(bits, 0, 16)
              && forall id: nat :: id in entry.ids <==> 1 <= id <= NumberAt(bits, 0, 16) && bits[16 + id]
  {
    items := [];
    if |bits| >= 17 {
      NumberIs(bits, 0, 16);
      FormIs(bits);
      if bits[16] {
        items := RangesDecodeIff(bits, version);
      } else {
        FieldDecodes(bits, NumberAt(bits, 0, 16));
      }
    }
  }

  lemma {:induction false} FormIs(bits: Bits)
    requires |bits| >= 17
    ensures ReadInt(bits, 16, 1) == Ok(if bits[16] then 1 else 0)
  {
    assert ValueAt(bits, 16, 0) == 0;
  }

  lemma {:induction false} FieldDecodes(bits: Bits, n: nat)
    requires |bits| >= 17
    ensures DecodeField(Sub(bits, 17, n), n).Ok? <==> |bits| >= 17 + n
    ensures DecodeField(Sub(bits, 17, n), n).Ok? ==>
              forall id: nat :: id in DecodeField(Sub(bits, 17, n), n).value <==> 1 <= id <= n && bits[16 + id]
  {
    if |bits| >= 17 + n {
      var field := Sub(bits, 17, n);
      forall id: nat | 1 <= id <= n ensures id in FieldIds(field) <==> bits[16 + id] {
        assert field[id - 1] == bits[17 + (id - 1)];
      }
    }
  }

  lemma {:induction false} RangesDecodeIff(bits: Bits, version: int) returns (items: seq<Item>)
    requires |bits| >= 17
    ensures DecodeRanges(bits, 17, version).Ok? <==> exists some :: HasItems(bits, version, some)
    ensures DecodeRanges(bits, 17, version).Ok? ==>
              var entry := DecodeRanges(bits, 17, version).value;
              HasItems(bits, version, items) && entry.pos == EndOf(if version == 1 then 30 else 29, items)
              && forall id: nat :: id in entry.ids <==> IsCovered(items, id)
  {
    items := [];
    VendorEntries(bits);
    var read, good, start := EntryReader(bits), StartsAboveZero(), if version == 1 then 18 else 17;
    assert |bits| >= 18 ==> Sub(bits, 17, 1) == [bits[17]];
    if |bits| >= start + 12 {
      NumberIs(bits, start, 12);
    }
    if DecodeRanges(bits, 17, version).Ok? {
      items := ReadItems(bits, read, good, start + 12, NumberAt(bits, start, 12), {});
      assert HasItems(bits, version, items);
    }
    if some :| HasItems(bits, version, some) {
      StandingItems(bits, read, good, start + 12, some, {});
    }
  }

  // ---------- the restrictions section ----------

  datatype Record = Record(purposeId: nat, kind: nat, items: seq<Item>)

  function KeyOf(r: Record): Restriction {
    Restriction(r.purposeId, r.kind)
  }

  /** A range must not run backwards, and only a purpose other than 0 can be
      restricted, in one of three ways. */
  predicate IsGood(r: Record) {
    && (forall k | 0 <= k < |r.items| :: r.items[k].first <= r.items[k].last)
    && (r.items != [] ==> r.purposeId > 0 && r.kind <= 2)
  }

  predicate IsRecord(bits: Bits, pos: nat, r: Record) {
    && Holds(bits, pos, 6, r.purposeId) && Holds(bits, pos + 6, 2, r.kind) && Holds(bits, pos + 8, 12, |r.items|)
    && AreItems(bits, pos + 20, r.items)
  }

  predicate AreRecords(bits: Bits, pos: nat, rs: seq<Record>)
    decreases |rs|
  {
    rs != [] ==> IsRecord(bits, pos, rs[0]) && IsGood(rs[0]) && AreRecords(bits, EndOf(pos + 20, rs[0].items), rs[1..])
  }

  function EndOfAll(pos: nat, rs: seq<Record>): nat
    decreases |rs|
  {
    if rs == [] then pos else EndOfAll(EndOf(pos + 20, rs[0].items), rs[1..])
  }

  function RunsForward(valid: bool): Item -> bool {
    (it: Item) => valid && it.first <= it.last
  }

  lemma {:induction false} RestrictionEntry(bits: Bits, pos: nat, valid: bool)
    ensures var it := ItemAt(bits, pos);
            if it.Some? && valid && it.value.first <= it.value.last
            then Codec.DecodeEntry(bits, pos, valid)
                 == Ok(Entry(Span(it.value.first, it.value.last), pos + Width(it.value)))
            else Codec.DecodeEntry(bits, pos, valid).Err?
  {
    if pos + 17 <= |bits| {
      NumberIs(bits, pos + 1, 16);
      SpanOfOne(NumberAt(bits, pos + 1, 16));
    }
    if pos + 33 <= |bits| {
      NumberIs(bits, pos + 17, 16);
    }
  }

  lemma {:induction false} RestrictionEntries(bits: Bits, valid: bool)
    ensures ReadsItems(Codec.EntryReader(bits, valid), bits, RunsForward(valid))
  {
    var read, good := Codec.EntryReader(bits, valid), RunsForward(valid);
    forall pos: nat
      ensures var it := ItemAt(bits, pos);
              if it.Some? && good(it.value)
              then read(pos) == Ok(Entry(Span(it.value.first, it.value.last), pos + Width(it.value)))
              else read(pos).Err?
    {
      RestrictionEntry(bits, pos, valid);
    }
  }

  /** The ids that records of this purpose and type restrict. */
  ghost predicate IsRestricted(rs: seq<Record>, key: Restriction, id: nat) {
    exists k :: 0 <= k < |rs| && KeyOf(rs[k]) == key && IsCovered(rs[k].items, id)
  }

  lemma {:induction false} AllForward(items: seq<Item>, valid: bool)
    ensures AllGood(items, RunsForward(valid))
            <==> (forall k | 0 <= k < |items| :: items[k].first <= items[k].last) && (items != [] ==> valid)
  {
    var good := RunsForward(valid);
    if AllGood(items, good) {
      assert items != [] ==> good(items[0]);
      assert forall k | 0 <= k < |items| :: good(items[k]);
    }
  }

  /** A record is read exactly where a good one stands. */
  lemma {:induction false} RowDecodeIff(bits: Bits, pos: nat) returns (r: Record)
    ensures Codec.DecodeRow(bits, pos).Ok? <==> exists some :: IsRecord(bits, pos, some) && IsGood(some)
    ensures Codec.DecodeRow(bits, pos).Ok? ==>
              var row := Codec.DecodeRow(bits, pos).value;
              && IsRecord(bits, pos, r) && IsGood(r) && row.key == KeyOf(r) && row.pos == EndOf(pos + 20, r.items)
              && forall id: nat :: id in row.ids <==> IsCovered(r.items, id)
  {
    r := Record(0, 0, []);
    if pos + 20 <= |bits| {
      NumberIs(bits, pos, 6);
      NumberIs(bits, pos + 6, 2);
      NumberIs(bits, pos + 8, 12);
      r := EntriesDecodeIff(bits, pos, NumberAt(bits, pos, 6), NumberAt(bits, pos + 6, 2), NumberAt(bits, pos + 8, 12));
    }
  }

  lemma {:induction false} EntriesDecodeIff(bits: Bits, pos: nat, purposeId: nat, kind: nat, n: nat)
    returns (r: Record)
    requires pos + 20 <= |bits| && NumberAt(bits, pos + 8, 12) == n
    requires NumberAt(bits, pos, 6) == purposeId && NumberAt(bits, pos + 6, 2) == kind
    ensures var entries :=
              Entries(Codec.EntryReader(bits, IsValid(Restriction(purposeId, kind))), pos + 20, n, {});
            && (entries.Ok? <==> exists some :: IsRecord(bits, pos, some) && IsGood(some))
            && (entries.Ok? ==>
                  && IsRecord(bits, pos, r) && IsGood(r) && KeyOf(r) == Restriction(purposeId, kind)
                  && entries.value.pos == EndOf(pos + 20, r.items)
                  && forall id: nat :: id in entries.value.ids <==> IsCovered(r.items, id))
  {
    var valid := IsValid(Restriction(purposeId, kind));
    var read, good := Codec.EntryReader(bits, valid), RunsForward(valid);
    RestrictionEntries(bits, valid);
    r := Record(0, 0, []);
    if Entries(read, pos + 20, n, {}).Ok? {
      var items := ReadItems(bits, read, good, pos + 20, n, {});
      AllForward(items, valid);
      r := Record(purposeId, kind, items);
      assert IsRecord(bits, pos, r) && IsGood(r);
    }
    if some :| IsRecord(bits, pos, some) && IsGood(some) {
      AllForward(some.items, valid);
      StandingItems(bits, read, good, pos + 20, some.items, {});
    }
  }

  /** The table holds what it held and what the records restrict. */
  ghost predicate Gathers(t: Table, before: Table, rs: seq<Record>) {
    forall key: Restriction, id: nat :: id in Get(t, key) <==> id in Get(before, key) || IsRestricted(rs, key, id)
  }

  lemma {:induction false} RestrictedMore(r: Record, rest: seq<Record>, key: Restriction, id: nat)
    ensures IsRestricted([r] + rest, key, id)
            <==> (KeyOf(r) == key && IsCovered(r.items, id)) || IsRestricted(rest, key, id)
  {
    var all := [r] + rest;
    if IsRestricted(rest, key, id) {
      var k :| 0 <= k < |rest| && KeyOf(rest[k]) == key && IsCovered(rest[k].items, id);
      assert all[k + 1] == rest[k];
    }
    if KeyOf(r) == key && IsCovered(r.items, id) {
      assert all[0] == r;
    }
  }

  lemma {:induction false} InsertRecord(t: Table, r: Record, ids: set<nat>)
    requires ValidTable(t) && IsGood(r) && forall id: nat :: id in ids <==> IsCovered(r.items, id)
    ensures ValidTable(Insert(t, KeyOf(r), ids))
    ensures forall key: Restriction, id: nat ::
              id in Get(Insert(t, KeyOf(r), ids), key)
              <==> id in Get(t, key) || (key == KeyOf(r) && IsCovered(r.items, id))
  {
    if ids != {} {
      var id :| id in ids;
      assert r.items != [];
      InsertIsUnion(t, KeyOf(r), ids);
    }
  }

  /** What is read stands there. */
  lemma {:induction false} ReadRecords(bits: Bits, pos: nat, n: nat, t: Table) returns (rs: seq<Record>)
    requires ValidTable(t) && Codec.Rows(Codec.RowReader(bits), pos, n, t).Ok?
    ensures |rs| == n && AreRecords(bits, pos, rs)
    ensures var decoded := Codec.Rows(Codec.RowReader(bits), pos, n, t).value;
            ValidTable(decoded.table) && Gathers(decoded.table, t, rs) && decoded.pos == EndOfAll(pos, rs)
    decreases n
  {
    if n == 0 {
      rs := [];
    } else {
      var row := Codec.DecodeRow(bits, pos).value;
      var r := RowDecodeIff(bits, pos);
      InsertRecord(t, r, row.ids);
      var rest := ReadRecords(bits, row.pos, n - 1, Insert(t, row.key, row.ids));
      rs := [r] + rest;
      assert rs[1..] == rest;
      var table := Codec.Rows(Codec.RowReader(bits), pos, n, t).value.table;
      forall key: Restriction, id: nat
        ensures id in Get(table, key) <==> id in Get(t, key) || IsRestricted(rs, key, id)
      {
        RestrictedMore(r, rest, key, id);
      }
    }
  }

  /** What stands there is read. */
  lemma {:induction false} StandingRecords(bits: Bits, pos: nat, rs: seq<Record>, t: Table)
    requires AreRecords(bits, pos, rs)
    ensures Codec.Rows(Codec.RowReader(bits), pos, |rs|, t).Ok?
    decreases |rs|
  {
    if rs != [] {
      var r := RowDecodeIff(bits, pos);
      var row := Codec.DecodeRow(bits, pos).value;
      OneRecord(bits, pos, r, rs[0]);
      StandingRecords(bits, row.pos, rs[1..], Insert(t, row.key, row.ids));
    }
  }

  /** Only one record can stand at a place. */
  lemma {:induction false} OneRecord(bits: Bits, pos: nat, a: Record, b: Record)
    requires IsRecord(bits, pos, a) && IsRecord(bits, pos, b)
    ensures a == b
  {
    SameItems(bits, pos + 20, a.items, b.items);
  }

  lemma {:induction false} SameItems(bits: Bits, pos: nat, a: seq<Item>, b: seq<Item>)
    requires AreItems(bits, pos, a) && AreItems(bits, pos, b) && |a| == |b|
    ensures a == b
    decreases |a|
  {
    if a != [] {
      ItemAtIs(bits, pos, a[0]);
      ItemAtIs(bits, pos, b[0]);
      SameItems(bits, pos + Width(a[0]), a[1..], b[1..]);
      assert a == [a[0]] + a[1..] && b == [b[0]] + b[1..];
    }
  }

  ghost predicate HasRecords(bits: Bits, rs: seq<Record>) {
    Holds(bits, 0, 12, |rs|) && AreRecords(bits, 12, rs)
  }

  /** A restrictions section decodes exactly when its records are all there and
      good; the table then holds what they restrict. */
  lemma {:induction false} RestrictionsDecodeIff(bits: Bits) returns (rs: seq<Record>)
    ensures Codec.DecodeRestrictions(bits).Ok? <==> exists some :: HasRecords(bits, some)
    ensures Codec.DecodeRestrictions(bits).Ok? ==>
              var decoded := Codec.DecodeRestrictions(bits).value;
              && HasRecords(bits, rs) && ValidTable(decoded.table) && decoded.pos == EndOfAll(12, rs)
              && forall key: Restriction, id: nat :: id in Get(decoded.table, key) <==> IsRestricted(rs, key, id)
  {
    rs := [];
    if |bits| >= 12 {
      NumberIs(bits, 0, 12);
    }
    if Codec.DecodeRestrictions(bits).Ok? {
      rs := ReadRecords(bits, 12, NumberAt(bits, 0, 12), EMPTY);
      assert HasRecords(bits, rs);
    }
    if some :| HasRecords(bits, some) {
      StandingRecords(bits, 12, some, EMPTY);
    }
  }

  // ---------- base64url ----------

  predicate IsAlphabet(s: string) {
    forall k | 0 <= k < |s| :: IsAlphabetic(s[k])
  }

  /** A letter, a digit, the hyphen or the low line, by their codes. */
  predicate IsAlphabetic(c: char) {
    65 <= c as int <= 90 || 97 <= c as int <= 122 || 48 <= c as int <= 57 || c as int == 45 || c as int == 95
  }

  /** Every letter stands for the six bits at its place. */
  ghost predicate SpelledAt(s: string, bits: Bits, k: nat)
    requires k < |s|
  {
    exists n: nat :: n < 64 && IsLetterOf(s[k], n) && Holds(bits, 6 * k, 6, n)
  }

  lemma {:induction false} LetterIndex(c: char)
    ensures TcfBase64.SixBits(c).Ok? <==> IsAlphabetic(c)
    ensures TcfBase64.SixBits(c).Ok? ==>
              var n := TcfBase64.IndexOf(c).value;
              IsLetterOf(c, n) && TcfBase64.SixBits(c) == EncodeInt(n, 6) && |EncodeInt(n, 6).value| == 6
  {
    if TcfBase64.IndexOf(c).Some? {
      assert Pow2(6) == 64;
      IntRoundTrip(TcfBase64.IndexOf(c).value, 6);
    }
  }

  lemma {:induction false} HoldsStays(bits: Bits, more: Bits, pos: nat, width: nat, n: int)
    requires Holds(bits, pos, width, n)
    ensures Holds(bits + more, pos, width, n)
  {
    NumberStays(bits, more, pos, width);
  }

  lemma {:induction false} NumberStays(bits: Bits, more: Bits, pos: nat, width: nat)
    requires pos + width <= |bits|
    ensures NumberAt(bits + more, pos, width) == NumberAt(bits, pos, width)
  {
    if width > 0 {
      NumberStays(bits, more, pos, width - 1);
    }
  }

  lemma {:induction false} HoldsBehind(before: Bits, n: nat)
    requires EncodeInt(n, 6).Ok?
    ensures Holds(before + EncodeInt(n, 6).value, |before|, 6, n)
  {
    var bits, chunk := before + EncodeInt(n, 6).value, EncodeInt(n, 6).value;
    assert forall i | 0 <= i < |chunk| :: chunk[i] == bits[|before| + i];
    IntHolds(bits, |before|, n, 6);
  }

  lemma {:induction false} LettersDecode(s: string, n: nat)
    requires n <= |s|
    ensures TcfBase64.BitsOf(s, n).Ok? <==> forall k | 0 <= k < n :: IsAlphabetic(s[k])
    ensures TcfBase64.BitsOf(s, n).Ok? ==>
              var bits := TcfBase64.BitsOf(s, n).value;
              |bits| == 6 * n && forall k | 0 <= k < n :: SpelledAt(s, bits, k)
  {
    if n > 0 {
      LettersDecode(s, n - 1);
      LetterIndex(s[n - 1]);
      if TcfBase64.BitsOf(s, n).Ok? {
        var before, i := TcfBase64.BitsOf(s, n - 1).value, TcfBase64.IndexOf(s[n - 1]).value;
        OneMoreLetter(s, before, n - 1, i);
      }
    }
  }

  lemma {:induction false} OneMoreLetter(s: string, before: Bits, n: nat, i: nat)
    requires n < |s| && |before| == 6 * n && forall k | 0 <= k < n :: SpelledAt(s, before, k)
    requires i < 64 && IsLetterOf(s[n], i) && EncodeInt(i, 6).Ok?
    ensures forall k | 0 <= k < n + 1 :: SpelledAt(s, before + EncodeInt(i, 6).value, k)
  {
    var more := EncodeInt(i, 6).value;
    forall k | 0 <= k < n + 1 ensures SpelledAt(s, before + more, k) {
      if k < n {
        assert SpelledAt(s, before, k);
        var j: nat :| j < 64 && IsLetterOf(s[k], j) && Holds(before, 6 * k, 6, j);
        HoldsStays(before, more, 6 * k, 6, j);
      } else {
        HoldsBehind(before, i);
      }
    }
  }

  /** A string decodes exactly when it is of the alphabet and not empty, each letter
      to its six bits. */
  lemma {:induction false} LettersDecodeIff(s: string)
    ensures TcfBase64.Decode(s).Ok? <==> s != "" && IsAlphabet(s)
    ensures TcfBase64.Decode(s).Ok? ==>
              var bits := TcfBase64.Decode(s).value;
              |bits| == 6 * |s| && forall k | 0 <= k < |s| :: SpelledAt(s, bits, k)
  {
    LettersDecode(s, |s|);
  }
}
