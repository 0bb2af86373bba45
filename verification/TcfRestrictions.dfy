/** Publisher restrictions: which vendors a publisher forbids a purpose, or binds
    to consent or to legitimate interest. The encoder merges neighbouring vendors
    into ranges across every id the vendor list does not have. */
module TcfRestrictions {
  import opened Wrappers
  import opened TcfBits
  import opened TcfVendors

  const NUM_RESTRICTIONS_BITS := 12
  const PURPOSE_ID_BITS := 6
  const RESTRICTION_TYPE_BITS := 2

  const NOT_ALLOWED := 0
  const REQUIRE_CONSENT := 1
  const REQUIRE_LI := 2

  datatype Restriction = Restriction(purposeId: nat, restrictionType: nat)

  /** Other restrictions have no hash: the bundle throws when asked for it. */
  predicate IsValid(r: Restriction) {
    r.purposeId > 0 && r.restrictionType <= REQUIRE_LI
  }

  datatype Vendor = Vendor(purposes: set<nat>, legIntPurposes: set<nat>, flexiblePurposes: set<nat>)

  /** `vendors` leaves out the deleted vendors that `vendorIds` still lists. */
  datatype VendorList = VendorList(vendorIds: set<nat>, vendors: map<nat, Vendor>)

  predicate IsList(gvl: VendorList) {
    gvl.vendors.Keys <= gvl.vendorIds && 0 !in gvl.vendorIds
  }

  /** Whether the vendor list lets vendor `id` be restricted this way. */
  predicate IsOkToHave(gvl: Option<VendorList>, r: Restriction, id: nat) {
    gvl.Some? ==>
      && id in gvl.value.vendors
      && var vendor := gvl.value.vendors[id];
         if r.restrictionType == NOT_ALLOWED then
           r.purposeId in vendor.legIntPurposes || r.purposeId in vendor.purposes
         else
           && vendor.flexiblePurposes != {}
           && (r.restrictionType == REQUIRE_CONSENT ==>
                 r.purposeId in vendor.flexiblePurposes && r.purposeId in vendor.legIntPurposes)
           && (r.restrictionType == REQUIRE_LI ==>
                 r.purposeId in vendor.flexiblePurposes && r.purposeId in vendor.purposes)
  }

  /** A purpose can be ruled out for a vendor that declares it at all; consent can be
      required where it declares legitimate interest, and that where it declares
      consent, if it has said that the purpose is flexible. */
  lemma {:induction false} OkToHaveIff(gvl: VendorList, r: Restriction, id: nat)
    requires r.restrictionType < 3
    ensures IsOkToHave(Some(gvl), r, id)
            <==> id in gvl.vendors
                 && var v, p := gvl.vendors[id], r.purposeId;
                    if r.restrictionType == 0 then p in v.purposes + v.legIntPurposes
                    else p in v.flexiblePurposes && p in if r.restrictionType == 1 then v.legIntPurposes else v.purposes
  {
  }

  // ---------- the table of restrictions ----------

  /** An insertion-ordered map from restrictions to vendor sets. */
  datatype Table = Table(order: seq<Restriction>, vendors: map<Restriction, set<nat>>)

  const EMPTY := Table([], map[])

  ghost predicate ValidTable(t: Table) {
    && (forall i, j | 0 <= i < j < |t.order| :: t.order[i] != t.order[j])
    && (forall r :: r in t.order <==> r in t.vendors)
    && (forall r | r in t.vendors :: IsValid(r))
  }

  function Get(t: Table, r: Restriction): set<nat> {
    if r in t.vendors then t.vendors[r] else {}
  }

  /** A restriction enters the table with its first vendor. */
  function Insert(t: Table, r: Restriction, ids: set<nat>): Table {
    if ids == {} then t
    else Table(if r in t.vendors then t.order else t.order + [r], t.vendors[r := Get(t, r) + ids])
  }

  lemma {:induction false} InsertIsUnion(t: Table, r: Restriction, ids: set<nat>)
    requires ValidTable(t) && IsValid(r)
    ensures ValidTable(Insert(t, r, ids))
    ensures forall q :: Get(Insert(t, r, ids), q) == if q == r then Get(t, r) + ids else Get(t, q)
  {
    assert forall q :: q in t.order + [r] <==> q in t.order || q == r;
  }

  /** Keep the vendors the list allows; a restriction may be left with none. */
  function Filtered(t: Table, gvl: VendorList): Table {
    Table(t.order, map r | r in t.vendors :: set id | id in t.vendors[r] && IsOkToHave(Some(gvl), r, id))
  }

  ghost predicate AllOk(t: Table, gvl: Option<VendorList>) {
    forall r, id | id in Get(t, r) :: IsOkToHave(gvl, r, id)
  }

  /** `vs` holds the ids of `ids` in ascending order. */
  ghost predicate IsAscending(vs: seq<nat>, ids: set<nat>) {
    && (forall i, j | 0 <= i < j < |vs| :: vs[i] < vs[j])
    && (forall id :: id in vs <==> id in ids)
  }

  /** The ids below `n`, in ascending order. */
  function Ascending(ids: set<nat>, n: nat): seq<nat> {
    if n == 0 then [] else Ascending(ids, n - 1) + if n - 1 in ids then [n - 1] else []
  }

  lemma {:induction false} AscendingBelow(ids: set<nat>, n: nat)
    ensures IsAscending(Ascending(ids, n), set id | id in ids && id < n)
  {
    if n > 0 {
      AscendingBelow(ids, n - 1);
      var before := Ascending(ids, n - 1);
      assert forall i | 0 <= i < |before| :: before[i] in before;
      if n - 1 in ids {
        assert (before + [n - 1])[|before|] == n - 1;
        assert forall id :: id in before + [n - 1] <==> id in before || id == n - 1;
      }
    }
  }

  lemma {:induction false} NoneLeft(vs: seq<nat>, ids: set<nat>)
    requires IsAscending(vs, ids)
    ensures vs == [] <==> ids == {}
  {
    if vs != [] {
      assert vs[0] in ids;
    }
  }

  lemma {:induction false} AscendingUnique(a: seq<nat>, b: seq<nat>, ids: set<nat>)
    requires IsAscending(a, ids) && IsAscending(b, ids)
    ensures a == b
    decreases |a|
  {
    NoneLeft(a, ids);
    NoneLeft(b, ids);
    if a != [] {
      assert a[0] in ids;
      assert b[0] in ids;
      assert a[0] == b[0];
      var rest := ids - {a[0]};
      forall id ensures id in a[1..] <==> id in rest {}
      forall id ensures id in b[1..] <==> id in rest {}
      AscendingUnique(a[1..], b[1..], rest);
      assert a == [a[0]] + a[1..] && b == [b[0]] + b[1..];
    }
  }

  lemma {:induction false} Bounded(ids: set<nat>) returns (n: nat)
    ensures forall id | id in ids :: id < n
  {
    if ids == {} {
      n := 0;
    } else {
      var id :| id in ids;
      var m := Bounded(ids - {id});
      n := if id < m then m else id + 1;
      assert forall other | other in ids :: other == id || other in ids - {id};
    }
  }

  lemma {:induction false} AscendingExists(ids: set<nat>)
    ensures exists vs :: IsAscending(vs, ids)
  {
    var n := Bounded(ids);
    AscendingBelow(ids, n);
    assert (set id | id in ids && id < n) == ids;
    assert IsAscending(Ascending(ids, n), ids);
  }

  ghost function Sorted(ids: set<nat>): (vs: seq<nat>)
    ensures IsAscending(vs, ids)
  {
    AscendingExists(ids);
    var vs :| IsAscending(vs, ids);
    vs
  }

  /** Adding to a restriction step by step is adding all at once. */
  lemma {:induction false} InsertTwice(t: Table, r: Restriction, a: set<nat>, b: set<nat>)
    ensures Insert(Insert(t, r, a), r, b) == Insert(t, r, a + b)
  {
    if a != {} && b != {} {
      assert Get(t, r) + a + b == Get(t, r) + (a + b);
    } else {
      assert a + b == if b == {} then a else b;
    }
  }

  class PurposeRestrictionVector {
    var table: Table
    var gvl: Option<VendorList>
    var bitLength: nat

    ghost predicate Valid()
      reads this
    {
      ValidTable(table)
    }

    constructor ()
      ensures Valid() && table == EMPTY && gvl == None && bitLength == 0
    {
      table, gvl, bitLength := EMPTY, None, 0;
    }

    /** Vendors the list rejects are passed over; otherwise the restriction must
        be valid. */
    method Add(id: nat, r: Restriction) returns (ok: bool)
      requires Valid()
      modifies this`table, this`bitLength
      ensures Valid()
      ensures ok <==> IsOkToHave(gvl, r, id) ==> IsValid(r)
      ensures table == if IsOkToHave(gvl, r, id) && IsValid(r) then Insert(old(table), r, {id}) else old(table)
      ensures bitLength == (if table.order == old(table.order) then old(bitLength) else 0)
      ensures old(AllOk(table, gvl)) ==> AllOk(table, gvl)
    {
      ok := true;
      if IsOkToHave(gvl, r, id) {
        ok := IsValid(r);
        if ok {
          InsertIsUnion(table, r, {id});
          if r !in table.vendors {
            table := Table(table.order + [r], table.vendors[r := {}]);
            bitLength := 0;
          }
          table := table.(vendors := table.vendors[r := table.vendors[r] + {id}]);
        }
      }
    }

    /** The last vendor takes its restriction along. A restriction that is not valid
        has no hash to look it up by. */
    method Remove(id: nat, r: Restriction) returns (ok: bool)
      requires Valid()
      modifies this`table, this`bitLength
      ensures Valid() && ok == IsValid(r)
      ensures !ok ==> table == old(table) && bitLength == old(bitLength)
      ensures ok ==> forall q :: Get(table, q) == if q == r then old(Get(table, r)) - {id} else old(Get(table, q))
      ensures bitLength == (if table.order == old(table.order) then old(bitLength) else 0)
      ensures ok && r in table.vendors ==> table.order == old(table.order) && table.vendors[r] != {}
      ensures old(AllOk(table, gvl)) ==> AllOk(table, gvl)
    {
      ok := IsValid(r);
      if ok && r in table.vendors {
        var left := table.vendors[r] - {id};
        if left == {} {
          var order := Without(table.order, r);
          table := Table(order, table.vendors - {r});
          bitLength := 0;
        } else {
          table := table.(vendors := table.vendors[r := left]);
        }
      }
    }

    /** The vendors of a restriction, sorted. */
    method GetVendors(r: Restriction) returns (vs: seq<nat>)
      ensures vs == Sorted(Get(table, r))
    {
      var ids, last: nat := Get(table, r), 0;
      var rest := ids;
      while rest != {}
        invariant rest <= ids && forall id | id in ids && id !in rest :: id <= last
      {
        var id :| id in rest;
        last := if id > last then id else last;
        rest := rest - {id};
      }
      vs := [];
      for id := 0 to last + 1
        invariant vs == Ascending(ids, id)
      {
        vs := vs + if id in ids then [id] else [];
      }
      AscendingBelow(ids, last + 1);
      assert (set id | id in ids && id < last + 1) == ids;
      AscendingUnique(vs, Sorted(ids), ids);
    }

    /** Only the first vendor list counts; it filters what is there. */
    method SetGvl(list: VendorList)
      requires Valid()
      modifies this`table, this`gvl
      ensures Valid() && gvl == (if old(gvl).None? then Some(list) else old(gvl))
      ensures table == if old(gvl).None? then Filtered(old(table), list) else old(table)
      ensures old(gvl).None? ==> AllOk(table, gvl)
    {
      if gvl.None? {
        gvl := Some(list);
        var vendors := table.vendors;
        for i := 0 to |table.order|
          invariant vendors.Keys == table.vendors.Keys
          invariant table == old(table) && gvl == Some(list)
          invariant forall j | 0 <= j < i :: vendors[table.order[j]] == Filtered(table, list).vendors[table.order[j]]
          invariant forall j | i <= j < |table.order| :: vendors[table.order[j]] == table.vendors[table.order[j]]
        {
          var r := table.order[i];
          vendors := vendors[r := set id | id in vendors[r] && IsOkToHave(gvl, r, id)];
        }
        assert vendors == Filtered(table, list).vendors;
        table := table.(vendors := vendors);
      }
    }
  }

  method Without(order: seq<Restriction>, r: Restriction) returns (rest: seq<Restriction>)
    requires forall i, j | 0 <= i < j < |order| :: order[i] != order[j]
    ensures forall i, j | 0 <= i < j < |rest| :: rest[i] != rest[j]
    ensures forall q :: q in rest <==> q in order && q != r
  {
    rest := [];
    for i := 0 to |order|
      invariant forall a, b | 0 <= a < b < |rest| :: rest[a] != rest[b]
      invariant forall q :: q in rest <==> q in order[..i] && q != r
    {
      assert order[i] !in order[..i];
      if order[i] != r {
        rest := rest + [order[i]];
      }
    }
  }
}
