/** The id vector of a consent model, with its greatest id kept up to date, and its
    encoding as a plain bit field that drops what is beyond its width. */
module TcfVector {
  import opened Wrappers
  import opened TcfBits

  /** The greatest id, or 0 for no ids. */
  ghost predicate IsMaxId(ids: set<nat>, m: nat) {
    && (forall x | x in ids :: x <= m)
    && (ids != {} ==> m in ids)
    && (ids == {} ==> m == 0)
  }

  class Vector {
    var ids: set<nat>
    var maxId: nat
    var bitLength: nat

    /** Ids are positive, and `maxId` is the greatest of them. */
    ghost predicate Valid()
      reads this
    {
      0 !in ids && IsMaxId(ids, maxId)
    }

    constructor ()
      ensures Valid() && ids == {} && bitLength == 0
    {
      ids, maxId, bitLength := {}, 0, 0;
    }

    method Has(id: nat) returns (b: bool)
      ensures b <==> id in ids
    {
      b := id in ids;
    }

    /** Refuses what is not a positive number. */
    method Set(id: int) returns (ok: bool)
      requires Valid()
      modifies this
      ensures Valid() && ok == (id > 0)
      ensures ids == (if id > 0 then old(ids) + {id as nat} else old(ids))
      ensures id <= 0 ==> bitLength == old(bitLength) && maxId == old(maxId)
      ensures id > 0 ==> bitLength == 0 && maxId >= old(maxId) && maxId >= id
    {
      ok := id > 0;
      if ok {
        ids := ids + {id};
        maxId := if id > maxId then id else maxId;
        bitLength := 0;
      }
    }

    /** Taking out the greatest id means looking for the next one. */
    method Unset(id: nat)
      requires Valid()
      modifies this
      ensures Valid() && ids == old(ids) - {id} && bitLength == 0
    {
      ids := ids - {id};
      bitLength := 0;
      if id == maxId {
        maxId := 0;
        var rest := ids;
        while rest != {}
          invariant rest <= ids && ids == old(ids) - {id} && bitLength == 0
          invariant IsMaxId(ids - rest, maxId)
        {
          var x :| x in rest;
          var seen := ids - rest;
          maxId := if x > maxId then x else maxId;
          rest := rest - {x};
          assert ids - rest == seen + {x};
        }
        assert ids - rest == ids;
      }
    }

    /** The bundle's `empty` leaves `bitLength` alone. */
    method Empty()
      modifies this
      ensures Valid() && ids == {} && bitLength == old(bitLength)
    {
      ids, maxId := {}, 0;
    }
  }

  // ---------- bit fields ----------

  /** One bit for each id from 1 to `width`. */
  function FieldBits(ids: set<nat>, width: nat): (r: Bits)
    ensures |r| == width
  {
    seq(width, i requires 0 <= i < width => i + 1 in ids)
  }

  function FieldIds(bits: Bits): set<nat> {
    set i | 0 <= i < |bits| && bits[i] :: i + 1
  }

  function DecodeField(bits: Bits, width: nat): Coded<set<nat>> {
    if |bits| != width then Err(DecodingError) else Ok(FieldIds(bits))
  }

  /** Ids beyond the width are dropped, and no other. */
  lemma {:induction false} FieldRoundTrip(ids: set<nat>, width: nat)
    requires 0 !in ids
    ensures FieldIds(FieldBits(ids, width)) == set x | x in ids && x <= width
  {
    var bits := FieldBits(ids, width);
    forall x | x in ids && x <= width ensures x in FieldIds(bits) {
      assert bits[x - 1];
    }
  }

  lemma {:induction false} FieldKeepsMax(ids: set<nat>, m: nat)
    requires 0 !in ids && IsMaxId(ids, m)
    ensures FieldIds(FieldBits(ids, m)) == ids
  {
    FieldRoundTrip(ids, m);
  }

  method EncodeField(v: Vector, width: nat) returns (bits: Bits)
    ensures bits == FieldBits(v.ids, width)
  {
    bits := [];
    for i := 1 to width + 1
      invariant |bits| == i - 1
      invariant forall j | 0 <= j < |bits| :: bits[j] == (j + 1 in v.ids)
    {
      var b := v.Has(i);
      bits := bits + EncodeFlag(b);
    }
  }

  method DecodeFieldLoop(bits: Bits, width: nat) returns (r: Coded<Vector>)
    ensures r.Err? <==> DecodeField(bits, width).Err?
    ensures r.Err? ==> r == Err(DecodingError)
    ensures r.Ok? ==> fresh(r.value) && r.value.Valid() && r.value.bitLength == width
                      && DecodeField(bits, width) == Ok(r.value.ids)
  {
    if |bits| != width {
      return Err(DecodingError);
    }
    var v := new Vector();
    for i := 1 to width + 1
      invariant v.Valid() && fresh(v)
      invariant v.ids == FieldIds(bits[..i - 1])
    {
      assert bits[..i] == bits[..i - 1] + [bits[i - 1]];
      assert FieldIds(bits[..i]) == FieldIds(bits[..i - 1]) + if bits[i - 1] then {i as nat} else {};
      if DecodeFlag([bits[i - 1]]) {
        var ok := v.Set(i);
      }
    }
    assert bits[..width] == bits;
    v.bitLength := |bits|;
    return Ok(v);
  }
}
