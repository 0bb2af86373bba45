/** Exactly which search candidates are selected, by their ranks alone. */
module SearchRules {
  import opened SearchQuota

  /** Whether the channel reserves capacity for the candidate of this rank, from 0
      on, in the channel. */
  predicate HasSlot(channel: Channel, rank: nat, limit: int) {
    match channel
    case SemanticQuery => rank < 2 || 3 * rank + 3 <= limit
    case ErrorPattern => rank < 1 || 10 * rank + 10 <= limit
    case TitleKeywords => rank < 1 || 6 * rank + 6 <= limit
    case PopularArea => rank < 1 || 5 * rank + 5 <= limit
    case AreaLabel => rank < 1 || 6 * rank + 6 <= limit
  }

  /** One of its channels found few enough candidates before it. */
  ghost predicate IsReservedAt(cs: seq<Candidate>, limit: int, i: nat)
    requires i < |cs|
  {
    exists channel | channel in cs[i].searches :: HasSlot(channel, Found(cs, channel, i), limit)
  }

  ghost function ReservedKeys(cs: seq<Candidate>, limit: int): set<string> {
    set i | 0 <= i < |cs| && IsReservedAt(cs, limit, i) :: cs[i].key
  }

  lemma {:induction false} SlotIff(channel: Channel, rank: nat, limit: int)
    ensures HasSlot(channel, rank, limit) <==> rank < Quota(channel, limit)
  {
  }

  // ---------- the best of a channel ----------

  lemma {:induction false} BestCounts(cs: seq<Candidate>, channel: Channel, quota: nat, n: nat)
    requires n <= |cs|
    ensures |Best(cs, channel, quota, n)| == Min(Found(cs, channel, n), quota)
  {
    if n > 0 {
      BestCounts(cs, channel, quota, n - 1);
    }
  }

  lemma {:induction false} BestIs(cs: seq<Candidate>, channel: Channel, quota: nat, n: nat, c: Candidate)
    requires n <= |cs| && c in Best(cs, channel, quota, n)
    ensures exists i :: 0 <= i < n && cs[i] == c && channel in c.searches && Found(cs, channel, i) < quota
  {
    BestCounts(cs, channel, quota, n - 1);
    if c in Best(cs, channel, quota, n - 1) {
      BestIs(cs, channel, quota, n - 1, c);
    } else {
      assert cs[n - 1] == c;
    }
  }

  // ---------- the first pass ----------

  lemma {:induction false} ReservedByChannel(cs: seq<Candidate>, limit: int, k: nat, c: Candidate)
    requires k <= |CHANNELS| && c in Reserve(cs, limit, k)
    ensures exists channel :: c in Best(cs, channel, Quota(channel, limit), |cs|)
  {
    ReserveGrows(cs, limit, k - 1);
    var before, channel := Reserve(cs, limit, k - 1), CHANNELS[k - 1];
    var best := Best(cs, channel, Quota(channel, limit), |cs|);
    AddAllAppends(before, best, |best|, limit);
    if c in before {
      ReservedByChannel(cs, limit, k - 1, c);
    }
  }

  lemma {:induction false} ReserveKeeps(cs: seq<Candidate>, limit: int, k: nat, n: nat)
    requires k <= n <= |CHANNELS|
    ensures Keys(Reserve(cs, limit, k)) <= Keys(Reserve(cs, limit, n))
  {
    if k < n {
      ReserveKeeps(cs, limit, k, n - 1);
      ReserveGrows(cs, limit, n - 1);
      var best := Best(cs, CHANNELS[n - 1], Quota(CHANNELS[n - 1], limit), |cs|);
      AddAllAppends(Reserve(cs, limit, n - 1), best, |best|, limit);
    }
  }

  /** From a limit of 6 on, the first pass takes exactly the reserved keys. */
  lemma {:induction false} ReserveIs(cs: seq<Candidate>, limit: int)
    requires limit >= 6
    ensures Keys(Reserve(cs, limit, 5)) == ReservedKeys(cs, limit)
  {
    forall key | key in ReservedKeys(cs, limit) ensures key in Keys(Reserve(cs, limit, 5)) {
      var i :| 0 <= i < |cs| && IsReservedAt(cs, limit, i) && cs[i].key == key;
      var channel :| channel in cs[i].searches && HasSlot(channel, Found(cs, channel, i), limit);
      SlotIff(channel, Found(cs, channel, i), limit);
      BestTakes(cs, channel, Quota(channel, limit), i);
      ChannelServed(cs, limit, IndexOf(channel), cs[i]);
      ReserveKeeps(cs, limit, IndexOf(channel) + 1, 5);
    }
    forall key | key in Keys(Reserve(cs, limit, 5)) ensures key in ReservedKeys(cs, limit) {
      var c :| c in Reserve(cs, limit, 5) && c.key == key;
      ReservedByChannel(cs, limit, 5, c);
      var channel :| c in Best(cs, channel, Quota(channel, limit), |cs|);
      BestIs(cs, channel, Quota(channel, limit), |cs|, c);
      var i :| 0 <= i < |cs| && cs[i] == c && channel in c.searches && Found(cs, channel, i) < Quota(channel, limit);
      SlotIff(channel, Found(cs, channel, i), limit);
      assert IsReservedAt(cs, limit, i);
    }
  }

  // ---------- the second pass ----------

  /** The pass is full exactly when it has met that many keys. */
  lemma {:induction false} FullIff(selected: seq<Candidate>, cs: seq<Candidate>, n: nat, limit: int)
    requires n <= |cs| && DistinctKeys(selected)
    ensures |AddAll(selected, cs, n, limit)| < limit <==> |Keys(selected) + Keys(cs[..n])| < limit
    ensures |AddAll(selected, cs, n, limit)| < limit ==>
              Keys(AddAll(selected, cs, n, limit)) == Keys(selected) + Keys(cs[..n])
  {
    var more, met := AddAll(selected, cs, n, limit), Keys(selected) + Keys(cs[..n]);
    AddAllAppends(selected, cs, n, limit);
    AddAllFromPrefix(selected, cs, n, limit);
    CountKeys(more);
    assert Keys(more) <= met;
    if |more| < limit {
      forall key | key in met ensures key in Keys(more) {
        if key in Keys(cs[..n]) {
          var i :| 0 <= i < n && cs[i].key == key;
          MetIsSelected(selected, cs, n, limit, i);
        }
      }
      assert Keys(more) == met;
    } else {
      KeysFit(Keys(more), met);
    }
  }

  lemma {:induction false} AddAllFromPrefix(selected: seq<Candidate>, cs: seq<Candidate>, n: nat, limit: int)
    requires n <= |cs|
    ensures forall c | c in AddAll(selected, cs, n, limit) :: c in selected || c in cs[..n]
  {
    if n > 0 {
      AddAllFromPrefix(selected, cs, n - 1, limit);
      assert cs[..n] == cs[..n - 1] + [cs[n - 1]];
    }
  }

  /** The i-th candidate has this key, and the keys before it leave room. */
  ghost predicate HasRoomAt(taken: set<string>, cs: seq<Candidate>, limit: int, key: string, i: nat)
    requires i < |cs|
  {
    cs[i].key == key && |taken + Keys(cs[..i])| < limit
  }

  ghost predicate HasRoom(taken: set<string>, cs: seq<Candidate>, limit: int, key: string, n: nat)
    requires n <= |cs|
  {
    exists i {:trigger HasRoomAt(taken, cs, limit, key, i)} :: 0 <= i < n && HasRoomAt(taken, cs, limit, key, i)
  }

  lemma {:induction false} RoomStep(taken: set<string>, cs: seq<Candidate>, limit: int, key: string, n: nat)
    requires 0 < n <= |cs|
    ensures HasRoom(taken, cs, limit, key, n)
            <==> HasRoom(taken, cs, limit, key, n - 1) || HasRoomAt(taken, cs, limit, key, n - 1)
  {
  }

  lemma {:induction false} AddedIff(selected: seq<Candidate>, cs: seq<Candidate>, n: nat, limit: int, key: string)
    requires n <= |cs| && DistinctKeys(selected)
    ensures key in Keys(AddAll(selected, cs, n, limit))
            <==> key in Keys(selected) || HasRoom(Keys(selected), cs, limit, key, n)
  {
    if n > 0 {
      AddedIff(selected, cs, n - 1, limit, key);
      FullIff(selected, cs, n - 1, limit);
      RoomStep(Keys(selected), cs, limit, key, n);
      AddedKey(AddAll(selected, cs, n - 1, limit), cs[n - 1], limit, key);
    }
  }

  lemma {:induction false} AddedKey(selected: seq<Candidate>, c: Candidate, limit: int, key: string)
    ensures key in Keys(Add(selected, c, limit))
            <==> key in Keys(selected) || (c.key == key && |selected| < limit)
  {
    if c.key !in Keys(selected) && |selected| < limit {
      assert forall d :: d in selected + [c] <==> d in selected || d == c;
      assert c in selected + [c];
    }
  }

  /** A candidate is selected exactly when it is reserved, or when the reserved and
      the ones ranked before it leave room. */
  lemma {:induction false} SelectedIff(cs: seq<Candidate>, limit: int, key: string)
    requires limit >= 6
    ensures key in Keys(Select(cs, limit))
            <==> exists i :: 0 <= i < |cs| && cs[i].key == key
                             && (IsReservedAt(cs, limit, i) || |ReservedKeys(cs, limit) + Keys(cs[..i])| < limit)
  {
    ReserveIs(cs, limit);
    ReserveGrows(cs, limit, 5);
    AddedIff(Reserve(cs, limit, 5), cs, |cs|, limit, key);
    assert forall i | 0 <= i < |cs| && IsReservedAt(cs, limit, i) :: cs[i].key in ReservedKeys(cs, limit);
    assert forall i | 0 <= i < |cs| ::
        HasRoomAt(ReservedKeys(cs, limit), cs, limit, key, i)
        <==> cs[i].key == key && |ReservedKeys(cs, limit) + Keys(cs[..i])| < limit;
  }
}
