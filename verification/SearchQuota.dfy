/** Selecting search candidates under a limit, with capacity reserved for each
    retrieval channel. The first pass takes the first candidates of every channel
    up to its quota, and a second pass fills what is left in the order of the
    ranking. */
module SearchQuota {

  datatype Channel = SemanticQuery | ErrorPattern | TitleKeywords | PopularArea | AreaLabel

  datatype Candidate = Candidate(key: string, searches: set<Channel>)

  const CHANNELS := [SemanticQuery, ErrorPattern, TitleKeywords, PopularArea, AreaLabel]

  function Max(a: int, b: int): int {
    if a > b then a else b
  }

  function Min(a: int, b: int): int {
    if a < b then a else b
  }

  function Quota(c: Channel, limit: int): (q: nat)
    ensures q >= 1
  {
    match c
    case SemanticQuery => Max(2, limit / 3)
    case ErrorPattern => Max(1, limit / 10)
    case TitleKeywords => Max(1, limit / 6)
    case PopularArea => Max(1, limit / 5)
    case AreaLabel => Max(1, limit / 6)
  }

  /** The quotas of the channels from the k-th on. */
  function Reserved(k: nat, limit: int): nat
    requires k <= |CHANNELS|
    decreases |CHANNELS| - k
  {
    if k == |CHANNELS| then 0 else Quota(CHANNELS[k], limit) + Reserved(k + 1, limit)
  }

  function Keys(cs: seq<Candidate>): set<string> {
    set c | c in cs :: c.key
  }

  /** The first `quota` candidates of the channel among the first `n`. */
  function Best(cs: seq<Candidate>, channel: Channel, quota: nat, n: nat): (r: seq<Candidate>)
    requires n <= |cs|
    ensures |r| <= quota && forall c | c in r :: c in cs && channel in c.searches
  {
    if n == 0 then []
    else
      var before := Best(cs, channel, quota, n - 1);
      if channel in cs[n - 1].searches && |before| < quota then before + [cs[n - 1]] else before
  }

  function Add(selected: seq<Candidate>, c: Candidate, limit: int): seq<Candidate> {
    if c.key !in Keys(selected) && |selected| < limit then selected + [c] else selected
  }

  function AddAll(selected: seq<Candidate>, cs: seq<Candidate>, n: nat, limit: int): seq<Candidate>
    requires n <= |cs|
  {
    if n == 0 then selected else Add(AddAll(selected, cs, n - 1, limit), cs[n - 1], limit)
  }

  /** After the first `k` channels. */
  function Reserve(cs: seq<Candidate>, limit: int, k: nat): seq<Candidate>
    requires k <= |CHANNELS|
  {
    if k == 0 then []
    else
      var best := Best(cs, CHANNELS[k - 1], Quota(CHANNELS[k - 1], limit), |cs|);
      AddAll(Reserve(cs, limit, k - 1), best, |best|, limit)
  }

  function Select(cs: seq<Candidate>, limit: int): seq<Candidate> {
    AddAll(Reserve(cs, limit, |CHANNELS|), cs, |cs|, limit)
  }

  // ---------- the loops of the script ----------

  method AddTo(selected: seq<Candidate>, keys: set<string>, c: Candidate, limit: int)
    returns (more: seq<Candidate>, moreKeys: set<string>)
    requires keys == Keys(selected)
    ensures more == Add(selected, c, limit) && moreKeys == Keys(more)
  {
    more, moreKeys := selected, keys;
    if c.key !in keys && |selected| < limit {
      more := selected + [c];
      moreKeys := keys + {c.key};
      assert forall d :: d in more <==> d in selected || d == c;
      assert c in more;
    }
  }

  method SelectLoop(cs: seq<Candidate>, limit: int) returns (selected: seq<Candidate>)
    ensures selected == Select(cs, limit)
  {
    selected := [];
    var keys: set<string> := {};
    for k := 0 to |CHANNELS|
      invariant selected == Reserve(cs, limit, k) && keys == Keys(selected)
    {
      var best: seq<Candidate> := [];
      for n := 0 to |cs|
        invariant best == Best(cs, CHANNELS[k], Quota(CHANNELS[k], limit), n)
      {
        if CHANNELS[k] in cs[n].searches && |best| < Quota(CHANNELS[k], limit) {
          best := best + [cs[n]];
        }
      }
      ghost var before := selected;
      for n := 0 to |best|
        invariant selected == AddAll(before, best, n, limit) && keys == Keys(selected)
      {
        selected, keys := AddTo(selected, keys, best[n], limit);
      }
    }
    ghost var before := selected;
    for n := 0 to |cs|
      invariant selected == AddAll(before, cs, n, limit) && keys == Keys(selected)
    {
      selected, keys := AddTo(selected, keys, cs[n], limit);
    }
  }

  // ---------- what a pass over candidates does ----------

  ghost predicate DistinctKeys(cs: seq<Candidate>) {
    forall i, j | 0 <= i < j < |cs| :: cs[i].key != cs[j].key
  }

  /** A pass only appends, keeps keys distinct, and stays within the limit. */
  lemma {:induction false} AddAllAppends(selected: seq<Candidate>, cs: seq<Candidate>, n: nat, limit: int)
    requires n <= |cs| && DistinctKeys(selected)
    ensures selected <= AddAll(selected, cs, n, limit) && DistinctKeys(AddAll(selected, cs, n, limit))
    ensures |AddAll(selected, cs, n, limit)| <= |selected| + n
    ensures |selected| <= limit ==> |AddAll(selected, cs, n, limit)| <= limit
    ensures forall c | c in AddAll(selected, cs, n, limit) :: c in selected || c in cs
  {
    if n > 0 {
      AddAllAppends(selected, cs, n - 1, limit);
    }
  }

  /** A candidate the pass has met is missing only if the limit was reached. */
  lemma {:induction false} MetIsSelected(selected: seq<Candidate>, cs: seq<Candidate>, n: nat, limit: int, i: nat)
    requires i < n <= |cs| && DistinctKeys(selected)
    ensures cs[i].key in Keys(AddAll(selected, cs, n, limit)) || |AddAll(selected, cs, n, limit)| >= limit
  {
    if i < n - 1 {
      MetIsSelected(selected, cs, n - 1, limit, i);
    }
  }

  lemma {:induction false} CountKeys(cs: seq<Candidate>)
    requires DistinctKeys(cs)
    ensures |Keys(cs)| == |cs|
  {
    if cs == [] {
      assert Keys(cs) == {};
    } else {
      var rest := cs[..|cs| - 1];
      CountKeys(rest);
      assert cs == rest + [cs[|cs| - 1]];
      assert forall d :: d in cs <==> d in rest || d == cs[|cs| - 1];
      assert Keys(cs) == Keys(rest) + {cs[|cs| - 1].key};
      assert cs[|cs| - 1].key !in Keys(rest);
    }
  }

  // ---------- reserved capacity ----------

  /** The quotas fit into the limit exactly from 6 on: 2 + 1 + 1 + 1 + 1 are
      reserved at the least. */
  lemma {:induction false} QuotasFitIff(limit: int)
    ensures Reserved(0, limit) <= limit <==> limit >= 6
  {
    assert Reserved(5, limit) == 0;
    assert Reserved(4, limit) == Max(1, limit / 6);
    assert Reserved(3, limit) == Max(1, limit / 5) + Max(1, limit / 6);
    assert Reserved(2, limit) == Max(1, limit / 6) + Reserved(3, limit);
    assert Reserved(1, limit) == Max(1, limit / 10) + Reserved(2, limit);
    assert Reserved(0, limit) == Max(2, limit / 3) + Reserved(1, limit);
  }

  lemma {:induction false} ReserveGrows(cs: seq<Candidate>, limit: int, k: nat)
    requires k <= |CHANNELS|
    ensures DistinctKeys(Reserve(cs, limit, k))
    ensures |Reserve(cs, limit, k)| + Reserved(k, limit) <= Reserved(0, limit)
    ensures limit >= 0 ==> |Reserve(cs, limit, k)| <= limit
    ensures forall c | c in Reserve(cs, limit, k) :: c in cs
  {
    if k > 0 {
      ReserveGrows(cs, limit, k - 1);
      var best := Best(cs, CHANNELS[k - 1], Quota(CHANNELS[k - 1], limit), |cs|);
      AddAllAppends(Reserve(cs, limit, k - 1), best, |best|, limit);
    }
  }

  /** The first candidates of every channel, up to its quota, are selected. */
  ghost predicate KeepsReserved(cs: seq<Candidate>, limit: int) {
    forall channel, c | c in Best(cs, channel, Quota(channel, limit), |cs|) :: c.key in Keys(Select(cs, limit))
  }

  /** The channel is served while there is room for all quotas. */
  lemma {:induction false} ChannelServed(cs: seq<Candidate>, limit: int, k: nat, c: Candidate)
    requires k < |CHANNELS| && limit >= 6
    requires c in Best(cs, CHANNELS[k], Quota(CHANNELS[k], limit), |cs|)
    ensures c.key in Keys(Reserve(cs, limit, k + 1))
  {
    QuotasFitIff(limit);
    ReserveGrows(cs, limit, k);
    var before, best := Reserve(cs, limit, k), Best(cs, CHANNELS[k], Quota(CHANNELS[k], limit), |cs|);
    assert |before| + |best| <= limit;
    var i :| 0 <= i < |best| && best[i] == c;
    RoomForAll(before, best, |best|, limit, i);
  }

  lemma {:induction false} RoomForAll(selected: seq<Candidate>, cs: seq<Candidate>, n: nat, limit: int, i: nat)
    requires i < n <= |cs| && DistinctKeys(selected) && |selected| + |cs| <= limit
    ensures cs[i].key in Keys(AddAll(selected, cs, n, limit))
  {
    var before := AddAll(selected, cs, n - 1, limit);
    AddAllAppends(selected, cs, n - 1, limit);
    if i < n - 1 {
      RoomForAll(selected, cs, n - 1, limit, i);
    }
  }

  lemma {:induction false} ReserveStays(cs: seq<Candidate>, limit: int, k: nat)
    requires k <= |CHANNELS|
    ensures Keys(Reserve(cs, limit, k)) <= Keys(Select(cs, limit))
    decreases |CHANNELS| - k
  {
    ReserveGrows(cs, limit, k);
    if k == |CHANNELS| {
      AddAllAppends(Reserve(cs, limit, k), cs, |cs|, limit);
    } else {
      var best := Best(cs, CHANNELS[k], Quota(CHANNELS[k], limit), |cs|);
      AddAllAppends(Reserve(cs, limit, k), best, |best|, limit);
      ReserveStays(cs, limit, k + 1);
    }
  }

  function IndexOf(c: Channel): (k: nat)
    ensures k < |CHANNELS| && CHANNELS[k] == c
  {
    match c
    case SemanticQuery => 0
    case ErrorPattern => 1
    case TitleKeywords => 2
    case PopularArea => 3
    case AreaLabel => 4
  }

  lemma {:induction false} ReservedAreKept(cs: seq<Candidate>, limit: int)
    requires limit >= 6
    ensures KeepsReserved(cs, limit)
  {
    forall channel, c | c in Best(cs, channel, Quota(channel, limit), |cs|)
      ensures c.key in Keys(Select(cs, limit))
    {
      var k := IndexOf(channel);
      ChannelServed(cs, limit, k, c);
      ReserveStays(cs, limit, k + 1);
    }
  }

  const SIX := [
    Candidate("a", {SemanticQuery}), Candidate("b", {SemanticQuery}), Candidate("c", {ErrorPattern}),
    Candidate("d", {TitleKeywords}), Candidate("e", {PopularArea}), Candidate("f", {AreaLabel})]

  ghost predicate AllReserved(cs: seq<Candidate>, limit: int) {
    forall c | c in cs :: exists channel :: c in Best(cs, channel, Quota(channel, limit), |cs|)
  }

  lemma {:induction false} TooManyReserved(cs: seq<Candidate>, limit: int)
    requires cs != [] && AllReserved(cs, limit) && limit < |Keys(cs)|
    ensures !KeepsReserved(cs, limit)
  {
    assert cs[0].key in Keys(cs);
    SelectSize(cs, limit);
    CountKeys(Select(cs, limit));
    if KeepsReserved(cs, limit) {
      forall key | key in Keys(cs) ensures key in Keys(Select(cs, limit)) {
        var c :| c in cs && c.key == key;
        var channel :| c in Best(cs, channel, Quota(channel, limit), |cs|);
      }
      KeysFit(Keys(cs), Keys(Select(cs, limit)));
    }
  }

  /** Below 6 there are six candidates, all of them reserved. */
  lemma {:induction false} SixDoNotFit(limit: int)
    requires limit < 6
    ensures !KeepsReserved(SIX, limit)
  {
    forall c | c in SIX ensures exists channel :: c in Best(SIX, channel, Quota(channel, limit), |SIX|) {
      SixAreBest(limit, c);
    }
    assert AllReserved(SIX, limit);
    SixKeys();
    TooManyReserved(SIX, limit);
  }

  lemma {:induction false} SixKeys()
    ensures |Keys(SIX)| == 6
  {
    CountKeys(SIX);
  }

  lemma {:induction false} SixAreBest(limit: int, c: Candidate)
    requires limit < 6 && c in SIX
    ensures exists channel :: c in Best(SIX, channel, Quota(channel, limit), |SIX|)
  {
    var i :| 0 <= i < 6 && SIX[i] == c;
    var channel :| channel in c.searches;
    FewBefore(channel, i);
    BestTakes(SIX, channel, Quota(channel, limit), i);
  }

  /** How many of the first `n` candidates the channel found. */
  function Found(cs: seq<Candidate>, channel: Channel, n: nat): nat
    requires n <= |cs|
  {
    if n == 0 then 0 else Found(cs, channel, n - 1) + if channel in cs[n - 1].searches then 1 else 0
  }

  lemma {:induction false} FewBefore(channel: Channel, i: nat)
    requires i < 6 && channel in SIX[i].searches
    ensures Found(SIX, channel, i) <= if channel.SemanticQuery? then 1 else 0
  {
    assert Found(SIX, channel, 0) == 0;
    assert Found(SIX, channel, 1) == if channel.SemanticQuery? then 1 else 0;
    if i >= 2 {
      assert Found(SIX, channel, 2) == 0;
      assert i >= 3 ==> Found(SIX, channel, 3) == 0;
      assert i >= 4 ==> Found(SIX, channel, 4) == 0;
    }
  }

  lemma {:induction false} BestTakes(cs: seq<Candidate>, channel: Channel, quota: nat, i: nat)
    requires i < |cs| && channel in cs[i].searches && Found(cs, channel, i) < quota
    ensures cs[i] in Best(cs, channel, quota, |cs|)
  {
    BestIsFound(cs, channel, quota, i);
    BestStays(cs, channel, quota, i + 1, |cs|);
    var best := Best(cs, channel, quota, i + 1);
    assert best[|best| - 1] == cs[i] && Best(cs, channel, quota, |cs|)[|best| - 1] == cs[i];
  }

  lemma {:induction false} BestIsFound(cs: seq<Candidate>, channel: Channel, quota: nat, n: nat)
    requires n <= |cs|
    ensures |Best(cs, channel, quota, n)| <= Found(cs, channel, n)
  {
    if n > 0 {
      BestIsFound(cs, channel, quota, n - 1);
    }
  }

  lemma {:induction false} BestStays(cs: seq<Candidate>, channel: Channel, quota: nat, m: nat, n: nat)
    requires m <= n <= |cs|
    ensures Best(cs, channel, quota, m) <= Best(cs, channel, quota, n)
  {
    if m < n {
      BestStays(cs, channel, quota, m, n - 1);
    }
  }

  /** Reserved capacity is kept for all candidates exactly for limits from 6 on. */
  lemma {:induction false} ReservedKeptIff(limit: int)
    ensures (forall cs :: KeepsReserved(cs, limit)) <==> limit >= 6
  {
    if limit >= 6 {
      forall cs ensures KeepsReserved(cs, limit) {
        ReservedAreKept(cs, limit);
      }
    } else {
      SixDoNotFit(limit);
    }
  }

  // ---------- the selection ----------

  /** No key twice, nothing invented, and as many members as keys and limit allow. */
  lemma {:induction false} SelectSize(cs: seq<Candidate>, limit: int)
    ensures DistinctKeys(Select(cs, limit)) && forall c | c in Select(cs, limit) :: c in cs
    ensures |Select(cs, limit)| == Min(Max(limit, 0), |Keys(cs)|)
  {
    ReserveGrows(cs, limit, |CHANNELS|);
    var reserve, s := Reserve(cs, limit, |CHANNELS|), Select(cs, limit);
    AddAllAppends(reserve, cs, |cs|, limit);
    CountKeys(s);
    assert Keys(s) <= Keys(cs);
    KeysFit(Keys(s), Keys(cs));
    if |s| < limit {
      forall key | key in Keys(cs) ensures key in Keys(s) {
        var c :| c in cs && c.key == key;
        var i :| 0 <= i < |cs| && cs[i] == c;
        MetIsSelected(reserve, cs, |cs|, limit, i);
      }
      assert Keys(s) == Keys(cs);
    } else {
      NothingBelowZero(cs, limit);
    }
  }

  lemma {:induction false} KeysFit(a: set<string>, b: set<string>)
    requires a <= b
    ensures |a| <= |b|
  {
    if a != {} {
      var x :| x in a;
      KeysFit(a - {x}, b - {x});
    }
  }

  lemma {:induction false} NothingBelowZero(cs: seq<Candidate>, limit: int)
    ensures limit <= 0 ==> Select(cs, limit) == []
    ensures limit > 0 ==> |Select(cs, limit)| <= limit
  {
    ReserveGrows(cs, limit, |CHANNELS|);
    AddAllAppends(Reserve(cs, limit, |CHANNELS|), cs, |cs|, limit);
    if limit <= 0 {
      NoneAdded([], cs, |cs|, limit);
      ReserveNothing(cs, limit, |CHANNELS|);
    }
  }

  lemma {:induction false} NoneAdded(selected: seq<Candidate>, cs: seq<Candidate>, n: nat, limit: int)
    requires n <= |cs| && |selected| >= limit
    ensures AddAll(selected, cs, n, limit) == selected
  {
    if n > 0 {
      NoneAdded(selected, cs, n - 1, limit);
    }
  }

  lemma {:induction false} ReserveNothing(cs: seq<Candidate>, limit: int, k: nat)
    requires k <= |CHANNELS| && limit <= 0
    ensures Reserve(cs, limit, k) == []
  {
    if k > 0 {
      ReserveNothing(cs, limit, k - 1);
      var best := Best(cs, CHANNELS[k - 1], Quota(CHANNELS[k - 1], limit), |cs|);
      NoneAdded([], best, |best|, limit);
    }
  }

  /** Whoever is left out ranks behind everyone added in the last pass: with the
      i-th candidate missing, that pass added nobody from the i-th on. */
  lemma {:induction false} LeftOutRanksLast(cs: seq<Candidate>, limit: int, i: nat)
    requires i < |cs| && cs[i].key !in Keys(Select(cs, limit))
    ensures Select(cs, limit) == AddAll(Reserve(cs, limit, |CHANNELS|), cs, i, limit)
  {
    ReserveGrows(cs, limit, |CHANNELS|);
    LeftOutEnds(Reserve(cs, limit, |CHANNELS|), cs, |cs|, limit, i);
  }

  lemma {:induction false} LeftOutEnds(selected: seq<Candidate>, cs: seq<Candidate>, n: nat, limit: int, i: nat)
    requires i < n <= |cs| && DistinctKeys(selected) && cs[i].key !in Keys(AddAll(selected, cs, n, limit))
    ensures AddAll(selected, cs, n, limit) == AddAll(selected, cs, i, limit)
  {
    if i < n - 1 {
      MetIsSelected(selected, cs, n - 1, limit, i);
      LeftOutEnds(selected, cs, n - 1, limit, i);
    }
  }
}
