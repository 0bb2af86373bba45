/** From what the language model proposes to what is reported: proposals are
    resolved against the candidates, and then criticised one by one. The model's
    proposals and verdicts are arbitrary. */
module TriagePipeline {
  import opened Wrappers

  datatype Kind = Issue | Discussion

  datatype Candidate = Candidate(key: string, kind: Kind, open: bool)

  /** One proposed match; nothing in it need be true. An empty root cause counts
      as none. */
  datatype Proposal = Proposal(key: Option<string>, rootCause: Option<string>, explanation: Option<string>)

  datatype Match = Match(proposal: Proposal, candidate: Candidate)

  type Pool = map<string, Candidate>

  ghost predicate IsPool(pool: Pool) {
    forall key | key in pool :: pool[key].key == key
  }

  // ---------- resolving ----------

  predicate HasRootCause(p: Proposal) {
    p.rootCause.Some? && p.rootCause.value != ""
  }

  /** The proposal names a candidate in the expected state, and gives the root
      cause that an open issue needs. */
  predicate Valid(pool: Pool, p: Proposal, open: bool) {
    && p.key.Some? && p.key.value in pool && pool[p.key.value].open == open
    && (pool[p.key.value].kind == Issue && open ==> HasRootCause(p))
  }

  function Keys(ms: seq<Match>): set<string> {
    set m | m in ms :: m.candidate.key
  }

  /** The valid ones of the first `n` proposals, each candidate once. */
  function Resolve(pool: Pool, ps: seq<Proposal>, open: bool, n: nat): seq<Match>
    requires n <= |ps|
  {
    if n == 0 then []
    else
      var before, p := Resolve(pool, ps, open, n - 1), ps[n - 1];
      if Valid(pool, p, open) && pool[p.key.value].key !in Keys(before) then
        before + [Match(p, pool[p.key.value])]
      else before
  }

  method ResolveLoop(pool: Pool, ps: seq<Proposal>, open: bool) returns (resolved: seq<Match>)
    requires IsPool(pool)
    ensures resolved == Resolve(pool, ps, open, |ps|)
  {
    resolved := [];
    var seen: set<string> := {};
    for n := 0 to |ps|
      invariant resolved == Resolve(pool, ps, open, n) && seen == Keys(resolved)
    {
      var p := ps[n];
      if p.key.None? || p.key.value !in pool || pool[p.key.value].open != open || p.key.value in seen {
        continue;
      }
      var candidate := pool[p.key.value];
      if candidate.kind == Issue && open && !HasRootCause(p) {
        continue;
      }
      seen := seen + {p.key.value};
      resolved := resolved + [Match(p, candidate)];
    }
  }

  ghost predicate DistinctKeys(ms: seq<Match>) {
    forall i, j | 0 <= i < j < |ms| :: ms[i].candidate.key != ms[j].candidate.key
  }

  ghost predicate Sound(pool: Pool, m: Match, open: bool) {
    && m.candidate.key in pool && pool[m.candidate.key] == m.candidate && m.candidate.open == open
    && m.proposal.key == Some(m.candidate.key)
    && (m.candidate.kind == Issue && open ==> HasRootCause(m.proposal))
  }

  ghost predicate AllSound(pool: Pool, ms: seq<Match>, open: bool) {
    forall m | m in ms :: Sound(pool, m, open)
  }

  /** `r` holds the elements of `all` at these positions, in their order. */
  ghost predicate Picks<T>(r: seq<T>, all: seq<T>, at: seq<nat>) {
    && |at| == |r| && (forall j, k | 0 <= j < k < |at| :: at[j] < at[k])
    && forall j | 0 <= j < |at| :: at[j] < |all| && r[j] == all[at[j]]
  }

  lemma {:induction false} PickMore<T>(r: seq<T>, all: seq<T>, at: seq<nat>, i: nat)
    requires Picks(r, all, at) && i < |all| && forall j | j in at :: j < i
    ensures Picks(r + [all[i]], all, at + [i])
  {
    assert forall j | 0 <= j < |at| :: at[j] in at;
  }

  lemma {:induction false} PickedIff(r: seq<Match>, all: seq<Match>, at: seq<nat>, i: nat)
    requires Picks(r, all, at) && DistinctKeys(all) && i < |all|
    ensures all[i] in r <==> i in at
  {
    if i in at {
      var j :| 0 <= j < |at| && at[j] == i;
      assert r[j] == all[i];
    }
  }

  /** The first valid proposal of its candidate. */
  predicate IsFirst(pool: Pool, ps: seq<Proposal>, open: bool, i: nat)
    requires i < |ps|
  {
    Valid(pool, ps[i], open) && forall j | 0 <= j < i :: Valid(pool, ps[j], open) ==> ps[j].key != ps[i].key
  }

  function Proposals(ms: seq<Match>): (ps: seq<Proposal>) {
    seq(|ms|, i requires 0 <= i < |ms| => ms[i].proposal)
  }

  /** Resolved are the first valid proposals, in their order, with the candidates
      that they name. */
  lemma {:induction false} ResolvedAre(pool: Pool, ps: seq<Proposal>, open: bool, n: nat) returns (at: seq<nat>)
    requires n <= |ps| && IsPool(pool)
    ensures Picks(Proposals(Resolve(pool, ps, open, n)), ps, at)
    ensures forall i :: i in at <==> 0 <= i < n && IsFirst(pool, ps, open, i)
    ensures AllSound(pool, Resolve(pool, ps, open, n), open)
  {
    ResolveIsExact(pool, ps, open, n);
    if n == 0 {
      at := [];
    } else {
      at := ResolvedAre(pool, ps, open, n - 1);
      ResolveIsExact(pool, ps, open, n - 1);
      var before, p := Resolve(pool, ps, open, n - 1), ps[n - 1];
      if Valid(pool, p, open) {
        NewIffFirst(pool, ps, open, n - 1);
        if p.key.value !in Keys(before) {
          PickMore(Proposals(before), ps, at, n - 1);
          assert Proposals(before + [Match(p, pool[p.key.value])]) == Proposals(before) + [p];
          at := at + [n - 1];
        }
      }
    }
  }

  lemma {:induction false} NewIffFirst(pool: Pool, ps: seq<Proposal>, open: bool, i: nat)
    requires i < |ps| && IsPool(pool) && Valid(pool, ps[i], open)
    ensures ps[i].key.value !in Keys(Resolve(pool, ps, open, i)) <==> IsFirst(pool, ps, open, i)
  {
    ResolveIsExact(pool, ps, open, i);
    var before := Resolve(pool, ps, open, i);
    if ps[i].key.value in Keys(before) {
      var m :| m in before && m.candidate.key == ps[i].key.value;
      FromEarlier(pool, ps, open, i, m);
    }
  }

  lemma {:induction false} FromEarlier(pool: Pool, ps: seq<Proposal>, open: bool, n: nat, m: Match)
    requires n <= |ps| && m in Resolve(pool, ps, open, n)
    ensures exists j | 0 <= j < n :: ps[j] == m.proposal
  {
    if m in Resolve(pool, ps, open, n - 1) {
      FromEarlier(pool, ps, open, n - 1, m);
    }
  }

  /** What is resolved is valid, each candidate once, and nothing valid is lost. */
  lemma {:induction false} ResolveIsExact(pool: Pool, ps: seq<Proposal>, open: bool, n: nat)
    requires n <= |ps| && IsPool(pool)
    ensures DistinctKeys(Resolve(pool, ps, open, n)) && AllSound(pool, Resolve(pool, ps, open, n), open)
    ensures forall i | 0 <= i < n && Valid(pool, ps[i], open) :: ps[i].key.value in Keys(Resolve(pool, ps, open, n))
    ensures forall m | m in Resolve(pool, ps, open, n) :: m.proposal in ps && Valid(pool, m.proposal, open)
  {
    if n > 0 {
      ResolveIsExact(pool, ps, open, n - 1);
      var before, p := Resolve(pool, ps, open, n - 1), ps[n - 1];
      if Valid(pool, p, open) {
        assert forall i | 0 <= i < |before| :: before[i] in before && before[i].candidate.key in Keys(before);
      }
    }
  }

  // ---------- the proposer's answer ----------

  datatype Answer = Answer(likely: seq<Proposal>, possible: seq<Proposal>, relatedClosed: seq<Proposal>)

  datatype Lists = Lists(likely: seq<Match>, possible: seq<Match>, relatedClosed: seq<Match>)

  /** Matches whose candidate has none of the keys. */
  function Except(ms: seq<Match>, keys: set<string>): seq<Match> {
    if ms == [] then []
    else
      var rest, last := Except(ms[..|ms| - 1], keys), ms[|ms| - 1];
      if last.candidate.key in keys then rest else rest + [last]
  }

  function ResolveAnswer(pool: Pool, a: Answer): Lists {
    var likely := Resolve(pool, a.likely, true, |a.likely|);
    Lists(likely,
          Except(Resolve(pool, a.possible, true, |a.possible|), Keys(likely)),
          Resolve(pool, a.relatedClosed, false, |a.relatedClosed|))
  }

  lemma {:induction false} ExceptKeeps(ms: seq<Match>, keys: set<string>)
    requires DistinctKeys(ms)
    ensures DistinctKeys(Except(ms, keys))
    ensures forall m :: m in Except(ms, keys) <==> m in ms && m.candidate.key !in keys
  {
    if ms != [] {
      var rest := ms[..|ms| - 1];
      ExceptKeeps(rest, keys);
      assert ms == rest + [ms[|ms| - 1]];
      assert forall m | m in rest :: m.candidate.key != ms[|ms| - 1].candidate.key;
    }
  }

  /** A candidate is likely when it is validly proposed as that, possible when it is
      validly proposed as that and not likely, and related when it is validly
      proposed as that. */
  lemma {:induction false} AnswerIsExact(pool: Pool, a: Answer, key: string)
    requires IsPool(pool)
    ensures var l := ResolveAnswer(pool, a);
            && (key in Keys(l.likely) <==> ProposedFor(pool, a.likely, true, key))
            && (key in Keys(l.possible)
                <==> ProposedFor(pool, a.possible, true, key) && !ProposedFor(pool, a.likely, true, key))
            && (key in Keys(l.relatedClosed) <==> ProposedFor(pool, a.relatedClosed, false, key))
  {
    KeyResolvedIff(pool, a.likely, true, key);
    KeyResolvedIff(pool, a.possible, true, key);
    KeyResolvedIff(pool, a.relatedClosed, false, key);
    var possible, likely := Resolve(pool, a.possible, true, |a.possible|), Resolve(pool, a.likely, true, |a.likely|);
    ResolveIsExact(pool, a.possible, true, |a.possible|);
    ExceptKeeps(possible, Keys(likely));
    if key in Keys(possible) && key !in Keys(likely) {
      var m :| m in possible && m.candidate.key == key;
      assert m in Except(possible, Keys(likely));
    }
  }

  ghost predicate ProposedFor(pool: Pool, ps: seq<Proposal>, open: bool, key: string) {
    && key in pool && pool[key].open == open
    && exists i | 0 <= i < |ps| ::
         ps[i].key == Some(key)
         && (open && pool[key].kind == Issue ==> ps[i].rootCause.Some? && ps[i].rootCause.value != "")
  }

  lemma {:induction false} KeyResolvedIff(pool: Pool, ps: seq<Proposal>, open: bool, key: string)
    requires IsPool(pool)
    ensures key in Keys(Resolve(pool, ps, open, |ps|)) <==> ProposedFor(pool, ps, open, key)
  {
    ResolveIsExact(pool, ps, open, |ps|);
    assert ProposedFor(pool, ps, open, key)
      <==> exists i | 0 <= i < |ps| :: Valid(pool, ps[i], open) && ps[i].key == Some(key);
  }

  // ---------- critique ----------

  datatype Verdict = Keep | Downgrade | Omit | Other | CallFailed

  datatype Kept = Kept(likely: seq<Match>, possible: seq<Match>)

  /** One verdict on the n-th proposed match; the likely ones come first. */
  function Judge(k: Kept, m: Match, isLikely: bool, v: Verdict): Kept {
    match v
    case Keep => if isLikely then k.(likely := k.likely + [m]) else k.(possible := k.possible + [m])
    case Downgrade => if isLikely then k.(possible := k.possible + [m]) else k
    case _ => k
  }

  /** After the first `n` of the likely and the possible matches. */
  function Critique(likely: seq<Match>, possible: seq<Match>, verdicts: nat -> Verdict, n: nat): Kept
    requires n <= |likely| + |possible|
  {
    if n == 0 then Kept([], [])
    else
      Judge(Critique(likely, possible, verdicts, n - 1), (likely + possible)[n - 1], n - 1 < |likely|, verdicts(n - 1))
  }

  /** Kept as likely are the likely ones with the verdict to keep; kept as possible
      are the possible ones with that verdict and the likely ones with the verdict
      to downgrade; in the order of the proposals. */
  lemma {:induction false} CritiqueKeeps(likely: seq<Match>, possible: seq<Match>, verdicts: nat -> Verdict, n: nat)
    returns (a: seq<nat>, b: seq<nat>)
    requires n <= |likely| + |possible|
    ensures Picks(Critique(likely, possible, verdicts, n).likely, likely + possible, a)
    ensures Picks(Critique(likely, possible, verdicts, n).possible, likely + possible, b)
    ensures forall i :: i in a <==> 0 <= i < n && i < |likely| && verdicts(i) == Keep
    ensures forall i ::
              i in b <==> 0 <= i < n && if i < |likely| then verdicts(i) == Downgrade else verdicts(i) == Keep
  {
    if n == 0 {
      a, b := [], [];
    } else {
      var all, before := likely + possible, Critique(likely, possible, verdicts, n - 1);
      a, b := CritiqueKeeps(likely, possible, verdicts, n - 1);
      if n <= |likely| && verdicts(n - 1) == Keep {
        PickMore(before.likely, all, a, n - 1);
        a := a + [n - 1];
      } else if verdicts(n - 1) == if n <= |likely| then Downgrade else Keep {
        PickMore(before.possible, all, b, n - 1);
        b := b + [n - 1];
      }
    }
  }

  /** Exactly what each verdict does to its match. */
  ghost predicate FollowsVerdicts(k: Kept, likely: seq<Match>, possible: seq<Match>, verdicts: nat -> Verdict) {
    && (forall i | 0 <= i < |likely| ::
          && (likely[i] in k.likely <==> verdicts(i) == Keep)
          && (likely[i] in k.possible <==> verdicts(i) == Downgrade))
    && (forall i | 0 <= i < |possible| ::
          && possible[i] !in k.likely
          && (possible[i] in k.possible <==> verdicts(|likely| + i) == Keep))
  }

  lemma {:induction false} CritiqueFollows(likely: seq<Match>, possible: seq<Match>, verdicts: nat -> Verdict)
    requires DistinctKeys(likely + possible)
    ensures FollowsVerdicts(Critique(likely, possible, verdicts, |likely| + |possible|), likely, possible, verdicts)
  {
    var all, n := likely + possible, |likely| + |possible|;
    var k := Critique(likely, possible, verdicts, n);
    var a, b := CritiqueKeeps(likely, possible, verdicts, n);
    forall i | 0 <= i < n
      ensures (all[i] in k.likely <==> i in a) && (all[i] in k.possible <==> i in b)
    {
      PickedIff(k.likely, all, a, i);
      PickedIff(k.possible, all, b, i);
    }
    assert forall i | 0 <= i < |likely| :: all[i] == likely[i];
    assert forall i | 0 <= i < |possible| :: all[|likely| + i] == possible[i];
  }

  /** The critique reads the explanation of every match; without one it stops
      the script. */
  predicate AllExplained(ms: seq<Match>) {
    forall m | m in ms :: m.proposal.explanation.Some?
  }

  method CritiqueLoop(likely: seq<Match>, possible: seq<Match>, verdicts: nat -> Verdict) returns (r: Option<Kept>)
    ensures r.Some? <==> AllExplained(likely + possible)
    ensures r.Some? ==> r.value == Critique(likely, possible, verdicts, |likely| + |possible|)
    ensures r.Some? && DistinctKeys(likely + possible) ==> FollowsVerdicts(r.value, likely, possible, verdicts)
  {
    var proposed := likely + possible;
    var kept := Kept([], []);
    for n := 0 to |proposed|
      invariant kept == Critique(likely, possible, verdicts, n)
      invariant forall i | 0 <= i < n :: proposed[i].proposal.explanation.Some?
    {
      if proposed[n].proposal.explanation.None? {
        assert proposed[n] in proposed;
        return None;
      }
      var confident := n < |likely|;
      var v := verdicts(n);
      if v == Keep {
        if confident {
          kept := kept.(likely := kept.likely + [proposed[n]]);
        } else {
          kept := kept.(possible := kept.possible + [proposed[n]]);
        }
      } else if v == Downgrade && confident {
        kept := kept.(possible := kept.possible + [proposed[n]]);
      }
    }
    if DistinctKeys(proposed) {
      CritiqueFollows(likely, possible, verdicts);
    }
    return Some(kept);
  }

  /** Only the included ones of the related closed matches stay. */
  function Included(ms: seq<Match>, useful: nat -> bool, n: nat): seq<Match>
    requires n <= |ms|
  {
    if n == 0 then []
    else Included(ms, useful, n - 1) + if useful(n - 1) then [ms[n - 1]] else []
  }

  /** Exactly the useful ones, in their order. */
  lemma {:induction false} IncludedAreUseful(ms: seq<Match>, useful: nat -> bool, n: nat) returns (at: seq<nat>)
    requires n <= |ms|
    ensures Picks(Included(ms, useful, n), ms, at)
    ensures forall i :: i in at <==> 0 <= i < n && useful(i)
  {
    if n == 0 {
      at := [];
    } else {
      at := IncludedAreUseful(ms, useful, n - 1);
      if useful(n - 1) {
        PickMore(Included(ms, useful, n - 1), ms, at, n - 1);
        at := at + [n - 1];
      }
    }
  }

  // ---------- what is reported ----------

  /** Where each kept match came from. */
  lemma {:induction false} CritiqueOnlyDemotes(likely: seq<Match>, possible: seq<Match>,
                                               verdicts: nat -> Verdict, n: nat)
    requires n <= |likely| + |possible| && DistinctKeys(likely + possible)
    ensures var k := Critique(likely, possible, verdicts, n);
            && DistinctKeys(k.likely + k.possible)
            && (forall m | m in k.likely :: m in likely)
            && (forall m | m in k.likely + k.possible :: m in (likely + possible)[..n])
  {
    if n > 0 {
      var all := likely + possible;
      CritiqueOnlyDemotes(likely, possible, verdicts, n - 1);
      var before := Critique(likely, possible, verdicts, n - 1);
      assert all[..n] == all[..n - 1] + [all[n - 1]];
      assert n - 1 < |likely| ==> all[n - 1] == likely[n - 1];
      OneMoreKept(before, all[n - 1], n - 1 < |likely|, verdicts(n - 1), all[..n - 1]);
      NewKey(all, n - 1);
    }
  }

  lemma {:induction false} NewKey(all: seq<Match>, n: nat)
    requires n < |all| && DistinctKeys(all)
    ensures forall m | m in all[..n] :: m.candidate.key != all[n].candidate.key
  {
  }

  lemma {:induction false} OneMoreKept(k: Kept, m: Match, isLikely: bool, v: Verdict, from: seq<Match>)
    requires DistinctKeys(k.likely + k.possible)
    requires forall x | x in k.likely + k.possible :: x in from
    ensures forall x | x in Judge(k, m, isLikely, v).likely + Judge(k, m, isLikely, v).possible :: x in from || x == m
    ensures forall x | x in Judge(k, m, isLikely, v).likely :: x in k.likely || (x == m && isLikely)
    ensures (forall x | x in from :: x.candidate.key != m.candidate.key) ==>
              DistinctKeys(Judge(k, m, isLikely, v).likely + Judge(k, m, isLikely, v).possible)
  {
    var j := Judge(k, m, isLikely, v);
    if j.possible != k.possible {
      assert j.likely + j.possible == (k.likely + k.possible) + [m];
      assert forall i | 0 <= i < |k.likely + k.possible| :: (k.likely + k.possible)[i] in from;
    } else if j.likely != k.likely {
      InsertKey(k.likely, k.possible, m, from);
    }
  }

  lemma {:induction false} InsertKey(a: seq<Match>, b: seq<Match>, m: Match, from: seq<Match>)
    requires DistinctKeys(a + b) && forall x | x in a + b :: x in from
    ensures (forall x | x in from :: x.candidate.key != m.candidate.key) ==> DistinctKeys(a + [m] + b)
  {
    var ab, amb := a + b, a + [m] + b;
    if forall x | x in from :: x.candidate.key != m.candidate.key {
      forall i, j | 0 <= i < j < |amb| ensures amb[i].candidate.key != amb[j].candidate.key {
        var i', j' := if i <= |a| then i else i - 1, if j <= |a| then j else j - 1;
        assert i != |a| ==> amb[i] == ab[i'] && ab[i'] in from;
        assert j != |a| ==> amb[j] == ab[j'] && ab[j'] in from;
      }
    }
  }

  lemma {:induction false} IncludedAre(ms: seq<Match>, useful: nat -> bool, n: nat)
    requires n <= |ms| && DistinctKeys(ms)
    ensures DistinctKeys(Included(ms, useful, n))
    ensures forall m | m in Included(ms, useful, n) :: m in ms[..n]
  {
    if n > 0 {
      IncludedAre(ms, useful, n - 1);
      assert ms[..n] == ms[..n - 1] + [ms[n - 1]];
      NewKey(ms, n - 1);
    }
  }

  lemma {:induction false} AnswerResolved(pool: Pool, a: Answer)
    requires IsPool(pool)
    ensures var l := ResolveAnswer(pool, a);
            && DistinctKeys(l.likely + l.possible) && DistinctKeys(l.relatedClosed)
            && AllSound(pool, l.likely + l.possible, true) && AllSound(pool, l.relatedClosed, false)
  {
    ResolveIsExact(pool, a.likely, true, |a.likely|);
    ResolveIsExact(pool, a.possible, true, |a.possible|);
    ResolveIsExact(pool, a.relatedClosed, false, |a.relatedClosed|);
    var l := ResolveAnswer(pool, a);
    ExceptKeeps(Resolve(pool, a.possible, true, |a.possible|), Keys(l.likely));
    forall i, j | 0 <= i < |l.likely| && 0 <= j < |l.possible|
      ensures l.likely[i].candidate.key != l.possible[j].candidate.key
    {
      assert l.likely[i] in l.likely && l.likely[i].candidate.key in Keys(l.likely);
      assert l.possible[j] in l.possible;
    }
  }

  /** Whatever the model answered and however it judged: no candidate is reported
      twice in all three lists; likely and possible matches are open, with a root
      cause where they are issues, and related ones closed; likely matches were
      proposed as likely; and a possible match was proposed as one of the two. */
  lemma {:induction false} ReportIsConsistent(pool: Pool, a: Answer, verdicts: nat -> Verdict, useful: nat -> bool)
    requires IsPool(pool)
    ensures var l := ResolveAnswer(pool, a);
            var k := Critique(l.likely, l.possible, verdicts, |l.likely| + |l.possible|);
            var closed := Included(l.relatedClosed, useful, |l.relatedClosed|);
            && DistinctKeys(k.likely + k.possible + closed)
            && AllSound(pool, k.likely + k.possible, true) && AllSound(pool, closed, false)
            && (forall m | m in k.likely :: m in l.likely)
            && (forall m | m in k.possible :: m in l.likely || m in l.possible)
  {
    AnswerResolved(pool, a);
    var l := ResolveAnswer(pool, a);
    CritiqueOnlyDemotes(l.likely, l.possible, verdicts, |l.likely| + |l.possible|);
    IncludedAre(l.relatedClosed, useful, |l.relatedClosed|);
    var k := Critique(l.likely, l.possible, verdicts, |l.likely| + |l.possible|);
    var closed := Included(l.relatedClosed, useful, |l.relatedClosed|);
    assert (l.likely + l.possible)[..|l.likely| + |l.possible|] == l.likely + l.possible;
    assert l.relatedClosed[..|l.relatedClosed|] == l.relatedClosed;
    forall m | m in k.possible ensures m in l.likely || m in l.possible {
      assert m in k.likely + k.possible;
    }
    OpenAndClosedApart(pool, k.likely + k.possible, closed);
  }

  lemma {:induction false} OpenAndClosedApart(pool: Pool, open: seq<Match>, closed: seq<Match>)
    requires DistinctKeys(open) && DistinctKeys(closed) && AllSound(pool, open, true) && AllSound(pool, closed, false)
    ensures DistinctKeys(open + closed)
  {
    forall i, j | 0 <= i < |open| && 0 <= j < |closed| ensures open[i].candidate.key != closed[j].candidate.key {
      assert Sound(pool, open[i], true) && Sound(pool, closed[j], false);
    }
  }
}
