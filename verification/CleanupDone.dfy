/** That a run does what is due: when its requests succeed, every open pull request
    that it lists gets exactly the comments its cleanups ask for, whatever others
    do meanwhile, and is closed when one of them asks for that. */
module CleanupDone {
  import opened Wrappers
  import opened PullRequests
  import opened CleanupActions
  import opened CleanupProtocol
  import opened CleanupRun

  // ---------- the comments of the bot ----------

  ghost function BotTexts(comments: seq<Comment>, from: nat): set<Text> {
    set i | from <= i < |comments| && ByBot(comments[i]) :: comments[i].text
  }

  /** Comments were only added, those of the bot with exactly these texts. */
  ghost predicate Gains(old_: PullRequest, new_: PullRequest, texts: set<Text>) {
    && old_.comments <= new_.comments && BotTexts(new_.comments, |old_.comments|) == texts
    && |new_.commits| > 0
  }

  lemma {:induction false} GainsTwice(a: PullRequest, b: PullRequest, c: PullRequest, s: set<Text>, t: set<Text>)
    requires Gains(a, b, s) && Gains(b, c, t)
    ensures Gains(a, c, s + t)
  {
    var x, y := b.comments, c.comments;
    assert forall i | 0 <= i < |x| :: y[i] == x[i];
    forall text ensures text in BotTexts(y, |a.comments|) <==> text in s + t {
      if text in BotTexts(y, |a.comments|) {
        var i :| |a.comments| <= i < |y| && ByBot(y[i]) && y[i].text == text;
        if i < |x| {
          assert x[i].text in BotTexts(x, |a.comments|);
        } else {
          assert y[i].text in BotTexts(y, |x|);
        }
      }
      if text in s {
        var i :| |a.comments| <= i < |x| && ByBot(x[i]) && x[i].text == text;
        assert y[i] == x[i];
      }
    }
  }

  lemma {:induction false} GainsMore(a: PullRequest, b: PullRequest, c: PullRequest, t: set<Text>)
    requires Gains(a, b, {}) && Gains(b, c, t)
    ensures Gains(a, c, t)
  {
    GainsTwice(a, b, c, {}, t);
    assert {} + t == t;
  }

  lemma {:induction false} GainsNothing(a: PullRequest)
    requires |a.commits| > 0
    ensures Gains(a, a, {})
  {
  }

  // ---------- one request ----------

  lemma {:induction false} ArrivedGains(env: Environment, sv: Server, n: nat)
    requires Lawful(env) && n in sv.pulls && |sv.pulls[n].commits| > 0
    ensures Gains(sv.pulls[n], Arrived(env, sv).pulls[n], {})
  {
    assert IsLawful(env, sv.requests, n, sv.pulls[n], sv.clock);
    var old_, new_ := sv.pulls[n].comments, Arrived(env, sv).pulls[n].comments;
    assert forall i | |old_| <= i < |new_| :: !ByBot(new_[i]);
  }

  lemma {:induction false} CommentGains(pr: PullRequest, text: Text, at: Time)
    requires |pr.commits| > 0 && text.Marked?
    ensures Gains(pr, Commented(pr, text, at), {text})
  {
    var more := Commented(pr, text, at).comments;
    assert more[|pr.comments|] == Comment(at, Some(CommunityBot), text);
    assert pr.comments <= more && |Commented(pr, text, at).commits| > 0;
    forall t ensures t in BotTexts(more, |pr.comments|) <==> t in {text} {
      if t == text {
        assert more[|pr.comments|].text == t;
      }
    }
  }

  lemma {:induction false} PostGains(env: Environment, sv: Server, n: nat, text: Text)
    requires Lawful(env) && Succeeds(env, sv) && n in sv.pulls && |sv.pulls[n].commits| > 0 && text.Marked?
    ensures Gains(sv.pulls[n], AfterPost(env, sv, n, text).pulls[n], {text})
  {
    var now := Arrived(env, sv);
    ArrivedGains(env, sv, n);
    CommentGains(now.pulls[n], text, now.clock);
    GainsMore(sv.pulls[n], now.pulls[n], Commented(now.pulls[n], text, now.clock), {text});
  }

  lemma {:induction false} PatchGains(env: Environment, sv: Server, n: nat)
    requires Lawful(env) && Succeeds(env, sv) && n in sv.pulls && |sv.pulls[n].commits| > 0
    ensures var pr := AfterPatch(env, sv, n).pulls[n];
            Gains(sv.pulls[n], pr, {}) && pr.closedAt.Some?
  {
    ArrivedGains(env, sv, n);
  }

  lemma {:induction false} LookedUpGains(env: Environment, sv: Server, n: nat, reviews: seq<Review>)
    requires Lawful(env) && AllLand(env, sv.requests) && n in sv.pulls && |sv.pulls[n].commits| > 0
    ensures var (asked, known) := LookedUp(env, sv, reviews);
            known && sv.requests <= asked.requests && Gains(sv.pulls[n], asked.pulls[n], {})
    decreases |reviews|
  {
    GainsNothing(sv.pulls[n]);
    if reviews != [] {
      var before, last := reviews[..|reviews| - 1], reviews[|reviews| - 1];
      if last.who.None? {
        LookedUpGains(env, sv, n, before);
      } else {
        var asked := Asked(env, sv, last.who.value).0;
        ArrivedGains(env, sv, n);
        if last.who.value !in env.staff {
          LookedUpGains(env, asked, n, before);
          GainsMore(sv.pulls[n], asked.pulls[n], LookedUp(env, asked, before).0.pulls[n], {});
        }
      }
    }
  }

  lemma {:induction false} LookupsGain(env: Environment, sv: Server, n: nat, c: Cleanup, summary: PullRequest)
    requires Lawful(env) && AllLand(env, sv.requests) && n in sv.pulls && |sv.pulls[n].commits| > 0
    ensures var (asked, known) := Lookups(env, sv, c, summary);
            known && sv.requests <= asked.requests && Gains(sv.pulls[n], asked.pulls[n], {})
  {
    GainsNothing(sv.pulls[n]);
    LookedUpGains(env, sv, n, summary.reviews);
  }

  // ---------- one step ----------

  function TextsOf(wish: Option<Step>): set<Text> {
    if wish.Some? && wish.value.comment.Some? then {wish.value.comment.value} else {}
  }

  predicate IsClosing(wish: Option<Step>) {
    wish.Some? && wish.value.kind == Close
  }

  lemma {:induction false} StepGains(env: Environment, sv: Server, n: nat, step: Step)
    requires Lawful(env) && AllLand(env, sv.requests) && n in sv.pulls && |sv.pulls[n].commits| > 0
    requires step.comment.Some? ==> step.comment.value.Marked?
    ensures var (stepped, ok) := Stepped(env, sv, n, step, false);
            && ok && sv.requests <= stepped.requests && Gains(sv.pulls[n], stepped.pulls[n], TextsOf(Some(step)))
            && (step.kind == Close ==> stepped.pulls[n].closedAt.Some?)
  {
    GainsNothing(sv.pulls[n]);
    if step.comment.Some? {
      var posted := AfterPost(env, sv, n, step.comment.value);
      PostGains(env, sv, n, step.comment.value);
      if step.kind == Close {
        PatchGains(env, posted, n);
        GainsTwice(sv.pulls[n], posted.pulls[n], AfterPatch(env, posted, n).pulls[n], {step.comment.value}, {});
        assert {step.comment.value} + {} == {step.comment.value};
      }
    } else if step.kind == Close {
      PatchGains(env, sv, n);
    }
  }

  /** What the i-th cleanup does. */
  lemma {:induction false} CleanupGains(env: Environment, sv: Server, n: nat, summary: PullRequest, now: Time,
                                        cached: Option<PullRequest>, i: nat, full: PullRequest)
    requires Lawful(env) && AllLand(env, sv.requests) && n in sv.pulls && |sv.pulls[n].commits| > 0
    requires |summary.commits| > 0 && i < |CLEANUPS| && (cached.Some? ==> cached.value == full)
    requires cached.None? && !RuledOut(CLEANUPS[i], env.staff, summary, now) ==>
               ReadFull(env, sv, n, None).1 == Some(full)
    ensures var (next, read, progress) := AfterCleanup(env, sv, n, summary, now, cached, i, false);
            var wish := Act(CLEANUPS[i], env.staff, summary, full, now);
            && (progress == if IsClosing(wish) then Closed else Continue) && sv.requests <= next.requests
            && Gains(sv.pulls[n], next.pulls[n], TextsOf(wish))
            && (IsClosing(wish) ==> next.pulls[n].closedAt.Some?)
            && read == if RuledOut(CLEANUPS[i], env.staff, summary, now) then cached else Some(full)
  {
    GainsNothing(sv.pulls[n]);
    var wish := Act(CLEANUPS[i], env.staff, summary, full, now);
    if RuledOut(CLEANUPS[i], env.staff, summary, now) {
      RuledOutActs(CLEANUPS[i], env.staff, summary, full, now);
    } else {
      var read := ReadFull(env, sv, n, cached).0;
      ArrivedGains(env, sv, n);
      if wish.Some? {
        if wish.value.comment.Some? {
          CommentStep(CLEANUPS[i], env.staff, summary, full, now);
        }
        StepGains(env, read, n, wish.value);
        GainsMore(sv.pulls[n], read.pulls[n], Stepped(env, read, n, wish.value, false).0.pulls[n], TextsOf(wish));
      }
    }
  }

  // ---------- one sweep ----------

  /** The comments that these cleanups ask for, one after the other, up to the first
      that closes. */
  function DueTexts(cs: seq<Cleanup>, staff: set<Login>, summary: PullRequest, full: PullRequest, now: Time): set<Text>
    requires |summary.commits| > 0
  {
    if cs == [] then {}
    else
      var wish := Act(cs[0], staff, summary, full, now);
      TextsOf(wish) + if IsClosing(wish) then {} else DueTexts(cs[1..], staff, summary, full, now)
  }

  predicate ClosingDue(cs: seq<Cleanup>, staff: set<Login>, summary: PullRequest, full: PullRequest, now: Time)
    requires |summary.commits| > 0
  {
    exists k | 0 <= k < |cs| :: IsClosing(Act(cs[k], staff, summary, full, now))
  }

  lemma {:induction false} ClosingDueFrom(i: nat, staff: set<Login>, summary: PullRequest, full: PullRequest, now: Time)
    requires |summary.commits| > 0 && i < |CLEANUPS|
    ensures ClosingDue(CLEANUPS[i..], staff, summary, full, now)
            <==> IsClosing(Act(CLEANUPS[i], staff, summary, full, now))
                 || ClosingDue(CLEANUPS[i + 1..], staff, summary, full, now)
  {
    var cs, rest := CLEANUPS[i..], CLEANUPS[i + 1..];
    assert cs[0] == CLEANUPS[i] && forall k | 0 <= k < |rest| :: cs[k + 1] == rest[k];
  }

  lemma {:induction false} SweepGains(env: Environment, sv: Server, n: nat, summary: PullRequest, now: Time,
                                      cached: Option<PullRequest>, i: nat, full: PullRequest)
    requires Lawful(env) && AllLand(env, sv.requests) && n in sv.pulls && |sv.pulls[n].commits| > 0
    requires |summary.commits| > 0 && i <= |CLEANUPS| && (cached.Some? ==> cached.value == full)
    requires FullRead(env, sv, n, summary, now, cached, i).Some? ==>
               FullRead(env, sv, n, summary, now, cached, i).value == full
    ensures var (swept, ok) := SweptFrom(env, sv, n, summary, now, cached, i, false);
            && ok && sv.requests <= swept.requests
            && Gains(sv.pulls[n], swept.pulls[n], DueTexts(CLEANUPS[i..], env.staff, summary, full, now))
            && (ClosingDue(CLEANUPS[i..], env.staff, summary, full, now) ==> swept.pulls[n].closedAt.Some?)
    decreases |CLEANUPS| - i
  {
    GainsNothing(sv.pulls[n]);
    if i < |CLEANUPS| {
      var asked := Lookups(env, sv, CLEANUPS[i], summary).0;
      LookupsGain(env, sv, n, CLEANUPS[i], summary);
      CleanupGains(env, asked, n, summary, now, cached, i, full);
      ClosingDueFrom(i, env.staff, summary, full, now);
      var wish := Act(CLEANUPS[i], env.staff, summary, full, now);
      var (next, read, progress) := AfterCleanup(env, asked, n, summary, now, cached, i, false);
      GainsMore(sv.pulls[n], asked.pulls[n], next.pulls[n], TextsOf(wish));
      assert CLEANUPS[i..][0] == CLEANUPS[i] && CLEANUPS[i..][1..] == CLEANUPS[i + 1..];
      if !IsClosing(wish) {
        SweepGains(env, next, n, summary, now, read, i + 1, full);
        GainsTwice(sv.pulls[n], next.pulls[n], SweptFrom(env, next, n, summary, now, read, i + 1, false).0.pulls[n],
                   TextsOf(wish), DueTexts(CLEANUPS[i + 1..], env.staff, summary, full, now));
      } else {
        assert TextsOf(wish) + {} == TextsOf(wish);
      }
    }
  }

  /** A sweep whose requests succeed posts exactly what the four cleanups ask for in
      their order, up to a closing, and closes where one of them asks for that;
      `full` is what it reads in full, if it comes to that. */
  lemma {:induction false} SweepDoesWhatIsDue(env: Environment, sv: Server, n: nat, summary: PullRequest, now: Time,
                                              full: PullRequest)
    requires Lawful(env) && AllLand(env, sv.requests) && n in sv.pulls && |sv.pulls[n].commits| > 0
    requires |summary.commits| > 0
    requires FullRead(env, sv, n, summary, now, None, 0).Some? ==>
               FullRead(env, sv, n, summary, now, None, 0).value == full
    ensures var (swept, ok) := Swept(env, sv, n, summary, now, false);
            var cs := [Cla, StaleDraft, StaleChanges, NoSelfReview];
            && ok && Gains(sv.pulls[n], swept.pulls[n], DueTexts(cs, env.staff, summary, full, now))
            && (ClosingDue(cs, env.staff, summary, full, now) ==> swept.pulls[n].closedAt.Some?)
  {
    SweepGains(env, sv, n, summary, now, None, 0, full);
    assert CLEANUPS[0..] == CLEANUPS == [Cla, StaleDraft, StaleChanges, NoSelfReview];
  }

  // ---------- the whole run ----------

  /** The server later on: comments have only been added. */
  ghost predicate Later(a: Server, b: Server) {
    && a.pulls.Keys == b.pulls.Keys && a.requests <= b.requests
    && forall n {:trigger Grown(a, b, n)} | n in a.pulls :: Grown(a, b, n)
  }

  ghost predicate Grown(a: Server, b: Server, n: nat)
    requires n in a.pulls && n in b.pulls
  {
    |a.pulls[n].commits| > 0 ==> |b.pulls[n].commits| > 0 && a.pulls[n].comments <= b.pulls[n].comments
  }

  lemma {:induction false} LaterTwice(a: Server, b: Server, c: Server)
    requires Later(a, b) && Later(b, c)
    ensures Later(a, c)
  {
    forall n | n in a.pulls ensures Grown(a, c, n) {
      assert Grown(a, b, n) && Grown(b, c, n);
    }
  }

  lemma {:induction false} ArrivedLater(env: Environment, sv: Server)
    requires Lawful(env)
    ensures Later(sv, Arrived(env, sv))
  {
    forall n | n in sv.pulls ensures Grown(sv, Arrived(env, sv), n) {
      if |sv.pulls[n].commits| > 0 {
        assert IsLawful(env, sv.requests, n, sv.pulls[n], sv.clock);
      }
    }
  }

  lemma {:induction false} WriteLater(env: Environment, sv: Server, n: nat, text: Text)
    requires Lawful(env) && n in sv.pulls
    ensures Later(sv, AfterPost(env, sv, n, text)) && Later(sv, AfterPatch(env, sv, n))
  {
    var now := Arrived(env, sv);
    ArrivedLater(env, sv);
    forall m | m in now.pulls
      ensures Grown(now, AfterPost(env, sv, n, text), m) && Grown(now, AfterPatch(env, sv, n), m)
    {
    }
    LaterTwice(sv, now, AfterPost(env, sv, n, text));
    LaterTwice(sv, now, AfterPatch(env, sv, n));
  }

  lemma {:induction false} LookedUpLater(env: Environment, sv: Server, reviews: seq<Review>)
    requires Lawful(env)
    ensures Later(sv, LookedUp(env, sv, reviews).0)
    decreases |reviews|
  {
    if reviews != [] {
      var before, last := reviews[..|reviews| - 1], reviews[|reviews| - 1];
      if last.who.None? {
        LookedUpLater(env, sv, before);
      } else {
        var (asked, known) := Asked(env, sv, last.who.value);
        ArrivedLater(env, sv);
        assert Later(sv, asked) by {
          assert asked.pulls == sv.pulls || asked.pulls == Arrived(env, sv).pulls;
          SameLater(sv, Arrived(env, sv), asked);
        }
        if known && last.who.value !in env.staff {
          LookedUpLater(env, asked, before);
          LaterTwice(sv, asked, LookedUp(env, asked, before).0);
        }
      }
    }
  }

  lemma {:induction false} SameLater(a: Server, b: Server, c: Server)
    requires Later(a, b) && (c == a || (c.pulls == b.pulls && c.requests == b.requests))
    ensures Later(a, c)
  {
    forall n | n in a.pulls ensures Grown(a, c, n) {
      assert Grown(a, b, n);
    }
  }

  lemma {:induction false} StepLater(env: Environment, sv: Server, n: nat, step: Step, dryRun: bool)
    requires Lawful(env) && n in sv.pulls
    ensures Later(sv, Stepped(env, sv, n, step, dryRun).0)
  {
    WriteLater(env, sv, n, Plain);
    ArrivedLater(env, sv);
    SameLater(sv, Arrived(env, sv), sv);
    if step.comment.Some? {
      var posted := AfterPost(env, sv, n, step.comment.value);
      WriteLater(env, sv, n, step.comment.value);
      WriteLater(env, posted, n, Plain);
      LaterTwice(sv, posted, AfterPatch(env, posted, n));
    }
  }

  lemma {:induction false} CleanupLater(env: Environment, sv: Server, n: nat, summary: PullRequest, now: Time,
                                        cached: Option<PullRequest>, i: nat, dryRun: bool)
    requires Lawful(env) && |summary.commits| > 0 && n in sv.pulls && i < |CLEANUPS|
    ensures Later(sv, AfterCleanup(env, sv, n, summary, now, cached, i, dryRun).0)
  {
    ArrivedLater(env, sv);
    SameLater(sv, Arrived(env, sv), sv);
    if !RuledOut(CLEANUPS[i], env.staff, summary, now) {
      var (read, full) := ReadFull(env, sv, n, cached);
      if full.Some? {
        var wish := Act(CLEANUPS[i], env.staff, summary, full.value, now);
        if wish.Some? {
          StepLater(env, read, n, wish.value, dryRun);
          LaterTwice(sv, read, Stepped(env, read, n, wish.value, dryRun).0);
        }
      }
    }
  }

  lemma {:induction false} SweptLater(env: Environment, sv: Server, n: nat, summary: PullRequest, now: Time,
                                      cached: Option<PullRequest>, i: nat, dryRun: bool)
    requires Lawful(env) && |summary.commits| > 0 && n in sv.pulls && i <= |CLEANUPS|
    ensures Later(sv, SweptFrom(env, sv, n, summary, now, cached, i, dryRun).0)
    decreases |CLEANUPS| - i
  {
    if i == |CLEANUPS| {
      ArrivedLater(env, sv);
      SameLater(sv, Arrived(env, sv), sv);
    } else {
      var (asked, known) := Lookups(env, sv, CLEANUPS[i], summary);
      LookupsLater(env, sv, CLEANUPS[i], summary);
      if known {
        var (next, full, progress) := AfterCleanup(env, asked, n, summary, now, cached, i, dryRun);
        CleanupLater(env, asked, n, summary, now, cached, i, dryRun);
        LaterTwice(sv, asked, next);
        if progress.Continue? {
          SweptLater(env, next, n, summary, now, full, i + 1, dryRun);
          LaterTwice(sv, next, SweptFrom(env, next, n, summary, now, full, i + 1, dryRun).0);
        }
      }
    }
  }

  lemma {:induction false} LookupsLater(env: Environment, sv: Server, c: Cleanup, summary: PullRequest)
    requires Lawful(env)
    ensures Later(sv, Lookups(env, sv, c, summary).0)
  {
    ArrivedLater(env, sv);
    SameLater(sv, Arrived(env, sv), sv);
    LookedUpLater(env, sv, summary.reviews);
  }

  ghost predicate HaveCommits(sv: Server) {
    forall n | n in sv.pulls :: |sv.pulls[n].commits| > 0
  }

  lemma {:induction false} CommitsStay(a: Server, b: Server)
    requires HaveCommits(a) && Later(a, b)
    ensures HaveCommits(b)
  {
    forall n | n in b.pulls ensures |b.pulls[n].commits| > 0 {
      assert Grown(a, b, n);
    }
  }

  /** A sweep whose requests succeed completes. */
  lemma {:induction false} SweepCompletes(env: Environment, sv: Server, n: nat, summary: PullRequest, now: Time)
    requires Lawful(env) && AllLand(env, sv.requests) && HaveCommits(sv) && n in sv.pulls && |summary.commits| > 0
    ensures var (swept, ok) := Swept(env, sv, n, summary, now, false);
            ok && Later(sv, swept) && HaveCommits(swept) && AllLand(env, swept.requests)
  {
    var read := FullRead(env, sv, n, summary, now, None, 0);
    SweepDoesWhatIsDue(env, sv, n, summary, now, if read.Some? then read.value else summary);
    SweptLater(env, sv, n, summary, now, None, 0, false);
    CommitsStay(sv, Swept(env, sv, n, summary, now, false).0);
  }

  /** The k-th of the listed pull requests is swept, from `at` on. */
  lemma {:induction false} SweptAllReaches(env: Environment, sv: Server, listed: seq<Listed>, now: Time, i: nat, k: nat)
    returns (at: Server)
    requires Lawful(env) && AllLand(env, sv.requests) && HaveCommits(sv) && AreThere(listed, sv) && i <= |listed|
    ensures var (swept, ok) := SweptAll(env, sv, listed, now, i, false);
            ok && Later(sv, swept)
    ensures i <= k < |listed| ==>
              && Later(sv, at) && HaveCommits(at) && AllLand(env, at.requests) && listed[k].number in at.pulls
              && |listed[k].summary.commits| > 0
              && Later(Swept(env, at, listed[k].number, listed[k].summary, now, false).0,
                       SweptAll(env, sv, listed, now, i, false).0)
    decreases |listed| - i
  {
    at := sv;
    ArrivedLater(env, sv);
    SameLater(sv, Arrived(env, sv), sv);
    if i < |listed| {
      var next := Swept(env, sv, listed[i].number, listed[i].summary, now, false).0;
      SweepCompletes(env, sv, listed[i].number, listed[i].summary, now);
      var reached := SweptAllReaches(env, next, listed, now, i + 1, k);
      LaterTwice(sv, next, SweptAll(env, next, listed, now, i + 1, false).0);
      if k > i {
        at := reached;
        if k < |listed| {
          LaterTwice(sv, next, at);
        }
      }
    }
  }

  /** Whatever is listed is swept. */
  lemma {:induction false} ListedIsSwept(env: Environment, sv: Server, listed: seq<Listed>, now: Time, entry: Listed)
    returns (at: Server)
    requires Lawful(env) && AllLand(env, sv.requests) && HaveCommits(sv) && AreThere(listed, sv)
    ensures var (swept, ok) := SweptAll(env, sv, listed, now, 0, false);
            && ok
            && (entry in listed ==>
                  && Later(sv, at) && HaveCommits(at) && AllLand(env, at.requests) && entry.number in at.pulls
                  && |entry.summary.commits| > 0
                  && Later(Swept(env, at, entry.number, entry.summary, now, false).0, swept))
  {
    if entry in listed {
      var k :| 0 <= k < |listed| && listed[k] == entry;
      at := SweptAllReaches(env, sv, listed, now, 0, k);
    } else {
      at := SweptAllReaches(env, sv, listed, now, 0, 0);
    }
  }

  /** The summary of the j-th pull request is read at `read`, and listed if the pull
      request is open then and not exempt. */
  lemma {:induction false} SummariesReach(env: Environment, sv: Server, order: seq<nat>, i: nat, before: seq<Listed>,
                                          j: nat)
    returns (read: Server)
    requires Lawful(env) && AllLand(env, sv.requests) && HaveCommits(sv)
    requires i <= |order| && forall k | 0 <= k < |order| :: order[k] in sv.pulls
    ensures var (last, listed) := Summaries(env, sv, order, i, before);
            && listed.Some? && before <= listed.value && Later(sv, last)
            && HaveCommits(last) && AllLand(env, last.requests)
            && (i <= j < |order| ==>
                  && Later(sv, read) && Later(read, last) && HaveCommits(read) && order[j] in read.pulls
                  && (IsListed(read.pulls[order[j]]) ==> Listed(order[j], read.pulls[order[j]]) in listed.value))
    decreases |order| - i
  {
    read := sv;
    ArrivedLater(env, sv);
    SameLater(sv, Arrived(env, sv), sv);
    if i < |order| {
      var next := Arrived(env, sv);
      var more := WithSummary(before, order[i], next.pulls[order[i]]);
      CommitsStay(sv, next);
      var reached := SummariesReach(env, next, order, i + 1, more, j);
      var (last, listed) := Summaries(env, next, order, i + 1, more);
      LaterTwice(sv, next, last);
      if j == i {
        read := next;
        if IsListed(read.pulls[order[j]]) {
          assert more[|before|] == Listed(order[j], read.pulls[order[j]]);
          assert listed.value[|before|] == more[|before|];
        }
      } else if i < j < |order| {
        read := reached;
        LaterTwice(sv, next, read);
      }
    }
  }

  /** A run whose requests succeed completes, and sweeps every pull request of its
      list that is open, and not exempt, when its summary is read; what the sweep has
      posted stays. */
  lemma {:induction false} RunSweepsAll(env: Environment, sv: Server, order: seq<nat>, now: Time, j: nat)
    returns (read: Server, at: Server)
    requires Lawful(env) && AllLand(env, sv.requests) && HaveCommits(sv)
    requires j < |order| && forall k | 0 <= k < |order| :: order[k] in sv.pulls
    ensures var (last, completed) := RunOf(env, sv, order, now, false);
            var n := order[j];
            && completed && Later(sv, read) && n in read.pulls
            && (read.pulls[n].closedAt.None? && NeverStale !in read.pulls[n].labels ==>
                  && Later(read, at) && n in at.pulls && HaveCommits(at) && AllLand(env, at.requests)
                  && |read.pulls[n].commits| > 0
                  && Later(Swept(env, at, n, read.pulls[n], now, false).0, last))
  {
    SummariesAreThere(env, sv, order, 0, []);
    read := SummariesReach(env, sv, order, 0, [], j);
    var (last, listed) := Summaries(env, sv, order, 0, []);
    at := ListedIsSwept(env, last, listed.value, now, Listed(order[j], read.pulls[order[j]]));
    if IsListed(read.pulls[order[j]]) {
      LaterTwice(read, last, at);
    }
  }
}
