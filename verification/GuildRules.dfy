/** Exactly when the guild sweep checks in and clears, and how soon. */
module GuildRules {
  import opened Wrappers
  import opened GuildStale

  // ---------- what is due ----------

  /** Every assignment to `who` and every comment of theirs is at most that late. */
  ghost predicate NothingAfter(comments: seq<Comment>, assignments: seq<Assignment>, who: Login, t: Time) {
    && (forall i | 0 <= i < |assignments| && assignments[i].who == who :: assignments[i].at <= t)
    && (forall i | 0 <= i < |comments| && !comments[i].checkIn && comments[i].who == who :: comments[i].at <= t)
  }

  /** A check-in that `who` has done nothing after. */
  ghost predicate NudgeStands(comments: seq<Comment>, assignments: seq<Assignment>, who: Login) {
    exists i | 0 <= i < |comments| :: comments[i].checkIn && NothingAfter(comments, assignments, who, comments[i].at)
  }

  ghost predicate NoNudgeAfter(comments: seq<Comment>, t: Time) {
    forall i | 0 <= i < |comments| && comments[i].checkIn :: comments[i].at <= t
  }

  /** No check-in stands, and 14 days of 86400 seconds have passed since whatever
      `who` did. */
  ghost predicate CheckInDue(sweep: Sweep)
    requires HasRead(sweep)
  {
    var comments, assignments := sweep.comments.value, sweep.assignments.value;
    && !NudgeStands(comments, assignments, sweep.who)
    && NothingAfter(comments, assignments, sweep.who, sweep.now - 1209600)
  }

  /** A check-in stands, and 7 days have passed since the latest one. */
  ghost predicate ClearingDue(sweep: Sweep)
    requires HasRead(sweep)
  {
    var comments, assignments := sweep.comments.value, sweep.assignments.value;
    NudgeStands(comments, assignments, sweep.who) && NoNudgeAfter(comments, sweep.now - 604800)
  }

  /** The last activity is the least time after which nothing was done. */
  lemma {:induction false} ActivityIs(comments: seq<Comment>, assignments: seq<Assignment>, who: Login, t: Time)
    requires LatestAssignment(assignments, who, |assignments|).Some?
    ensures NothingAfter(comments, assignments, who, t) <==> ActivityOf(comments, assignments, who) <= t
  {
    var since := LatestAssignment(assignments, who, |assignments|).value;
    var activity := LastActivity(comments, who, since, |comments|);
    assert forall i | 0 <= i < |comments| && !comments[i].checkIn && comments[i].who == who :: Speaks(comments[i], who);
    if NothingAfter(comments, assignments, who, t) {
      assert since <= t;
    }
  }

  lemma {:induction false} NudgeStandsIff(comments: seq<Comment>, assignments: seq<Assignment>, who: Login)
    requires LatestAssignment(assignments, who, |assignments|).Some?
    ensures var nudge := LatestCheckIn(comments, |comments|);
            NudgeStands(comments, assignments, who)
            <==> nudge.Some? && ActivityOf(comments, assignments, who) <= nudge.value
  {
    var nudge := LatestCheckIn(comments, |comments|);
    if nudge.Some? {
      ActivityIs(comments, assignments, who, nudge.value);
    }
    if NudgeStands(comments, assignments, who) {
      var i :| 0 <= i < |comments| && comments[i].checkIn
               && NothingAfter(comments, assignments, who, comments[i].at);
      ActivityIs(comments, assignments, who, comments[i].at);
    }
  }

  /** A sweep checks in exactly when that is due, clears exactly when that is due,
      and waits otherwise. */
  lemma {:induction false} SweepRule(sweep: Sweep)
    requires HasRead(sweep)
    ensures DecisionOf(sweep).CheckIn? <==> CheckInDue(sweep)
    ensures DecisionOf(sweep).Clear? <==> ClearingDue(sweep)
  {
    var comments, assignments := sweep.comments.value, sweep.assignments.value;
    NudgeStandsIff(comments, assignments, sweep.who);
    ActivityIs(comments, assignments, sweep.who, sweep.now - 1209600);
  }

  /** A sweep that has read can write exactly when something is due. A check-in that
      lands is one more comment of the bot; a clearing that lands takes the assignee
      that was read off the issue and leaves another one. */
  lemma {:induction false} WriteRule(s: State, sweep: Sweep, outcome: Outcome)
    requires s.sweep == Some(sweep) && HasRead(sweep)
    ensures Next(s, Write(outcome)).Some? <==> CheckInDue(sweep) || ClearingDue(sweep)
    ensures Next(s, Write(outcome)).Some? ==>
              var before, after := s.issue, Next(s, Write(outcome)).value.issue;
              && after.assignments == before.assignments
              && after.comments == (if CheckInDue(sweep) && !outcome.Lost?
                                    then before.comments + [Comment(BOT, true, s.clock)] else before.comments)
              && after.assignee == (if ClearingDue(sweep) && !outcome.Lost? && before.assignee == Some(sweep.who)
                                    then None else before.assignee)
  {
    SweepRule(sweep);
  }

  // ---------- daily sweeps ----------

  /** A sweep that starts at `now` and writes, if it writes, at `at`. */
  datatype Visit = Visit(now: Time, at: Time)

  /** A day apart at most, each written within `delay`. */
  ghost predicate Daily(visits: seq<Visit>, from: Time, delay: Time) {
    visits != [] ==>
      && from <= visits[0].now <= from + 86400
      && visits[0].now <= visits[0].at <= visits[0].now + delay
      && (|visits| > 1 ==> visits[0].at <= visits[1].now)
      && Daily(visits[1..], visits[0].now, delay)
  }

  function Reading(v: Visit): seq<Event> {
    [Tick(v.now), Begin(v.now), ReadComments, ReadAssignments, Tick(v.at)]
  }

  /** One undisturbed sweep, which writes if it can and else stops. */
  function Swept(s: State, v: Visit): (t: Option<State>) {
    var read := Exec(s, Reading(v));
    if read.None? then None
    else
      var written := Next(read.value, Write(Landed));
      if written.Some? then written else Next(read.value, Stop)
  }

  /** Sweeps with nothing in between, while somebody is assigned. */
  function SweptAll(s: State, visits: seq<Visit>): Option<State>
    decreases |visits|
  {
    if visits == [] || s.issue.assignee.None? then Some(s)
    else
      var next := Swept(s, visits[0]);
      if next.None? then None else SweptAll(next.value, visits[1..])
  }

  /** Between sweeps, `who` assigned, who last did something at `t`. */
  ghost predicate Idle(s: State, who: Login, t: Time) {
    && s.sweep.None? && s.issue.assignee == Some(who)
    && (exists i | 0 <= i < |s.issue.assignments| :: s.issue.assignments[i].who == who)
    && IsLast(s.issue.comments, s.issue.assignments, who, t)
  }

  ghost predicate IsLast(comments: seq<Comment>, assignments: seq<Assignment>, who: Login, t: Time) {
    && NothingAfter(comments, assignments, who, t)
    && !NothingAfter(comments, assignments, who, t - 1)
  }

  /** The latest check-in is from `n`. */
  ghost predicate NudgedAt(comments: seq<Comment>, n: Time) {
    && NoNudgeAfter(comments, n)
    && exists i | 0 <= i < |comments| :: comments[i].checkIn && comments[i].at == n
  }

  ghost predicate NotNudgedSince(comments: seq<Comment>, t: Time) {
    NoNudgeAfter(comments, t - 1)
  }

  /** What the sweep has read when it may write. */
  lemma {:induction false} ReadsAll(s: State, who: Login, t: Time, v: Visit) returns (sweep: Sweep, read: State)
    requires Idle(s, who, t) && s.clock <= v.now <= v.at
    ensures Exec(s, Reading(v)) == Some(read) && read == s.(clock := v.at, sweep := Some(sweep))
    ensures sweep.now == v.now && sweep.who == who
    ensures sweep.comments == Some(s.issue.comments) && sweep.assignments == Some(s.issue.assignments)
    ensures HasRead(sweep)
  {
    var a := s.(clock := v.now);
    var b := Next(a, Begin(v.now)).value;
    var c := Next(b, ReadComments).value;
    var d := Next(c, ReadAssignments).value;
    read := d.(clock := v.at);
    sweep := read.sweep.value;
    var es := Reading(v);
    assert es[1..] == [Begin(v.now), ReadComments, ReadAssignments, Tick(v.at)];
    assert es[1..][1..] == [ReadComments, ReadAssignments, Tick(v.at)];
    assert es[1..][1..][1..] == [ReadAssignments, Tick(v.at)];
    assert es[1..][1..][1..][1..] == [Tick(v.at)];
    assert es[1..][1..][1..][1..][1..] == [];
    assert Exec(d, [Tick(v.at)]) == Some(read);
    assert Exec(c, [ReadAssignments, Tick(v.at)]) == Some(read);
    assert Exec(b, [ReadComments, ReadAssignments, Tick(v.at)]) == Some(read);
    assert Exec(a, [Begin(v.now), ReadComments, ReadAssignments, Tick(v.at)]) == Some(read);
  }

  /** Not nudged since: nothing for 14 days, then a check-in. */
  lemma {:induction false} WaitsThenChecksIn(s: State, who: Login, t: Time, v: Visit)
    requires Idle(s, who, t) && s.clock <= v.now <= v.at && NotNudgedSince(s.issue.comments, t)
    ensures Swept(s, v).Some?
    ensures v.now < t + 1209600 ==> Swept(s, v).value == s.(clock := v.at)
    ensures v.now >= t + 1209600 ==>
              var s' := Swept(s, v).value;
              && Idle(s', who, t) && NudgedAt(s'.issue.comments, v.at) && s'.clock == v.at
              && s'.issue == s.issue.(comments := s.issue.comments + [Comment(BOT, true, v.at)])
              && s'.clearings == s.clearings
  {
    var sweep, read := ReadsAll(s, who, t, v);
    var comments, assignments := s.issue.comments, s.issue.assignments;
    assert !NudgeStands(comments, assignments, who) by {
      forall i | 0 <= i < |comments| && comments[i].checkIn
        ensures !NothingAfter(comments, assignments, who, comments[i].at)
      {
        Stricter(comments, assignments, who, comments[i].at, t - 1);
      }
    }
    WriteRule(read, sweep, Landed);
    if v.now >= t + 1209600 {
      Looser(comments, assignments, who, t, v.now - 1209600);
      var more := comments + [Comment(BOT, true, v.at)];
      assert more[|comments|] == Comment(BOT, true, v.at);
      SameActivity(comments, assignments, who, BOT, v.at, t);
      SameActivity(comments, assignments, who, BOT, v.at, t - 1);
    } else {
      Stricter(comments, assignments, who, v.now - 1209600, t - 1);
    }
  }

  lemma {:induction false} Looser(comments: seq<Comment>, assignments: seq<Assignment>, who: Login, t: Time, u: Time)
    requires NothingAfter(comments, assignments, who, t) && t <= u
    ensures NothingAfter(comments, assignments, who, u)
  {
  }

  lemma {:induction false} Stricter(comments: seq<Comment>, assignments: seq<Assignment>, who: Login, t: Time, u: Time)
    requires !NothingAfter(comments, assignments, who, u) && t <= u
    ensures !NothingAfter(comments, assignments, who, t)
  {
    if NothingAfter(comments, assignments, who, t) {
      Looser(comments, assignments, who, t, u);
    }
  }

  /** A check-in is nothing that anybody did. */
  lemma {:induction false} SameActivity(comments: seq<Comment>, assignments: seq<Assignment>, who: Login,
                                        bot: Login, at: Time, t: Time)
    ensures NothingAfter(comments + [Comment(bot, true, at)], assignments, who, t)
            <==> NothingAfter(comments, assignments, who, t)
  {
    var more := comments + [Comment(bot, true, at)];
    assert forall i | 0 <= i < |comments| :: more[i] == comments[i];
  }

  /** Nudged at `n` and quiet since: nothing for 7 days, then the assignment is
      cleared. */
  lemma {:induction false} WaitsThenClears(s: State, who: Login, t: Time, n: Time, v: Visit)
    requires Idle(s, who, t) && s.clock <= v.now <= v.at && NudgedAt(s.issue.comments, n) && t <= n
    ensures Swept(s, v).Some?
    ensures v.now < n + 604800 ==> Swept(s, v).value == s.(clock := v.at)
    ensures v.now >= n + 604800 ==>
              var s' := Swept(s, v).value;
              && s'.issue == s.issue.(assignee := None) && s'.clock == v.at
              && |s'.clearings| == |s.clearings| + 1 && s'.clearings[|s.clearings|].ended.at == v.at
  {
    var sweep, read := ReadsAll(s, who, t, v);
    var comments, assignments := s.issue.comments, s.issue.assignments;
    var i :| 0 <= i < |comments| && comments[i].checkIn && comments[i].at == n;
    Looser(comments, assignments, who, t, n);
    assert NudgeStands(comments, assignments, who);
    WriteRule(read, sweep, Landed);
    SweepRule(sweep);
    if v.now < n + 604800 {
      assert !NoNudgeAfter(comments, v.now - 604800);
    }
  }

  /** A nudge from `n` that stands is followed by a clearing within 7 and 8 days,
      and the delay of the write. */
  lemma {:induction false} NudgedIsCleared(s: State, who: Login, t: Time, n: Time, visits: seq<Visit>,
                                           from: Time, delay: Time)
    requires Idle(s, who, t) && NudgedAt(s.issue.comments, n) && t <= n && from <= n + 604800
    requires Daily(visits, from, delay) && visits != [] && s.clock <= visits[0].now
    requires visits[|visits| - 1].now >= n + 604800
    ensures SweptAll(s, visits).Some?
    ensures var s' := SweptAll(s, visits).value;
            && s'.issue == s.issue.(assignee := None) && |s'.clearings| == |s.clearings| + 1
            && n + 604800 <= s'.clearings[|s.clearings|].ended.at <= n + 691200 + delay
    decreases |visits|
  {
    var v := visits[0];
    WaitsThenClears(s, who, t, n, v);
    if v.now < n + 604800 {
      assert visits[1..][|visits| - 2] == visits[|visits| - 1];
      NudgedIsCleared(s.(clock := v.at), who, t, n, visits[1..], v.now, delay);
    }
  }

  /** A quiet assignee whom no check-in has reached gets exactly one, 14 to 15 days
      after they last did something, and 7 to 8 days later is off the issue. */
  lemma {:induction false} QuietIsCleared(s: State, who: Login, t: Time, visits: seq<Visit>, from: Time, delay: Time)
    returns (n: Time)
    requires Idle(s, who, t) && NotNudgedSince(s.issue.comments, t) && from <= t + 1209600
    requires Daily(visits, from, delay) && visits != [] && s.clock <= visits[0].now
    requires visits[|visits| - 1].now >= t + 1900800 + delay
    ensures t + 1209600 <= n <= t + 1296000 + delay
    ensures SweptAll(s, visits).Some?
    ensures var s' := SweptAll(s, visits).value;
            && s'.issue == s.issue.(assignee := None, comments := s.issue.comments + [Comment(BOT, true, n)])
            && |s'.clearings| == |s.clearings| + 1
            && n + 604800 <= s'.clearings[|s.clearings|].ended.at <= n + 691200 + delay
    decreases |visits|
  {
    var v := visits[0];
    WaitsThenChecksIn(s, who, t, v);
    assert |visits| > 1 ==> visits[1..][|visits| - 2] == visits[|visits| - 1];
    if v.now < t + 1209600 {
      n := QuietIsCleared(s.(clock := v.at), who, t, visits[1..], v.now, delay);
    } else {
      n := v.at;
      NudgedIsCleared(Swept(s, v).value, who, t, n, visits[1..], v.now, delay);
    }
  }
}
