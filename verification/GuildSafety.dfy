/** What every run of the guild sweep keeps: when check-ins recur, what an
    assignment is cleared on, and exactly when 21 quiet days came before it. */
module GuildSafety {
  import opened Wrappers
  import opened GuildStale

  // ---------- the invariant ----------

  ghost predicate LogsOrdered(issue: Issue, clock: Time) {
    && (forall i, j | 0 <= i <= j < |issue.comments| :: issue.comments[i].at <= issue.comments[j].at)
    && (forall i, j | 0 <= i <= j < |issue.assignments| :: issue.assignments[i].at <= issue.assignments[j].at)
    && (forall i | 0 <= i < |issue.comments| :: issue.comments[i].at <= clock)
    && (forall i | 0 <= i < |issue.assignments| :: issue.assignments[i].at <= clock)
    && (issue.assignee.Some? ==>
          |issue.assignments| > 0 && issue.assignments[|issue.assignments| - 1].who == issue.assignee.value)
  }

  /** The k-th check-in is the comment at the k-th place, and there are no other
      check-ins. */
  ghost predicate Placed(s: State) {
    && |s.places| == |s.checkIns|
    && (forall k | 0 <= k < |s.places| :: s.places[k] < |s.issue.comments|)
    && (forall j, k | 0 <= j < k < |s.places| :: s.places[j] < s.places[k])
    && (forall k | 0 <= k < |s.places| ::
          s.issue.comments[s.places[k]].checkIn && s.issue.comments[s.places[k]].at == s.checkIns[k].ended.at)
    && (forall i | 0 <= i < |s.issue.comments| && s.issue.comments[i].checkIn :: i in s.places)
  }

  /** A sweep for `who` could begin at the mark, and what came before and after it
      is so in time as well. */
  ghost predicate GoodMark(s: State, m: Mark, who: Login) {
    && 0 < m.assignments <= |s.issue.assignments| && s.issue.assignments[m.assignments - 1].who == who
    && m.comments <= |s.issue.comments| && m.checkIns <= |s.checkIns| && m.at <= s.clock
    && (forall i | m.comments <= i < |s.issue.comments| :: s.issue.comments[i].at >= m.at)
    && (forall i | m.assignments <= i < |s.issue.assignments| :: s.issue.assignments[i].at >= m.at)
    && (forall k | 0 <= k < |s.places| :: s.places[k] < m.comments <==> k < m.checkIns)
  }

  /** What was read at or after the mark, before any later check-in. */
  ghost predicate GoodRead(s: State, m: Mark, comments: seq<Comment>, assignments: seq<Assignment>) {
    && comments <= s.issue.comments && m.comments <= |comments|
    && assignments <= s.issue.assignments && m.assignments <= |assignments|
    && (forall k | m.checkIns <= k < |s.places| :: s.places[k] >= |comments|)
  }

  /** What was there when a deed landed: all it had read, nothing later, and
      everything that is not later. */
  ghost predicate GoodEnd(s: State, d: Deed) {
    && |d.comments| <= d.ended.comments <= |s.issue.comments|
    && |d.assignments| <= d.ended.assignments <= |s.issue.assignments|
    && (forall i | 0 <= i < d.ended.comments :: s.issue.comments[i].at <= d.ended.at)
    && (forall i | 0 <= i < d.ended.assignments :: s.issue.assignments[i].at <= d.ended.at)
    && (forall i | d.ended.comments <= i < |s.issue.comments| :: s.issue.comments[i].at >= d.ended.at)
    && (forall i | d.ended.assignments <= i < |s.issue.assignments| :: s.issue.assignments[i].at >= d.ended.at)
  }

  ghost predicate GoodDeed(s: State, d: Deed) {
    && GoodMark(s, d.begun, d.who)
    && GoodRead(s, d.begun, d.comments, d.assignments)
    && GoodEnd(s, d)
    && d.now <= d.begun.at <= d.ended.at <= s.clock
    && LatestAssignment(d.assignments, d.who, |d.assignments|).Some?
  }

  function DeedDecision(d: Deed): Decision
    requires LatestAssignment(d.assignments, d.who, |d.assignments|).Some?
  {
    Decide(d.now, ActivityOf(d.comments, d.assignments, d.who), LatestCheckIn(d.comments, |d.comments|))
  }

  /** The k-th check-in was decided on, and all it read was there when any later
      sweep began. */
  ghost predicate GoodCheckIn(s: State, k: nat)
    requires k < |s.checkIns|
  {
    var d := s.checkIns[k];
    GoodDeed(s, d) && DeedDecision(d) == CheckIn && d.begun.checkIns == k
  }

  ghost predicate GoodClearing(s: State, d: Deed) {
    GoodDeed(s, d) && DeedDecision(d) == Clear
  }

  /** Check-ins before the mark had been read for, and had landed, by then. */
  ghost predicate Precedes(d: Deed, m: Mark) {
    |d.comments| <= m.comments && |d.assignments| <= m.assignments && d.ended.at <= m.at
  }

  ghost predicate AllPrecede(s: State, m: Mark) {
    forall k {:trigger s.checkIns[k]} | 0 <= k < m.checkIns && k < |s.checkIns| :: Precedes(s.checkIns[k], m)
  }

  ghost predicate GoodSweep(s: State, sweep: Sweep) {
    && GoodMark(s, sweep.begun, sweep.who) && AllPrecede(s, sweep.begun)
    && sweep.begun.checkIns == |s.checkIns| && sweep.now <= sweep.begun.at
    && (sweep.comments.Some? ==> GoodRead(s, sweep.begun, sweep.comments.value, s.issue.assignments))
    && (sweep.assignments.Some? ==> GoodRead(s, sweep.begun, s.issue.comments, sweep.assignments.value))
  }

  ghost predicate CheckInGood(s: State, k: nat)
    requires k < |s.checkIns|
  {
    GoodCheckIn(s, k) && AllPrecede(s, s.checkIns[k].begun)
  }

  ghost predicate ClearingGood(s: State, d: Deed) {
    GoodClearing(s, d) && AllPrecede(s, d.begun)
  }

  ghost predicate CheckInsGood(s: State) {
    forall k {:trigger CheckInGood(s, k)} | 0 <= k < |s.checkIns| :: CheckInGood(s, k)
  }

  ghost predicate ClearingsGood(s: State) {
    forall k {:trigger ClearingGood(s, s.clearings[k])} | 0 <= k < |s.clearings| :: ClearingGood(s, s.clearings[k])
  }

  ghost predicate Inv(s: State) {
    && LogsOrdered(s.issue, s.clock) && Placed(s) && CheckInsGood(s) && ClearingsGood(s)
    && (s.sweep.Some? ==> GoodSweep(s, s.sweep.value))
  }

  // ---------- every step keeps it ----------

  /** The logs only grow, in time, by anything but check-ins. */
  ghost predicate Grown(s: State, t: State) {
    && s.issue.comments <= t.issue.comments && s.issue.assignments <= t.issue.assignments
    && s.clock <= t.clock
    && (forall i | |s.issue.comments| <= i < |t.issue.comments| ::
          t.issue.comments[i].at >= s.clock && !t.issue.comments[i].checkIn)
    && (forall i | |s.issue.assignments| <= i < |t.issue.assignments| :: t.issue.assignments[i].at >= s.clock)
    && t.places == s.places && t.checkIns == s.checkIns
  }

  lemma {:induction false} CheckInsStay(s: State, t: State)
    requires CheckInsGood(s) && Grown(s, t)
    ensures CheckInsGood(t)
  {
    forall k | 0 <= k < |t.checkIns| ensures CheckInGood(t, k) {
      assert CheckInGood(s, k);
    }
  }

  lemma {:induction false} ClearingStays(s: State, t: State, d: Deed)
    requires Grown(s, t) && ClearingGood(s, d)
    ensures ClearingGood(t, d)
  {
  }

  lemma {:induction false} ClearingsStay(s: State, t: State)
    requires ClearingsGood(s) && Grown(s, t) && t.clearings == s.clearings
    ensures ClearingsGood(t)
  {
    forall k | 0 <= k < |t.clearings| ensures ClearingGood(t, t.clearings[k]) {
      assert ClearingGood(s, s.clearings[k]);
      ClearingStays(s, t, s.clearings[k]);
    }
  }

  /** The world moves, or a sweep ends without writing. */
  lemma {:induction false} WorldKeeps(s: State, t: State)
    requires Inv(s) && Grown(s, t) && t.clearings == s.clearings && (t.sweep.None? || t.sweep == s.sweep)
    requires LogsOrdered(t.issue, t.clock)
    ensures Inv(t)
  {
    CheckInsStay(s, t);
    ClearingsStay(s, t);
  }

  lemma {:induction false} BeginKeeps(s: State, t: State, now: Time)
    requires Inv(s) && Next(s, Begin(now)) == Some(t)
    ensures Inv(t)
  {
    CheckInsStay(s, t);
    ClearingsStay(s, t);
    forall k | 0 <= k < |s.checkIns| ensures Precedes(s.checkIns[k], t.sweep.value.begun) {
      assert CheckInGood(s, k);
    }
  }

  lemma {:induction false} ReadKeeps(s: State, t: State)
    requires Inv(s) && (Next(s, ReadComments) == Some(t) || Next(s, ReadAssignments) == Some(t))
    ensures Inv(t)
  {
    CheckInsStay(s, t);
    ClearingsStay(s, t);
  }

  lemma {:induction false} ClearingsAfter(s: State, t: State, d: Deed)
    requires ClearingsGood(s) && ClearingGood(s, d) && Grown(s, t) && t.clearings == s.clearings + [d]
    ensures ClearingsGood(t)
  {
    forall k | 0 <= k < |t.clearings| ensures ClearingGood(t, t.clearings[k]) {
      if k < |s.clearings| {
        assert ClearingGood(s, s.clearings[k]);
      }
      ClearingStays(s, t, t.clearings[k]);
    }
  }

  /** What a sweep has read makes a good deed. */
  lemma {:induction false} SweepDeed(s: State, sweep: Sweep)
    requires Inv(s) && s.sweep == Some(sweep) && HasRead(sweep)
    ensures GoodDeed(s, DeedOf(s, sweep)) && AllPrecede(s, sweep.begun)
  {
  }

  lemma {:induction false} ClearingKeeps(s: State, t: State, sweep: Sweep)
    requires Inv(s) && s.sweep == Some(sweep) && HasRead(sweep) && DecisionOf(sweep).Clear?
    requires t == LandClearing(s, sweep).(sweep := None)
    ensures Inv(t)
  {
    SweepDeed(s, sweep);
    CheckInsStay(s, t);
    ClearingsAfter(s, t, DeedOf(s, sweep));
  }

  /** A check-in lands behind everything that was ever read. */
  lemma {:induction false} DeedBefore(s: State, t: State, sweep: Sweep, d: Deed)
    requires Placed(s) && HasRead(sweep) && t == LandCheckIn(s, sweep).(sweep := None)
    requires GoodDeed(s, d) && AllPrecede(s, d.begun)
    ensures GoodDeed(t, d) && AllPrecede(t, d.begun)
  {
    assert |d.comments| <= |s.issue.comments|;
  }

  lemma {:induction false} CheckInPlaced(s: State, t: State, sweep: Sweep)
    requires Placed(s) && HasRead(sweep) && t == LandCheckIn(s, sweep).(sweep := None)
    ensures Placed(t)
  {
    assert t.places[|s.places|] == |s.issue.comments|;
    forall i | 0 <= i < |t.issue.comments| && t.issue.comments[i].checkIn ensures i in t.places {
      if i < |s.issue.comments| {
        assert i in s.places;
      }
    }
  }

  lemma {:induction false} CheckInsAfter(s: State, t: State, sweep: Sweep, d: Deed)
    requires Placed(s) && CheckInsGood(s) && HasRead(sweep) && t == LandCheckIn(s, sweep).(sweep := None)
    requires d == DeedOf(s, sweep) && GoodDeed(s, d) && AllPrecede(s, d.begun)
    requires DeedDecision(d) == CheckIn && d.begun.checkIns == |s.checkIns|
    ensures CheckInsGood(t)
  {
    forall k | 0 <= k < |t.checkIns| ensures CheckInGood(t, k) {
      var e := t.checkIns[k];
      if k < |s.checkIns| {
        assert CheckInGood(s, k);
      }
      DeedBefore(s, t, sweep, e);
    }
  }

  lemma {:induction false} ClearingsBefore(s: State, t: State, sweep: Sweep)
    requires Placed(s) && ClearingsGood(s) && HasRead(sweep) && t == LandCheckIn(s, sweep).(sweep := None)
    ensures ClearingsGood(t)
  {
    forall k | 0 <= k < |t.clearings| ensures ClearingGood(t, t.clearings[k]) {
      assert ClearingGood(s, s.clearings[k]);
      DeedBefore(s, t, sweep, s.clearings[k]);
    }
  }

  lemma {:induction false} CheckInOrdered(s: State, t: State, sweep: Sweep)
    requires LogsOrdered(s.issue, s.clock) && HasRead(sweep) && t == LandCheckIn(s, sweep).(sweep := None)
    ensures LogsOrdered(t.issue, t.clock)
  {
  }

  lemma {:induction false} CheckInKeeps(s: State, t: State, sweep: Sweep, d: Deed)
    requires LogsOrdered(s.issue, s.clock) && Placed(s) && CheckInsGood(s) && ClearingsGood(s) && HasRead(sweep)
    requires d == DeedOf(s, sweep) && GoodDeed(s, d) && AllPrecede(s, d.begun)
    requires DeedDecision(d) == CheckIn && d.begun.checkIns == |s.checkIns|
    requires t == LandCheckIn(s, sweep).(sweep := None)
    ensures Inv(t)
  {
    CheckInOrdered(s, t, sweep);
    CheckInPlaced(s, t, sweep);
    CheckInsAfter(s, t, sweep, d);
    ClearingsBefore(s, t, sweep);
  }

  lemma {:induction false} WriteKeeps(s: State, t: State, outcome: Outcome)
    requires Inv(s) && Next(s, Write(outcome)) == Some(t)
    ensures Inv(t)
  {
    var sweep := s.sweep.value;
    if outcome.Lost? {
      WorldKeeps(s, t);
    } else if DecisionOf(sweep).CheckIn? {
      SweepDeed(s, sweep);
      CheckInKeeps(s, t, sweep, DeedOf(s, sweep));
    } else {
      ClearingKeeps(s, t, sweep);
    }
  }

  predicate OfTheWorld(e: Event) {
    e.Tick? || e.Assign? || e.Unassign? || e.Say? || e.Stop?
  }

  lemma {:induction false} WorldGrows(s: State, e: Event, t: State)
    requires Inv(s) && OfTheWorld(e) && Next(s, e) == Some(t)
    ensures Grown(s, t) && LogsOrdered(t.issue, t.clock)
  {
  }

  lemma {:induction false} StepKeeps(s: State, e: Event, t: State)
    requires Inv(s) && Next(s, e) == Some(t)
    ensures Inv(t)
  {
    match e {
      case Begin(now) => BeginKeeps(s, t, now);
      case ReadComments => ReadKeeps(s, t);
      case ReadAssignments => ReadKeeps(s, t);
      case Write(outcome) => WriteKeeps(s, t, outcome);
      case _ =>
        WorldGrows(s, e, t);
        WorldKeeps(s, t);
    }
  }

  /** The invariant holds in every run. */
  lemma {:induction false} RunKeeps(s: State, events: seq<Event>)
    requires Inv(s) && Exec(s, events).Some?
    ensures Inv(Exec(s, events).value)
    decreases |events|
  {
    if events != [] {
      StepKeeps(s, events[0], Next(s, events[0]).value);
      RunKeeps(Next(s, events[0]).value, events[1..]);
    }
  }

  lemma {:induction false} ReachableInv(clock: Time, events: seq<Event>)
    requires Exec(Fresh(clock), events).Some?
    ensures Inv(Exec(Fresh(clock), events).value)
  {
    assert Inv(Fresh(clock));
    RunKeeps(Fresh(clock), events);
  }

  // ---------- check-ins ----------

  function ActivityOfDeed(d: Deed): Time
    requires LatestAssignment(d.assignments, d.who, |d.assignments|).Some?
  {
    ActivityOf(d.comments, d.assignments, d.who)
  }

  /** In every run, between two check-ins the assignee of the second was active:
      no quiet period gets two, and they are more than 14 days apart. */
  lemma {:induction false} OneCheckInPerQuietPeriod(clock: Time, events: seq<Event>, j: nat, k: nat)
    requires Exec(Fresh(clock), events).Some?
    requires j < k < |Exec(Fresh(clock), events).value.checkIns|
    ensures var s := Exec(Fresh(clock), events).value;
            LatestAssignment(s.checkIns[k].assignments, s.checkIns[k].who, |s.checkIns[k].assignments|).Some? &&
            s.checkIns[j].ended.at < ActivityOfDeed(s.checkIns[k]) &&
            ActivityOfDeed(s.checkIns[k]) + CHECK_IN_AFTER_DAYS * DAY <= s.checkIns[k].ended.at
  {
    ReachableInv(clock, events);
    var s := Exec(Fresh(clock), events).value;
    CheckInsApart(s, j, k);
  }

  lemma {:induction false} CheckInAfterQuiet(s: State, k: nat)
    requires Inv(s) && k < |s.checkIns|
    ensures GoodCheckIn(s, k)
    ensures ActivityOfDeed(s.checkIns[k]) + CHECK_IN_AFTER_DAYS * DAY <= s.checkIns[k].now
    ensures var last := LatestCheckIn(s.checkIns[k].comments, |s.checkIns[k].comments|);
            last.None? || last.value < ActivityOfDeed(s.checkIns[k])
  {
    assert CheckInGood(s, k);
  }

  lemma {:induction false} CheckInsApart(s: State, j: nat, k: nat)
    requires Inv(s) && j < k < |s.checkIns|
    ensures GoodCheckIn(s, k)
    ensures s.checkIns[j].ended.at < ActivityOfDeed(s.checkIns[k])
    ensures ActivityOfDeed(s.checkIns[k]) + CHECK_IN_AFTER_DAYS * DAY <= s.checkIns[k].ended.at
  {
    CheckInAfterQuiet(s, k);
  }

  // ---------- clearings ----------

  /** A clearing follows a check-in that landed at least 7 days before, at or
      after the last activity of its assignee that was read: so not before the
      assignment, and never one from an earlier assignment. */
  lemma {:induction false} ClearingFollowsCheckIn(s: State, c: nat)
    requires Inv(s) && c < |s.clearings|
    ensures var d := s.clearings[c];
            GoodDeed(s, d) && 0 < d.begun.checkIns <= |s.checkIns| &&
            var p := s.checkIns[d.begun.checkIns - 1];
            && ActivityOfDeed(d) <= p.ended.at
            && p.ended.at + AUTO_CLEAR_AFTER_DAYS * DAY <= d.now
            && LatestAssignment(d.assignments, d.who, |d.assignments|).value <= p.ended.at
  {
    var d := s.clearings[c];
    assert ClearingGood(s, d);
  }

  /** The last activity of the assignee on the issue when the deed landed. */
  ghost function ActivityAt(s: State, d: Deed): Time
    requires GoodDeed(s, d)
  {
    var assignedAt := LatestAssignment(s.issue.assignments, d.who, d.ended.assignments);
    assert d.assignments <= s.issue.assignments;
    LastActivity(s.issue.comments, d.who, assignedAt.value, d.ended.comments)
  }

  /** From the mark until the deed landed, its assignee was assigned or spoke. */
  ghost predicate Stirred(s: State, m: Mark, d: Deed)
    requires d.ended.comments <= |s.issue.comments| && d.ended.assignments <= |s.issue.assignments|
  {
    || (exists i | m.comments <= i < d.ended.comments :: Speaks(s.issue.comments[i], d.who))
    || (exists i | m.assignments <= i < d.ended.assignments :: s.issue.assignments[i].who == d.who)
  }

  /** The assignee did nothing since the first deed's sweep began, so its last
      activity is the one that sweep has read. */
  lemma {:induction false} ActivityUnchanged(s: State, p: Deed, d: Deed)
    requires GoodDeed(s, p) && GoodDeed(s, d) && Precedes(p, d.begun) && p.who == d.who && !Stirred(s, p.begun, d)
    ensures ActivityOfDeed(p) == ActivityAt(s, d)
  {
  }

  /** Then the check-in went to the assignee that is cleared. */
  lemma {:induction false} SameAssignee(s: State, p: Deed, d: Deed)
    requires GoodDeed(s, p) && GoodDeed(s, d) && Precedes(p, d.begun) && !Stirred(s, p.begun, d)
    ensures p.who == d.who
  {
    assert s.issue.assignments[d.begun.assignments - 1].who == d.who;
    assert d.begun.assignments == p.begun.assignments;
  }

  lemma {:induction false} StirredIsRecent(s: State, p: Deed, d: Deed)
    requires GoodDeed(s, p) && GoodDeed(s, d) && Stirred(s, p.begun, d)
    ensures ActivityAt(s, d) >= p.begun.at
  {
    if i :| p.begun.comments <= i < d.ended.comments && Speaks(s.issue.comments[i], d.who) {
      assert s.issue.comments[i].at >= p.begun.at;
    } else {
      var i :| p.begun.assignments <= i < d.ended.assignments && s.issue.assignments[i].who == d.who;
      assert s.issue.assignments[i].at >= p.begun.at;
    }
  }

  /** What a clearing promises: by the time it lands, its assignee has been quiet
      for 21 days, 14 of them before the one check-in in that time, which was for
      the same assignee, and 7 after it. */
  ghost predicate KeepsPromise(s: State, d: Deed)
    requires GoodDeed(s, d) && 0 < d.begun.checkIns <= |s.checkIns|
  {
    var k := d.begun.checkIns - 1;
    && s.checkIns[k].who == d.who
    && ActivityAt(s, d) + CHECK_IN_AFTER_DAYS * DAY <= s.checkIns[k].ended.at
    && s.checkIns[k].ended.at + AUTO_CLEAR_AFTER_DAYS * DAY <= d.ended.at
    && forall j | 0 <= j < k :: s.checkIns[j].ended.at < ActivityAt(s, d)
  }

  lemma {:induction false} QuietClearing(s: State, c: nat)
    requires Inv(s) && c < |s.clearings| && 0 < s.clearings[c].begun.checkIns <= |s.checkIns|
    requires GoodDeed(s, s.clearings[c])
    requires !Stirred(s, s.checkIns[s.clearings[c].begun.checkIns - 1].begun, s.clearings[c])
    ensures KeepsPromise(s, s.clearings[c])
  {
    var d := s.clearings[c];
    var k := d.begun.checkIns - 1;
    ClearingFollowsCheckIn(s, c);
    assert ClearingGood(s, d);
    CheckInAfterQuiet(s, k);
    SameAssignee(s, s.checkIns[k], d);
    ActivityUnchanged(s, s.checkIns[k], d);
    forall j | 0 <= j < k ensures s.checkIns[j].ended.at < ActivityAt(s, d) {
      CheckInsApart(s, j, k);
    }
  }

  /** No check-in lands 14 days or more after its sweep began. */
  ghost predicate Prompt(s: State) {
    forall k | 0 <= k < |s.checkIns| :: s.checkIns[k].ended.at < s.checkIns[k].begun.at + CHECK_IN_AFTER_DAYS * DAY
  }

  /** In every run whose check-in sweeps take less than 14 days: a clearing keeps
      its promise if and only if its assignee did nothing from when the sweep of
      the check-in it follows began until the clearing landed. */
  lemma {:induction false} ClearingKeepsPromiseIff(clock: Time, events: seq<Event>, c: nat)
    requires Exec(Fresh(clock), events).Some?
    requires c < |Exec(Fresh(clock), events).value.clearings|
    requires Prompt(Exec(Fresh(clock), events).value)
    ensures var s := Exec(Fresh(clock), events).value;
            var d := s.clearings[c];
            GoodDeed(s, d) && 0 < d.begun.checkIns <= |s.checkIns| &&
            (KeepsPromise(s, d) <==> !Stirred(s, s.checkIns[d.begun.checkIns - 1].begun, d))
  {
    ReachableInv(clock, events);
    var s := Exec(Fresh(clock), events).value;
    var d := s.clearings[c];
    ClearingFollowsCheckIn(s, c);
    var p := s.checkIns[d.begun.checkIns - 1];
    if Stirred(s, p.begun, d) {
      assert CheckInGood(s, d.begun.checkIns - 1);
      StirredIsRecent(s, p, d);
    } else {
      QuietClearing(s, c);
    }
  }

  /** What stirs is one of two races: it crosses the check-in, or it crosses the
      clearing. All else is stamped in the very second of the check-in. */
  lemma {:induction false} StirsInARace(s: State, c: nat)
    requires Inv(s) && c < |s.clearings|
    ensures var d := s.clearings[c];
            GoodDeed(s, d) && 0 < d.begun.checkIns <= |s.checkIns| &&
            var p := s.checkIns[d.begun.checkIns - 1];
            && (forall i | p.ended.comments <= i < |d.comments| && Speaks(s.issue.comments[i], d.who) ::
                  s.issue.comments[i].at == p.ended.at)
            && (forall i | p.ended.assignments <= i < |d.assignments| && s.issue.assignments[i].who == d.who ::
                  s.issue.assignments[i].at == p.ended.at)
  {
    ClearingFollowsCheckIn(s, c);
    var d := s.clearings[c];
    var p := s.checkIns[d.begun.checkIns - 1];
    assert CheckInGood(s, d.begun.checkIns - 1);
    forall i | p.ended.comments <= i < |d.comments| && Speaks(s.issue.comments[i], d.who)
      ensures s.issue.comments[i].at == p.ended.at
    {
      assert d.comments[i] == s.issue.comments[i];
    }
    forall i | p.ended.assignments <= i < |d.assignments| && s.issue.assignments[i].who == d.who
      ensures s.issue.assignments[i].at == p.ended.at
    {
      assert d.assignments[i] == s.issue.assignments[i];
    }
  }
}
