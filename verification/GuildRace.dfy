/** Two runs in which a reply crosses a write of the sweep: it crosses the check-in
    and costs the assignee the 14 days before it, or it crosses the clearing. */
module GuildRace {
  import opened Wrappers
  import opened GuildStale
  import opened GuildSafety

  const A: Login := "a"
  const ASSIGNED := Assignment(A, 0)
  const REPLY := Comment(A, false, 14 * DAY + 60)
  const CHECKED := Comment(BOT, true, 14 * DAY + 60)
  const CLEARED: Time := 21 * DAY + 60

  lemma {:induction false} Extend(events: seq<Event>, s: State, e: Event, t: State)
    requires Exec(Fresh(0), events) == Some(s) && Next(s, e) == Some(t)
    ensures Exec(Fresh(0), events + [e]) == Some(t)
  {
    ExtendFrom(Fresh(0), events, s, e, t);
  }

  lemma {:induction false} ExtendFrom(s0: State, events: seq<Event>, s: State, e: Event, t: State)
    requires Exec(s0, events) == Some(s) && Next(s, e) == Some(t)
    ensures Exec(s0, events + [e]) == Some(t)
    decreases |events|
  {
    if events == [] {
      assert ([] + [e])[1..] == [];
    } else {
      assert (events + [e])[1..] == events[1..] + [e];
      ExtendFrom(Next(s0, events[0]).value, events[1..], s, e, t);
    }
  }

  /** A sweep reads everything at one moment. */
  lemma {:induction false} Sweeps(events: seq<Event>, s: State) returns (more: seq<Event>, t: State)
    requires Exec(Fresh(0), events) == Some(s) && s.sweep.None? && s.issue.assignee == Some(A)
    ensures Exec(Fresh(0), more) == Some(t)
    ensures var mark := Mark(|s.issue.assignments|, |s.issue.comments|, |s.checkIns|, s.clock);
            t == s.(sweep := Some(Sweep(s.clock, A, mark, Some(s.issue.comments), Some(s.issue.assignments))))
  {
    var begun := Next(s, Begin(s.clock)).value;
    Extend(events, s, Begin(s.clock), begun);
    var read := Next(begun, ReadComments).value;
    Extend(events + [Begin(s.clock)], begun, ReadComments, read);
    t := Next(read, ReadAssignments).value;
    more := events + [Begin(s.clock)] + [ReadComments] + [ReadAssignments];
    Extend(events + [Begin(s.clock)] + [ReadComments], read, ReadAssignments, t);
  }

  lemma {:induction false} ClearingIsDue()
    ensures ActivityOf([REPLY, CHECKED], [ASSIGNED], A) == 14 * DAY + 60
    ensures LatestCheckIn([REPLY, CHECKED], 2) == Some(14 * DAY + 60)
    ensures Decide(CLEARED, 14 * DAY + 60, Some(14 * DAY + 60)) == Clear
  {
    var log := [REPLY, CHECKED];
    assert LastActivity(log, A, 0, 0) == 0 && LastActivity(log, A, 0, 1) == 14 * DAY + 60;
    assert LatestCheckIn(log, 0) == None && LatestCheckIn(log, 1) == None;
  }

  /** The reply lands after the sweep has read and before its check-in. */
  lemma {:induction false} CrossedCheckIn() returns (events: seq<Event>, s: State)
    ensures Exec(Fresh(0), events) == Some(s) && s.sweep.None? && s.issue.assignee == Some(A)
    ensures s.issue == Issue(Some(A), [ASSIGNED], [REPLY, CHECKED]) && s.clock == 14 * DAY + 60 && s.clearings == []
    ensures |s.checkIns| == 1 && s.checkIns[0].ended.at == 14 * DAY + 60 && Prompt(s)
  {
    var s1 := Next(Fresh(0), Assign(A)).value;
    Extend([], Fresh(0), Assign(A), s1);
    var s2 := s1.(clock := 14 * DAY);
    Extend([] + [Assign(A)], s1, Tick(14 * DAY), s2);
    assert s2.issue.assignments == [ASSIGNED];
    var read, s3 := Sweeps([] + [Assign(A)] + [Tick(14 * DAY)], s2);
    var s4 := s3.(clock := 14 * DAY + 60);
    Extend(read, s3, Tick(14 * DAY + 60), s4);
    var s5 := Next(s4, Say(A)).value;
    Extend(read + [Tick(14 * DAY + 60)], s4, Say(A), s5);
    s := Next(s5, Write(Landed)).value;
    events := read + [Tick(14 * DAY + 60)] + [Say(A)] + [Write(Landed)];
    Extend(read + [Tick(14 * DAY + 60)] + [Say(A)], s5, Write(Landed), s);
    assert s.issue.comments == [REPLY, CHECKED];
  }

  /** The assignee spoke, and is cleared 7 days later, after 7 quiet days in all. */
  lemma {:induction false} ClearedAfterSevenDays() returns (events: seq<Event>, s: State)
    ensures Exec(Fresh(0), events) == Some(s) && |s.clearings| == 1 && s.issue.assignee == None && Prompt(s)
    ensures GoodDeed(s, s.clearings[0]) && s.clearings[0].ended.at - ActivityAt(s, s.clearings[0]) == 7 * DAY
  {
    var before, s1 := CrossedCheckIn();
    var s2 := s1.(clock := CLEARED);
    Extend(before, s1, Tick(CLEARED), s2);
    var read, s3 := Sweeps(before + [Tick(CLEARED)], s2);
    ClearingIsDue();
    s := Next(s3, Write(Landed)).value;
    events := read + [Write(Landed)];
    Extend(read, s3, Write(Landed), s);
    ReachableInv(0, events);
    assert ClearingGood(s, s.clearings[0]);
  }

  // ---------- a reply that crosses the clearing ----------

  const ASKED := Comment(BOT, true, 14 * DAY)
  const LATE := Comment(A, false, 21 * DAY + 30)

  /** Nobody speaks, and the check-in comes on day 14. */
  lemma {:induction false} CheckedIn() returns (events: seq<Event>, s: State)
    ensures Exec(Fresh(0), events) == Some(s) && s.sweep.None? && s.clock == 14 * DAY && s.clearings == []
    ensures s.issue == Issue(Some(A), [ASSIGNED], [ASKED]) && |s.checkIns| == 1 && Prompt(s)
  {
    var s1 := Next(Fresh(0), Assign(A)).value;
    Extend([], Fresh(0), Assign(A), s1);
    var s2 := s1.(clock := 14 * DAY);
    Extend([] + [Assign(A)], s1, Tick(14 * DAY), s2);
    assert s2.issue.assignments == [ASSIGNED];
    var read, s3 := Sweeps([] + [Assign(A)] + [Tick(14 * DAY)], s2);
    s := Next(s3, Write(Landed)).value;
    events := read + [Write(Landed)];
    Extend(read, s3, Write(Landed), s);
    assert s.issue.comments == [ASKED];
  }

  lemma {:induction false} ClearingIsDueUnanswered()
    ensures ActivityOf([ASKED], [ASSIGNED], A) == 0 && LatestCheckIn([ASKED], 1) == Some(14 * DAY)
    ensures Decide(21 * DAY, 0, Some(14 * DAY)) == Clear
  {
    assert LastActivity([ASKED], A, 0, 0) == 0 && LatestCheckIn([ASKED], 0) == None;
  }

  /** The assignee answers when the clearing sweep has read, and is cleared. */
  lemma {:induction false} ClearedOnReply() returns (events: seq<Event>, s: State)
    ensures Exec(Fresh(0), events) == Some(s) && |s.clearings| == 1 && s.issue.assignee == None && Prompt(s)
    ensures GoodDeed(s, s.clearings[0]) && s.clearings[0].ended.at == ActivityAt(s, s.clearings[0])
  {
    var before, s1 := CheckedIn();
    var s2 := s1.(clock := 21 * DAY);
    Extend(before, s1, Tick(21 * DAY), s2);
    var read, s3 := Sweeps(before + [Tick(21 * DAY)], s2);
    ClearingIsDueUnanswered();
    var s4 := s3.(clock := 21 * DAY + 30);
    Extend(read, s3, Tick(21 * DAY + 30), s4);
    var s5 := Next(s4, Say(A)).value;
    Extend(read + [Tick(21 * DAY + 30)], s4, Say(A), s5);
    s := Next(s5, Write(Landed)).value;
    events := read + [Tick(21 * DAY + 30)] + [Say(A)] + [Write(Landed)];
    Extend(read + [Tick(21 * DAY + 30)] + [Say(A)], s5, Write(Landed), s);
    assert s.issue.comments == [ASKED, LATE];
    ReachableInv(0, events);
    assert ClearingGood(s, s.clearings[0]);
  }
}
