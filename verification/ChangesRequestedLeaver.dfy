/** A run with a closing six days early: a reviewer leaves the staff. */
module ChangesRequestedLeaver {
  import opened Wrappers
  import opened PullRequests
  import opened CleanupActions
  import opened CleanupProtocol
  import opened CleanupSafety
  import opened ChangesRequestedSafety
  import opened ChangesRequestedPromise
  import opened ChangesRequestedSteady
  import opened ChangesRequestedRace

  const LEAVER := User("leaver")
  const BOTH := {REVIEWER, LEAVER}

  const LAST := Review(17 * DAY, Some(LEAVER), ChangesRequested)
  const ACK1 := Comment(16 * DAY, Some(CommunityBot), Marked(ChangesAck, Some(30)))
  const PING3 := Comment(31 * DAY, Some(CommunityBot), Marked(ChangesPing, Some(38)))

  lemma {:induction false} LeaverPing()
    ensures var pr := Pull([FIRST, LAST], [PING1, REPLY, ACK1]);
            ChangesAction(BOTH, pr, pr, 31 * DAY) == Some(Step(Ping, Some(PING3.text)))
  {
    var pr := Pull([FIRST, LAST], [PING1, REPLY, ACK1]);
    assert StaffChangeRequestAt(pr.reviews, BOTH) == Some(17 * DAY);
    assert ClockStart(pr.timeline, 17 * DAY) == 17 * DAY;
    assert AuthorSilentAfter(pr, 17 * DAY);
    assert AuthorCommentedAt(pr, 17 * DAY).None?;
  }

  /** Without the leaver the first request counts again. */
  lemma {:induction false} FirstCountsAgain()
    ensures StaffChangeRequestAt([FIRST, LAST], STAFF) == Some(0) && ClockStart([], 0) == 0
    ensures StaffChangeRequestAt([FIRST, LAST], BOTH) == Some(17 * DAY)
  {
    assert [FIRST, LAST][..1] == [FIRST];
  }

  lemma {:induction false} LeaverComments(pr: PullRequest)
    requires pr == Pull([FIRST, LAST], [PING1, REPLY, ACK1, PING3])
    ensures BotCommentedAt(pr.comments, ChangesClose, 0).None?
    ensures BotCommentedAt(pr.comments, ChangesAck, 0) == Some(16 * DAY)
    ensures BotCommentedAt(pr.comments, ChangesPing, 0).Some?
    ensures AuthorSilentAfter(pr, 16 * DAY)
  {
    assert pr.comments[0] == PING1 && pr.comments[1] == REPLY && pr.comments[2] == ACK1 && pr.comments[3] == PING3;
  }

  lemma {:induction false} LeaverClose()
    ensures var pr := Pull([FIRST, LAST], [PING1, REPLY, ACK1, PING3]);
            ChangesAction(STAFF, pr, pr, 32 * DAY) == Some(Step(Close, Some(Marked(ChangesClose, None))))
  {
    var pr := Pull([FIRST, LAST], [PING1, REPLY, ACK1, PING3]);
    FirstCountsAgain();
    LeaverComments(pr);
    AckIsOver(STAFF, pr, 0, 16 * DAY, 32 * DAY);
  }

  /** Ping, reply and acknowledgement in the epoch of the first request, then a
      request of the second reviewer. */
  lemma {:induction false} UntilSecondRequest(s0: State) returns (events: seq<Event>, s: State)
    requires s0 == Start(Pull([FIRST], []), 14 * DAY)
    ensures Exec(s0, events) == Some(s) && s.sweep.None? && s.steady && s.calm && s.team == Some(BOTH)
    ensures Punctual(s)
    ensures s.pr == Pull([FIRST, LAST], [PING1, REPLY, ACK1]) && s.clock == 31 * DAY
    ensures |s.posts| == 2 && s.posts[1].marker == ChangesAck && s.posts[1].cleanup == StaleChanges
    ensures s.posts[1].at == 16 * DAY && s.posts[1].index == 2
  {
    events := [];
    s := s0;
    events, s := Read(s0, events, s, 14 * DAY, BOTH);
    FirstPing(BOTH);
    events, s := Posting(s0, events, s, PING1.text);
    assert s.pr == Pull([FIRST], [PING1]);
    events, s := Reply(s0, events, s);
    events, s := Read(s0, events, s, 16 * DAY, BOTH);
    Acknowledgement(BOTH);
    events, s := Posting(s0, events, s, ACK1.text);
    assert s.pr == Pull([FIRST], [PING1, REPLY, ACK1]);
    events, s := SecondRequest(s0, events, s);
  }

  lemma {:induction false} SecondRequest(s0: State, events: seq<Event>, s: State)
    returns (events': seq<Event>, s': State)
    requires Exec(s0, events) == Some(s) && s.sweep.None? && s.clock == 16 * DAY
    requires s.pr == Pull([FIRST], [PING1, REPLY, ACK1])
    ensures Exec(s0, events') == Some(s')
    ensures s' == s.(pr := Pull([FIRST, LAST], [PING1, REPLY, ACK1]), clock := 31 * DAY)
  {
    var pr := Pull([FIRST, LAST], [PING1, REPLY, ACK1]);
    events', s' := events + [World(pr, 31 * DAY)], s.(pr := pr, clock := 31 * DAY);
    assert pr.reviews[0] == FIRST && pr.reviews[1] == LAST;
    Extend(s0, events, s, World(pr, 31 * DAY), s');
  }

  /** The ping of the second request's epoch, which names day 38. */
  lemma {:induction false} UntilSecondPing(s0: State) returns (events: seq<Event>, s: State)
    requires s0 == Start(Pull([FIRST], []), 14 * DAY)
    ensures Exec(s0, events) == Some(s) && s.sweep.None? && s.steady && s.calm && s.team == Some(BOTH)
    ensures s.pr == Pull([FIRST, LAST], [PING1, REPLY, ACK1, PING3]) && s.clock == 32 * DAY && Punctual(s)
    ensures |s.posts| == 3 && s.posts[1].marker == ChangesAck && s.posts[2].marker == ChangesPing
    ensures s.posts[1].cleanup == s.posts[2].cleanup == StaleChanges
    ensures s.posts[1].at == 16 * DAY && s.posts[1].index == 2 && s.posts[2].at == 31 * DAY && s.posts[2].index == 3
    ensures s.posts[2].promised == Some(38)
  {
    events, s := UntilSecondRequest(s0);
    events, s := Read(s0, events, s, 31 * DAY, BOTH);
    LeaverPing();
    events, s := Posting(s0, events, s, PING3.text);
    assert s.pr == Pull([FIRST, LAST], [PING1, REPLY, ACK1, PING3]);
    events, s := Wait(s0, events, s, 32 * DAY);
  }

  lemma {:induction false} NothingCrosses(p: Post)
    requires p.stood == p.full && RequestOf(p).Some?
    ensures !AnswerCrosses(p)
  {
  }

  /** Then its reviewer leaves, and the sweep of day 32 counts from the old
      acknowledgement. */
  lemma {:induction false} LeaverBreaksPromise() returns (s0: State, events: seq<Event>, s: State)
    ensures ReachableFrom(s0, events, s) && s.calm && !s.steady && Punctual(s)
    ensures |s.posts| == 4 && IsClosing(s, 2, 3) && PingAfterAck(s, 2, 3)
    ensures s.posts[2].promised == Some(38) && DateOf(s.posts[3].now) == 32
    ensures RequestOf(s.posts[3]).Some? && !AnswerCrosses(s.posts[3])
  {
    s0 := Start(Pull([FIRST], []), 14 * DAY);
    events, s := UntilSecondPing(s0);
    FirstCountsAgain();
    events, s := Read(s0, events, s, 32 * DAY, STAFF);
    LeaverClose();
    events, s := Posting(s0, events, s, Marked(ChangesClose, None));
    NothingCrosses(s.posts[3]);
    AckThenPing(s);
  }
}
