/** Two runs. Staff request changes again between a sweep's read and its
    acknowledgement, and the pull request is closed six days before the day the last
    notice named; or the author answers while the closing comment is on its way. */
module ChangesRequestedRace {
  import opened Wrappers
  import opened PullRequests
  import opened CleanupActions
  import opened CleanupProtocol
  import opened CleanupSafety
  import opened ChangesRequestedSafety
  import opened ChangesRequestedPromise
  import opened ChangesRequestedSteady

  const AUTHOR := Some(User("author"))
  const REVIEWER := User("reviewer")
  const STAFF := {REVIEWER}

  function Request(at: Time): Review {
    Review(at, Some(REVIEWER), ChangesRequested)
  }

  function Pull(reviews: seq<Review>, comments: seq<Comment>): PullRequest {
    PullRequest(0, AUTHOR, false, {ClaSigned}, reviews, [Commit(0, AUTHOR, 1)], None, comments, [], false, None)
  }

  const FIRST := Request(0)
  const SECOND := Request(16 * DAY + 100)
  const PING1 := Comment(14 * DAY, Some(CommunityBot), Marked(ChangesPing, Some(21)))
  const REPLY := Comment(15 * DAY, AUTHOR, Plain)
  const ACK := Comment(16 * DAY + 200, Some(CommunityBot), Marked(ChangesAck, Some(30)))
  const PING2 := Comment(30 * DAY + 300, Some(CommunityBot), Marked(ChangesPing, Some(37)))

  lemma {:induction false} Extend(s0: State, events: seq<Event>, s: State, e: Event, s': State)
    requires Exec(s0, events) == Some(s) && Next(s, e) == Some(s')
    ensures Exec(s0, events + [e]) == Some(s')
  {
    assert (events + [e])[..|events + [e]| - 1] == events;
  }

  /** A pull request nobody has swept. */
  function Start(pr: PullRequest, clock: Time): State {
    State(pr, clock, None, [], None, true, true)
  }

  /** The state after a sweep has read and passed the first two cleanups. */
  function AfterRead(s: State, now: Time, staff: set<Login>): State {
    s.(sweep := Some(Sweep(now, staff, s.pr, Some(s.pr), 2, false)), team := Some(staff),
       steady := s.steady && TeamKept(s.team, staff, s.pr.reviews))
  }

  /** Read, and pass the first two cleanups, which have nothing to do. */
  lemma {:induction false} Read(s0: State, events: seq<Event>, s: State, now: Time, staff: set<Login>)
    returns (events': seq<Event>, s': State)
    requires Exec(s0, events) == Some(s) && s.sweep.None?
    requires s.pr.labels == {ClaSigned} && !s.pr.isDraft && s.pr.closedAt.None? && now <= s.clock && |s.pr.commits| > 0
    ensures Exec(s0, events') == Some(s') && s' == AfterRead(s, now, staff)
    ensures s.steady && (s.team.None? || s.team == Some(staff)) ==> s'.steady
  {
    assert Act(Cla, staff, s.pr, s.pr, now).None? && Act(StaleDraft, staff, s.pr, s.pr, now).None?;
    var s1 := AfterRead(s, now, staff).(sweep := Some(Sweep(now, staff, s.pr, None, 0, false)));
    Extend(s0, events, s, Begin(now, staff), s1);
    events', s' := SkipTwo(s0, events + [Begin(now, staff)], s1, now, staff);
  }

  lemma {:induction false} SkipTwo(s0: State, events: seq<Event>, s: State, now: Time, staff: set<Login>)
    returns (events': seq<Event>, s': State)
    requires Exec(s0, events) == Some(s) && s.sweep == Some(Sweep(now, staff, s.pr, None, 0, false))
    requires |s.pr.commits| > 0
    requires Act(Cla, staff, s.pr, s.pr, now).None? && Act(StaleDraft, staff, s.pr, s.pr, now).None?
    ensures Exec(s0, events') == Some(s')
    ensures s' == s.(sweep := Some(Sweep(now, staff, s.pr, Some(s.pr), 2, false)))
  {
    var sweep := Sweep(now, staff, s.pr, Some(s.pr), 0, false);
    s' := s.(sweep := Some(sweep));
    Extend(s0, events, s, Fetch, s');
    events' := events + [Fetch];
    events', s' := SkipOne(s0, events', s', sweep);
    events', s' := SkipOne(s0, events', s', sweep.(next := 1));
  }

  lemma {:induction false} SkipOne(s0: State, events: seq<Event>, s: State, sweep: Sweep)
    returns (events': seq<Event>, s': State)
    requires Exec(s0, events) == Some(s) && s.sweep == Some(sweep) && Ready(sweep) && !sweep.closing
    requires StepOf(sweep).None?
    ensures Exec(s0, events') == Some(s') && s' == s.(sweep := Some(sweep.(next := sweep.next + 1)))
  {
    events', s' := events + [Skip], s.(sweep := Some(sweep.(next := sweep.next + 1)));
    Extend(s0, events, s, Skip, s');
  }

  /** Post the comment the third cleanup wants, and end the sweep. */
  lemma {:induction false} Posting(s0: State, events: seq<Event>, s: State,
                                   text: Text) returns (events': seq<Event>, s': State)
    requires Exec(s0, events) == Some(s) && s.sweep.Some? && text.Marked?
    requires var sweep := s.sweep.value;
             && Ready(sweep) && sweep.next == 2 && !sweep.closing
             && var step := ChangesAction(sweep.staff, sweep.summary, sweep.full.value, sweep.now);
                step.Some? && step.value.comment == Some(text)
    ensures Exec(s0, events') == Some(s')
    ensures s' == Land(s, StaleChanges, text, s.sweep.value).(sweep := None)
  {
    events' := events + [Write(LandedButFailed)];
    s' := Land(s, StaleChanges, text, s.sweep.value).(sweep := None);
    Extend(s0, events, s, Write(LandedButFailed), s');
  }

  lemma {:induction false} FirstPing(staff: set<Login>)
    requires REVIEWER in staff
    ensures ChangesAction(staff, Pull([FIRST], []), Pull([FIRST], []), 14 * DAY) == Some(Step(Ping, Some(PING1.text)))
  {
    var pr := Pull([FIRST], []);
    assert StaffChangeRequestAt(pr.reviews, staff) == Some(0);
    assert ClockStart(pr.timeline, 0) == 0;
    assert AuthorCommentedAt(pr, 0).None?;
  }

  lemma {:induction false} FirstEpochComments(pr: PullRequest)
    requires pr == Pull([FIRST], [PING1, REPLY])
    ensures BotCommentedAt(pr.comments, ChangesPing, 0) == Some(14 * DAY)
    ensures BotCommentedAt(pr.comments, ChangesClose, 0).None? && BotCommentedAt(pr.comments, ChangesAck, 0).None?
    ensures AuthorCommentedAt(pr, 0) == Some(15 * DAY)
  {
    assert pr.comments[0] == PING1 && pr.comments[1] == REPLY;
    assert !AuthorSilentAfter(pr, 0);
  }

  lemma {:induction false} Acknowledgement(staff: set<Login>)
    requires REVIEWER in staff
    ensures var pr := Pull([FIRST], [PING1, REPLY]);
            ChangesAction(staff, pr, pr, 16 * DAY) == Some(Step(Acknowledge, Some(ACK.text)))
  {
    var pr := Pull([FIRST], [PING1, REPLY]);
    assert StaffChangeRequestAt(pr.reviews, staff) == Some(0);
    assert ClockStart(pr.timeline, 0) == 0;
    FirstEpochComments(pr);
    assert !ReviewRequestedSince(pr.timeline, 0) && !AuthorPushedSince(pr, 0);
  }

  /** The sequence of comments and reviews the second epoch starts with. */
  function SecondEpoch(comments: seq<Comment>): PullRequest {
    Pull([FIRST, SECOND], [PING1, REPLY, ACK] + comments)
  }

  lemma {:induction false} SecondClock(comments: seq<Comment>)
    ensures StaffChangeRequestAt(SecondEpoch(comments).reviews, STAFF) == Some(16 * DAY + 100)
    ensures ClockStart([], 16 * DAY + 100) == 16 * DAY + 100
  {
  }

  lemma {:induction false} SecondPing()
    ensures var pr := SecondEpoch([]);
            ChangesAction(STAFF, pr, pr, 30 * DAY + 300) == Some(Step(Ping, Some(PING2.text)))
  {
    var pr := SecondEpoch([]);
    SecondClock([]);
    assert pr.comments == [PING1, REPLY, ACK];
    assert AuthorCommentedAt(pr, 16 * DAY + 100).None?;
  }

  lemma {:induction false} SecondEpochComments()
    ensures var comments := SecondEpoch([PING2]).comments; var since := 16 * DAY + 100;
            && BotCommentedAt(comments, ChangesClose, since).None?
            && BotCommentedAt(comments, ChangesAck, since) == Some(16 * DAY + 200)
            && BotCommentedAt(comments, ChangesPing, since).Some?
  {
    var comments := SecondEpoch([PING2]).comments;
    assert comments == [PING1, REPLY, ACK, PING2];
    assert comments[2] == ACK && comments[3] == PING2;
  }

  lemma {:induction false} SecondEpochSilent(pr: PullRequest)
    requires pr == SecondEpoch([PING2])
    ensures AuthorCommentedAt(pr, 16 * DAY + 100).None?
  {
    assert pr.comments == [PING1, REPLY, ACK, PING2];
    assert AuthorSilentAfter(pr, 16 * DAY + 100);
  }

  /** What makes a sweep close that counts from an acknowledgement. */
  lemma {:induction false} AckIsOver(staff: set<Login>, pr: PullRequest, since: Time, ackAt: Time, now: Time)
    requires !pr.isDraft && IsCommunity(pr.labels) && pr.timeline == []
    requires StaffChangeRequestAt(pr.reviews, staff) == Some(since) && ClockStart([], since) == since
    requires !AuthorPushedSince(pr, since) && AuthorSilentAfter(pr, ackAt)
    requires BotCommentedAt(pr.comments, ChangesClose, since).None?
    requires BotCommentedAt(pr.comments, ChangesPing, since).Some?
    requires BotCommentedAt(pr.comments, ChangesAck, since) == Some(ackAt)
    requires since + CHANGES_PING_AFTER <= now && ClosingDateReached(ackAt, CHANGES_CLOSE_AFTER_ACK, now)
    ensures ChangesAction(staff, pr, pr, now) == Some(Step(Close, Some(Marked(ChangesClose, None))))
  {
    var commentedAt := AuthorCommentedAt(pr, since);
    assert commentedAt.Some? ==> commentedAt.value <= ackAt;
    assert !ReviewRequestedSince(pr.timeline, since);
  }

  lemma {:induction false} EarlyClose()
    ensures var pr := SecondEpoch([PING2]);
            ChangesAction(STAFF, pr, pr, 31 * DAY) == Some(Step(Close, Some(Marked(ChangesClose, None))))
  {
    var pr := SecondEpoch([PING2]);
    SecondClock([PING2]);
    SecondEpochSilent(pr);
    SecondEpochComments();
    AckIsOver(STAFF, pr, 16 * DAY + 100, 16 * DAY + 200, 31 * DAY);
  }

  /** The run up to the acknowledgement that lands in the wrong epoch. */
  lemma {:induction false} FirstHalf(s0: State) returns (events: seq<Event>, s: State)
    requires s0 == Start(Pull([FIRST], []), 14 * DAY)
    ensures Exec(s0, events) == Some(s) && s.sweep.None? && s.steady && !s.calm && Punctual(s)
    ensures s.pr == SecondEpoch([]) && s.clock == 16 * DAY + 200 && s.team == Some(STAFF)
    ensures |s.posts| == 2 && s.posts[1].marker == ChangesAck && s.posts[1].cleanup == StaleChanges
    ensures s.posts[1].at == 16 * DAY + 200 && s.posts[1].index == 2
  {
    events := [];
    s := s0;
    events, s := Read(s0, events, s, 14 * DAY, STAFF);
    FirstPing(STAFF);
    events, s := Posting(s0, events, s, PING1.text);
    assert s.pr == Pull([FIRST], [PING1]);
    events, s := Reply(s0, events, s);
    events, s := Read(s0, events, s, 16 * DAY, STAFF);
    Acknowledgement(STAFF);
    events, s := RequestAgain(s0, events, s);
    events, s := Posting(s0, events, s, ACK.text);
    assert s.pr == SecondEpoch([]);
  }

  /** The promise can be broken: the closing comes on day 31, fifteen days after the
      clock's start, and the last notice before it, a ping after an acknowledgement,
      had named day 37. */
  lemma {:induction false} PromiseCanBeBroken() returns (s0: State, events: seq<Event>, s: State)
    ensures ReachableFrom(s0, events, s) && s.steady && !s.calm && Punctual(s)
    ensures |s.posts| == 4 && IsClosing(s, 2, 3) && PingAfterAck(s, 2, 3)
    ensures s.posts[2].promised == Some(37) && DateOf(s.posts[3].now) == 31
    ensures s.posts[3].now < Since(s.posts[3]).value + SOON
  {
    s0 := Start(Pull([FIRST], []), 14 * DAY);
    events, s := FirstHalf(s0);
    events, s := Wait(s0, events, s, 30 * DAY + 300);
    events, s := Read(s0, events, s, 30 * DAY + 300, STAFF);
    SecondPing();
    events, s := Posting(s0, events, s, PING2.text);
    assert s.pr == SecondEpoch([PING2]);

    events, s := Wait(s0, events, s, 31 * DAY);
    events, s := Read(s0, events, s, 31 * DAY, STAFF);
    EarlyClose();
    events, s := Posting(s0, events, s, Marked(ChangesClose, None));
    assert s.posts[3].summary == s.posts[3].full == SecondEpoch([PING2]) && s.posts[3].staff == STAFF;
    SecondClock([PING2]);
    AckThenPing(s);
  }

  lemma {:induction false} AckThenPing(s: State)
    requires |s.posts| == 4 && |s.posts[3].summary.commits| > 0 && Since(s.posts[3]).Some?
    requires s.posts[1].cleanup == s.posts[2].cleanup == s.posts[3].cleanup == StaleChanges
    requires s.posts[1].marker == ChangesAck && s.posts[2].marker == ChangesPing
    requires s.posts[1].at > Since(s.posts[3]).value && s.posts[2].at > Since(s.posts[3]).value
    requires s.posts[1].index == 2 && s.posts[2].index == 3 && |s.posts[3].full.comments| == 4
    ensures LastNotice(s, 2, 3) && PingAfterAck(s, 2, 3)
  {
    assert IsNotice(s, 1, 3) && IsNotice(s, 2, 3);
  }

  lemma {:induction false} Wait(s0: State, events: seq<Event>, s: State,
                                to: Time) returns (events': seq<Event>, s': State)
    requires Exec(s0, events) == Some(s) && s.sweep.None? && s.clock <= to && |s.pr.commits| > 0
    ensures Exec(s0, events') == Some(s') && s' == s.(clock := to)
  {
    events' := events + [World(s.pr, to)];
    s' := s.(clock := to);
    Extend(s0, events, s, World(s.pr, to), s');
  }

  lemma {:induction false} Reply(s0: State, events: seq<Event>, s: State) returns (events': seq<Event>, s': State)
    requires Exec(s0, events) == Some(s) && s.sweep.None?
    requires s.clock == 14 * DAY && s.pr == Pull([FIRST], [PING1])
    ensures Exec(s0, events') == Some(s')
    ensures s' == s.(pr := Pull([FIRST], [PING1, REPLY]), clock := 16 * DAY)
  {
    var pr := Pull([FIRST], [PING1, REPLY]);
    events' := events + [World(pr, 16 * DAY)];
    s' := s.(pr := pr, clock := 16 * DAY);
    assert pr.comments == [PING1] + [REPLY];
    Extend(s0, events, s, World(pr, 16 * DAY), s');
  }

  /** The race: staff request changes while the sweep is still to write. */
  lemma {:induction false} RequestAgain(s0: State, events: seq<Event>,
                                        s: State) returns (events': seq<Event>, s': State)
    requires Exec(s0, events) == Some(s) && s.sweep.Some? && s.sweep.value.staff == STAFF
    requires s.clock == 16 * DAY && s.pr == Pull([FIRST], [PING1, REPLY])
    ensures Exec(s0, events') == Some(s')
    ensures s' == s.(pr := Pull([FIRST, SECOND], [PING1, REPLY]), clock := 16 * DAY + 200, calm := false)
  {
    var pr := Pull([FIRST, SECOND], [PING1, REPLY]);
    events' := events + [World(pr, 16 * DAY + 200)];
    s' := s.(pr := pr, clock := 16 * DAY + 200, calm := false);
    assert StaffChangeRequestAt(pr.reviews, STAFF) == Some(16 * DAY + 100);
    assert StaffChangeRequestAt(s.pr.reviews, STAFF) == Some(0);
    Extend(s0, events, s, World(pr, 16 * DAY + 200), s');
  }

  // ---------- an answer that crosses the closing ----------

  const LATE := Comment(21 * DAY + 30, AUTHOR, Plain)

  lemma {:induction false} ClosingIsDue()
    ensures var pr := Pull([FIRST], [PING1]);
            ChangesAction(STAFF, pr, pr, 21 * DAY) == Some(Step(Close, Some(Marked(ChangesClose, None))))
  {
    var pr := Pull([FIRST], [PING1]);
    assert StaffChangeRequestAt(pr.reviews, STAFF) == Some(0);
    assert ClockStart(pr.timeline, 0) == 0;
    assert pr.comments[0] == PING1 && AuthorSilentAfter(pr, 0);
    assert BotCommentedAt(pr.comments, ChangesPing, 0) == Some(14 * DAY);
    assert !ReviewRequestedSince(pr.timeline, 0) && !AuthorPushedSince(pr, 0);
  }

  lemma {:induction false} ReplyLate(s0: State, events: seq<Event>, s: State) returns (events': seq<Event>, s': State)
    requires Exec(s0, events) == Some(s) && s.clock == 21 * DAY && s.pr == Pull([FIRST], [PING1])
    ensures Exec(s0, events') == Some(s')
    ensures s' == s.(pr := Pull([FIRST], [PING1, LATE]), clock := 21 * DAY + 30)
  {
    var pr := Pull([FIRST], [PING1, LATE]);
    events' := events + [World(pr, 21 * DAY + 30)];
    s' := s.(pr := pr, clock := 21 * DAY + 30);
    assert pr.comments == [PING1] + [LATE];
    Extend(s0, events, s, World(pr, 21 * DAY + 30), s');
  }

  /** The author answers after the closing sweep has read and before its comment
      lands. */
  lemma {:induction false} AnswerCanCross() returns (s0: State, events: seq<Event>, s: State)
    ensures ReachableFrom(s0, events, s) && s.steady && s.calm && Punctual(s)
    ensures |s.posts| == 2 && IsClosing(s, 0, 1) && !PingAfterAck(s, 0, 1)
    ensures RequestOf(s.posts[1]).Some? && AnswerCrosses(s.posts[1])
  {
    s0 := Start(Pull([FIRST], []), 14 * DAY);
    events := [];
    s := s0;
    events, s := Read(s0, events, s, 14 * DAY, STAFF);
    FirstPing(STAFF);
    events, s := Posting(s0, events, s, PING1.text);
    assert s.pr == Pull([FIRST], [PING1]);
    events, s := Wait(s0, events, s, 21 * DAY);
    events, s := Read(s0, events, s, 21 * DAY, STAFF);
    ClosingIsDue();
    events, s := ReplyLate(s0, events, s);
    events, s := Posting(s0, events, s, Marked(ChangesClose, None));
    assert StaffChangeRequestAt([FIRST], STAFF) == Some(0) && ClockStart([], 0) == 0;
    assert Counts(s.posts[1].stood.comments[1], AUTHOR);
    assert IsNotice(s, 0, 1);
  }
}
