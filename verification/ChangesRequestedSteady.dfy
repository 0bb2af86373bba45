/** The same under a steady staff, and how soon such a closing can come. */
module ChangesRequestedSteady {
  import opened Wrappers
  import opened PullRequests
  import opened CleanupActions
  import opened CleanupProtocol
  import opened CleanupSafety
  import opened ChangesRequestedSafety
  import opened ChangesRequestedPromise

  // ---------- how the change request and the timeline move on ----------

  /** From the change request and the timeline found at `now` or later to later
      ones: the request is gone, the same or new, and the timeline has grown. */
  ghost predicate Moved(now: Time, r0: Option<Time>, t0: seq<TimelineItem>, r: Option<Time>, t: seq<TimelineItem>) {
    && t0 <= t
    && (forall i | |t0| <= i < |t| :: t[i].at >= now)
    && (r.None? || r == r0 || r.value >= now)
  }

  function ClockFrom(r: Option<Time>, t: seq<TimelineItem>): Option<Time> {
    if r.None? then None else Some(ClockStart(t, r.value))
  }

  lemma {:induction false} MovedClock(now: Time, r0: Option<Time>, t0: seq<TimelineItem>, r: Option<Time>,
                                      t: seq<TimelineItem>)
    requires Moved(now, r0, t0, r, t)
    ensures var clock := ClockFrom(r, t); clock.None? || clock == ClockFrom(r0, t0) || clock.value >= now
  {
    if r.Some? {
      StartMoves(t0, t, r.value, now);
    }
  }

  lemma {:induction false} MovedFurther(now: Time, r0: Option<Time>, t0: seq<TimelineItem>, r: Option<Time>,
                                        t: seq<TimelineItem>, from: Time, r': Option<Time>,
                                        t': seq<TimelineItem>)
    requires Moved(now, r0, t0, r, t) && now <= from && Moved(from, r, t, r', t')
    ensures Moved(now, r0, t0, r', t')
  {
    forall i | |t0| <= i < |t'| ensures t'[i].at >= now {
      if i < |t| {
        assert t'[i] == t[i];
      }
    }
  }

  // ---------- the invariant ----------

  /** The change request that counts, for the staff that was seen last. */
  function PresentRequest(s: State): Option<Time> {
    if s.team.None? then None else StaffChangeRequestAt(s.pr.reviews, s.team.value)
  }

  ghost predicate MovedSince(p: Post, r: Option<Time>, t: seq<TimelineItem>) {
    Moved(p.now, RequestOf(p), p.full.timeline, r, t)
  }

  /** Every post was read for before the request and the timeline were found. */
  ghost predicate AllBefore(s: State, r: Option<Time>, t: seq<TimelineItem>) {
    forall k {:trigger MovedSince(s.posts[k], r, t)} | 0 <= k < |s.posts| :: MovedSince(s.posts[k], r, t)
  }

  /** Every post was read for before the later ones. */
  ghost predicate InTurn(s: State) {
    forall j, k {:trigger MovedSince(s.posts[j], RequestOf(s.posts[k]), s.posts[k].full.timeline)}
      | 0 <= j < k < |s.posts| :: MovedSince(s.posts[j], RequestOf(s.posts[k]), s.posts[k].full.timeline)
  }

  /** The timeline a sweep has read, or is going to read. */
  function ReadTimeline(s: State, sweep: Sweep): seq<TimelineItem> {
    if sweep.full.Some? then sweep.full.value.timeline else s.pr.timeline
  }

  function SweepRequest(sweep: Sweep): Option<Time> {
    StaffChangeRequestAt(sweep.summary.reviews, sweep.staff)
  }

  ghost predicate SweepTracked(s: State, sweep: Sweep) {
    && Moved(sweep.now, SweepRequest(sweep), ReadTimeline(s, sweep), PresentRequest(s), s.pr.timeline)
    && AllBefore(s, SweepRequest(sweep), ReadTimeline(s, sweep))
  }

  ghost predicate Tracked(s: State) {
    s.steady ==>
      && AllBefore(s, PresentRequest(s), s.pr.timeline)
      && InTurn(s)
      && (s.sweep.Some? ==> SweepTracked(s, s.sweep.value))
  }

  // ---------- every step keeps it ----------

  /** Nothing is posted. */
  lemma {:induction false} SamePosts(s: State, s': State)
    requires Tracked(s) && s'.posts == s.posts && (s'.steady ==> s.steady)
    requires s'.steady ==> AllBefore(s', PresentRequest(s'), s'.pr.timeline)
    requires s'.steady && s'.sweep.Some? ==> SweepTracked(s', s'.sweep.value)
    ensures Tracked(s')
  {
    if s'.steady {
      forall j, k | 0 <= j < k < |s'.posts|
        ensures MovedSince(s'.posts[j], RequestOf(s'.posts[k]), s'.posts[k].full.timeline)
      {
        assert MovedSince(s.posts[j], RequestOf(s.posts[k]), s.posts[k].full.timeline);
      }
    }
  }

  lemma {:induction false} SameBefore(s: State, s': State, r: Option<Time>, t: seq<TimelineItem>)
    requires AllBefore(s, r, t) && s'.posts == s.posts
    ensures AllBefore(s', r, t)
  {
    forall k | 0 <= k < |s'.posts| ensures MovedSince(s'.posts[k], r, t) {
      assert MovedSince(s.posts[k], r, t);
    }
  }

  lemma {:induction false} WorldBefore(s: State, r: Option<Time>, t: seq<TimelineItem>, r': Option<Time>,
                                       t': seq<TimelineItem>)
    requires Inv(s) && AllBefore(s, r, t) && Moved(s.clock, r, t, r', t')
    ensures AllBefore(s, r', t')
  {
    forall k | 0 <= k < |s.posts| ensures MovedSince(s.posts[k], r', t') {
      var p := s.posts[k];
      assert MovedSince(p, r, t);
      assert p.now <= s.clock by {
        assert Justified(p) && Recorded(p, s.pr.comments);
      }
      MovedFurther(p.now, RequestOf(p), p.full.timeline, r, t, s.clock, r', t');
    }
  }

  lemma {:induction false} WorldTracked(s: State, pr: PullRequest, clock: Time)
    requires Inv(s) && Tracked(s) && Grows(s.pr, pr, s.clock, clock)
    ensures Tracked(Next(s, World(pr, clock)).value)
  {
    var s' := Next(s, World(pr, clock)).value;
    if s.steady {
      if s.team.Some? {
        RequestMoves(s.team.value, s.pr.reviews, pr.reviews, s.clock, clock);
      }
      var r, r' := PresentRequest(s), PresentRequest(s');
      assert Moved(s.clock, r, s.pr.timeline, r', pr.timeline);
      WorldBefore(s, r, s.pr.timeline, r', pr.timeline);
      SameBefore(s, s', r', pr.timeline);
      if s.sweep.Some? {
        SweepMoves(s, s.sweep.value, s');
      }
    }
    SamePosts(s, s');
  }

  lemma {:induction false} SweepMoves(s: State, sweep: Sweep, s': State)
    requires Inv(s) && s.sweep == Some(sweep) && SweepTracked(s, sweep) && s'.posts == s.posts && s'.team == s.team
    requires Moved(s.clock, PresentRequest(s), s.pr.timeline, PresentRequest(s'), s'.pr.timeline)
    ensures SweepTracked(s', sweep)
  {
    var q, t, t' := SweepRequest(sweep), ReadTimeline(s, sweep), ReadTimeline(s', sweep);
    assert Moved(s.clock, q, t, q, t');
    WorldBefore(s, q, t, q, t');
    SameBefore(s, s', q, t');
    MovedFurther(sweep.now, q, t, PresentRequest(s), s.pr.timeline, s.clock, PresentRequest(s'), s'.pr.timeline);
  }

  lemma {:induction false} BeginTracked(s: State, now: Time, staff: set<Login>)
    requires Inv(s) && Tracked(s) && Next(s, Begin(now, staff)).Some?
    ensures Tracked(Next(s, Begin(now, staff)).value)
  {
    var s' := Next(s, Begin(now, staff)).value;
    if s'.steady {
      forall k | 0 <= k < |s'.posts| ensures MovedSince(s'.posts[k], PresentRequest(s'), s.pr.timeline) {
        assert MovedSince(s.posts[k], PresentRequest(s), s.pr.timeline);
      }
    }
    SamePosts(s, s');
  }

  lemma {:induction false} LandBefore(s: State, sweep: Sweep, text: Text, r: Option<Time>, t: seq<TimelineItem>)
    requires Ready(sweep) && text.Marked? && AllBefore(s, r, t)
    requires Moved(sweep.now, SweepRequest(sweep), sweep.full.value.timeline, r, t)
    ensures AllBefore(Land(s, CLEANUPS[sweep.next], text, sweep), r, t)
  {
    var s' := Land(s, CLEANUPS[sweep.next], text, sweep);
    forall k | 0 <= k < |s'.posts| ensures MovedSince(s'.posts[k], r, t) {
      if k < |s.posts| {
        assert s'.posts[k] == s.posts[k] && MovedSince(s.posts[k], r, t);
      }
    }
  }

  lemma {:induction false} LandInTurn(s: State, sweep: Sweep, text: Text)
    requires Ready(sweep) && text.Marked? && InTurn(s)
    requires AllBefore(s, SweepRequest(sweep), sweep.full.value.timeline)
    ensures InTurn(Land(s, CLEANUPS[sweep.next], text, sweep))
  {
    var s' := Land(s, CLEANUPS[sweep.next], text, sweep);
    forall j, k | 0 <= j < k < |s'.posts|
      ensures MovedSince(s'.posts[j], RequestOf(s'.posts[k]), s'.posts[k].full.timeline)
    {
      assert s'.posts[j] == s.posts[j];
      if k < |s.posts| {
        assert s'.posts[k] == s.posts[k];
        assert MovedSince(s.posts[j], RequestOf(s.posts[k]), s.posts[k].full.timeline);
      } else {
        assert MovedSince(s.posts[j], SweepRequest(sweep), sweep.full.value.timeline);
      }
    }
  }

  lemma {:induction false} CommentTracked(s: State, sweep: Sweep, step: Step, text: Text, outcome: Outcome)
    requires Inv(s) && Tracked(s) && s.sweep == Some(sweep) && Ready(sweep) && text.Marked?
    ensures Tracked(AfterComment(s, sweep, step, text, outcome))
  {
    var s' := AfterComment(s, sweep, step, text, outcome);
    if s.steady {
      var r, t := SweepRequest(sweep), sweep.full.value.timeline;
      if outcome.Lost? {
        SameBefore(s, s', PresentRequest(s), s.pr.timeline);
        SamePosts(s, s');
      } else {
        var landed := Land(s, CLEANUPS[sweep.next], text, sweep);
        LandBefore(s, sweep, text, PresentRequest(s), s.pr.timeline);
        LandBefore(s, sweep, text, r, t);
        LandInTurn(s, sweep, text);
        SameBefore(landed, s', PresentRequest(s), s.pr.timeline);
        SameBefore(landed, s', r, t);
        SamePosts(landed, s');
      }
    }
  }

  lemma {:induction false} QuietTracked(s: State, s': State)
    requires Tracked(s) && s'.posts == s.posts && s'.team == s.team && s'.steady == s.steady
    requires s'.pr.reviews == s.pr.reviews && s'.pr.timeline == s.pr.timeline
    requires s'.sweep.Some? ==>
               && s.sweep.Some? && SweepRequest(s'.sweep.value) == SweepRequest(s.sweep.value)
               && s'.sweep.value.now == s.sweep.value.now
               && ReadTimeline(s', s'.sweep.value) == ReadTimeline(s, s.sweep.value)
    ensures Tracked(s')
  {
    if s.steady {
      SameBefore(s, s', PresentRequest(s), s.pr.timeline);
      if s'.sweep.Some? {
        SameBefore(s, s', SweepRequest(s.sweep.value), ReadTimeline(s, s.sweep.value));
      }
    }
    SamePosts(s, s');
  }

  lemma {:induction false} NextTracked(s: State, e: Event)
    requires Inv(s) && Tracked(s) && Next(s, e).Some?
    ensures Tracked(Next(s, e).value)
  {
    var s' := Next(s, e).value;
    match e
    case World(pr, clock) => WorldTracked(s, pr, clock);
    case Begin(now, staff) => BeginTracked(s, now, staff);
    case Fetch => QuietTracked(s, s');
    case Skip => QuietTracked(s, s');
    case Write(outcome) =>
      var sweep := s.sweep.value;
      var step := StepOf(sweep).value;
      if sweep.closing || step.comment.None? {
        QuietTracked(s, s');
      } else {
        CommentTracked(s, sweep, step, step.comment.value, outcome);
      }
    case Stop => QuietTracked(s, s');
  }

  lemma {:induction false} ExecTracked(s: State, events: seq<Event>)
    requires Init(s) && Exec(s, events).Some?
    ensures Tracked(Exec(s, events).value)
  {
    if events != [] {
      var before := events[..|events| - 1];
      ExecInv(s, before);
      ExecTracked(s, before);
      NextTracked(Exec(s, before).value, events[|events| - 1]);
    }
  }

  // ---------- before the named day ----------

  /** How late a comment may land for its period to stay a day shorter than what a
      ping of the next epoch promises. */
  const SLACK := CHANGES_PING_AFTER + CHANGES_CLOSE_AFTER_PING - CHANGES_CLOSE_AFTER_ACK - DAY

  /** No comment lands more than six days after its sweep began. */
  ghost predicate Punctual(s: State) {
    forall k | 0 <= k < |s.posts| :: s.posts[k].at <= s.posts[k].now + SLACK
  }

  /** A notice that the clock of a later sweep has left behind was posted under
      another clock, and for a sweep that began before the later one started. */
  lemma {:induction false} ClockLater(s: State, j: nat, k: nat)
    requires Inv(s) && Tracked(s) && s.steady && j < k < |s.posts|
    requires s.posts[j].cleanup == s.posts[k].cleanup == StaleChanges
    ensures PostClock(s.posts[k]).Some?
    ensures PostClock(s.posts[k]) == PostClock(s.posts[j]) || s.posts[j].now <= PostClock(s.posts[k]).value
  {
    ChangesPostClock(s, k);
    var p, q := s.posts[j], s.posts[k];
    assert MovedSince(p, RequestOf(q), q.full.timeline);
    MovedClock(p.now, RequestOf(p), p.full.timeline, RequestOf(q), q.full.timeline);
  }

  /** A ping comes when its clock has run for its time. */
  lemma {:induction false} PingWaits(s: State, l: nat)
    requires Inv(s) && l < |s.posts| && s.posts[l].marker == ChangesPing && s.posts[l].cleanup == StaleChanges
    ensures PostClock(s.posts[l]).Some? && PostClock(s.posts[l]).value + CHANGES_PING_AFTER <= s.posts[l].now
  {
    ChangesPostClock(s, l);
    var p := s.posts[l];
    assert Justified(p);
    ChangesStep(p.staff, p.summary, p.full, p.now);
  }

  /** A ping after an acknowledgement is one of a later epoch, and comes its full
      time after the sweep of the acknowledgement. */
  lemma {:induction false} PingComesLate(s: State, j: nat, l: nat)
    requires Inv(s) && Tracked(s) && s.steady && j < l < |s.posts|
    requires s.posts[j].marker == ChangesAck && s.posts[l].marker == ChangesPing
    requires s.posts[j].cleanup == s.posts[l].cleanup == StaleChanges
    ensures s.posts[j].now + CHANGES_PING_AFTER <= s.posts[l].now
  {
    ClockLater(s, j, l);
    PingWaits(s, l);
    if PostClock(s.posts[l]) == PostClock(s.posts[j]) {
      ChangesPostClock(s, j);
      PostAfterWarning(s, j);
      var first := PostFound(s, j, ChangesPing, PostClock(s.posts[j]).value);
      ChangesPostClock(s, l);
      WarningsApart(s, first, l);
      assert false;
    }
  }

  /** The day named by a ping that comes its full time after the sweep of the
      acknowledgement is later than the one the acknowledgement leads to. */
  lemma {:induction false} NamesLaterDay(s: State, j: nat, l: nat)
    requires Inv(s) && j < |s.posts| && l < |s.posts| && s.posts[l].marker == ChangesPing
    requires s.posts[j].at <= s.posts[j].now + SLACK && s.posts[j].now + CHANGES_PING_AFTER <= s.posts[l].now
    ensures s.posts[l].promised.Some?
    ensures DateOf(s.posts[j].at + CHANGES_CLOSE_AFTER_ACK) < s.posts[l].promised.value
  {
    var p := s.posts[l];
    assert Justified(p);
    NoticeNamesDay(p.cleanup, p.staff, p.summary, p.full, p.now, Marked(p.marker, p.promised));
  }

  /** In a steady run whose comments land within six days: what a closing sweep had
      read can close before the day named in the last notice if and only if that
      notice is a ping after an acknowledgement of the epoch. */
  lemma {:induction false} SteadyClosesEarlyIff(s0: State, events: seq<Event>, s: State, l: nat, k: nat)
    requires ReachableFrom(s0, events, s) && s.steady && Punctual(s) && IsClosing(s, l, k)
    ensures s.posts[l].promised.Some?
    ensures CanBeEarly(s, l, k) <==> PingAfterAck(s, l, k)
  {
    ExecInv(s0, events);
    ExecTracked(s0, events);
    ClosesEarlyIff(s0, events, s, l, k);
    if PingAfterAck(s, l, k) {
      var j := AckDecides(s0, events, s, l, k);
      AckIsOld(s, j, l, k);
    }
  }

  /** In such a run: no sweep with the same reading can close before the day, and the
      last notice stands unanswered when the closing lands, if and only if that
      notice is no ping after an acknowledgement and no answer crosses. */
  lemma {:induction false} SteadyPromiseKeptIff(s0: State, events: seq<Event>, s: State, l: nat, k: nat)
    requires ReachableFrom(s0, events, s) && s.steady && Punctual(s) && IsClosing(s, l, k)
    ensures s.posts[l].promised.Some? && RequestOf(s.posts[k]).Some?
    ensures !CanBeEarly(s, l, k) && !Answered(s.posts[k].stood, RequestOf(s.posts[k]).value, s.posts[l].at)
            <==> !PingAfterAck(s, l, k) && !AnswerCrosses(s.posts[k])
  {
    SteadyClosesEarlyIff(s0, events, s, l, k);
    ClosesFromIff(s0, events, s, k, s.posts[k].now);
    if !PingAfterAck(s, l, k) {
      PromiseKeptIff(s0, events, s, l, k);
      EarlyOnlyAfterAck(s0, events, s, l, k);
    }
  }

  lemma {:induction false} AckIsOld(s: State, j: nat, l: nat, k: nat)
    requires Inv(s) && Tracked(s) && s.steady && Punctual(s) && j < l < k < |s.posts|
    requires s.posts[j].marker == ChangesAck && s.posts[l].marker == ChangesPing && s.posts[k].marker == ChangesClose
    requires RequestOf(s.posts[k]).Some? && ClosesAfterAck(s.posts[k], s.posts[j].at)
    requires IsDue(s.posts[k]) && s.posts[j].at > Since(s.posts[k]).value
    ensures s.posts[l].promised.Some? && CanBeEarly(s, l, k)
  {
    OwnMarker(s, j);
    OwnMarker(s, l);
    PingComesLate(s, j, l);
    NamesLaterDay(s, j, l);
    ClosesWhenOver(s.posts[k], s.posts[j].at);
  }

  lemma {:induction false} ClosesWhenOver(p: Post, ackAt: Time)
    requires IsDue(p) && ClosesAfterAck(p, ackAt) && ackAt > Since(p).value
    ensures Closes(p, ackAt + CHANGES_CLOSE_AFTER_ACK)
  {
    RequestBeforeClock(p);
  }

  lemma {:induction false} RequestBeforeClock(p: Post)
    requires IsDue(p)
    ensures RequestOf(p).value <= Since(p).value
  {
  }

  // ---------- how soon after the clock's start ----------

  const SOON := CHANGES_PING_AFTER + CHANGES_CLOSE_AFTER_PING - DAY

  /** All notices a closing sweep had read of its epoch were posted under the very
      clock it closes by. */
  ghost predicate AllOwn(s: State, k: nat)
    requires k < |s.posts| && |s.posts[k].summary.commits| > 0 && Since(s.posts[k]).Some?
  {
    forall j | 0 <= j < k && IsNotice(s, j, k) :: PostClock(s.posts[j]) == Since(s.posts[k])
  }

  lemma {:induction false} OwnNoticeIsLate(s: State, j: nat, k: nat)
    requires Inv(s) && j < k < |s.posts| && s.posts[k].marker == ChangesClose && IsDue(s.posts[k])
    requires IsNotice(s, j, k) && AllOwn(s, k)
    ensures s.posts[j].at >= Since(s.posts[k]).value + CHANGES_PING_AFTER
  {
    OwnMarker(s, j);
    OwnMarker(s, k);
    assert PostClock(s.posts[j]) == Since(s.posts[k]);
    if s.posts[j].marker == ChangesPing {
      PingWaits(s, j);
      assert Justified(s.posts[j]);
    } else {
      var i := PingBefore(s, j, k);
      PingWaits(s, i);
      assert Justified(s.posts[i]);
      StampedInOrder(s, i, j);
    }
  }

  /** The ping an acknowledgement answers to. */
  lemma {:induction false} PingBefore(s: State, j: nat, k: nat) returns (i: nat)
    requires Inv(s) && j < k < |s.posts| && s.posts[j].marker == ChangesAck && s.posts[k].cleanup == StaleChanges
    requires |s.posts[k].summary.commits| > 0 && Since(s.posts[k]).Some?
    requires IsNotice(s, j, k) && AllOwn(s, k)
    ensures i < j && s.posts[i].marker == ChangesPing && s.posts[i].cleanup == StaleChanges
    ensures PostClock(s.posts[i]) == Since(s.posts[k])
  {
    ChangesPostClock(s, j);
    PostAfterWarning(s, j);
    i := PostFound(s, j, ChangesPing, Since(s.posts[k]).value);
    assert s.posts[i].index < s.posts[j].index;
    assert IsNotice(s, i, k);
  }

  /** In every run: a closing that had read only notices posted under its own clock
      comes more than twenty days after that clock's start, and so does every sweep
      with the same reading. */
  lemma {:induction false} OwnClosesLate(s0: State, events: seq<Event>, s: State, k: nat)
    requires ReachableFrom(s0, events, s) && k < |s.posts| && s.posts[k].marker == ChangesClose
    requires |s.posts[k].summary.commits| > 0 && Since(s.posts[k]).Some? && AllOwn(s, k)
    ensures IsDue(s.posts[k])
    ensures Since(s.posts[k]).value + SOON < FirstTime(s.posts[k]) <= s.posts[k].now
  {
    ExecInv(s0, events);
    ClosesFromIff(s0, events, s, k, s.posts[k].now);
    var j := CountedNotice(s, k);
    OwnNoticeIsLate(s, j, k);
    NotBeforeItsDay(s.posts[k]);
  }

  /** In every calm and steady run a closing comes more than twenty days after the
      clock's start. */
  lemma {:induction false} CalmClosesLate(s0: State, events: seq<Event>, s: State, k: nat)
    requires ReachableFrom(s0, events, s) && s.steady && s.calm
    requires k < |s.posts| && s.posts[k].marker == ChangesClose
    ensures |s.posts[k].summary.commits| > 0 && Since(s.posts[k]).Some?
    ensures Since(s.posts[k]).value + SOON < s.posts[k].now
  {
    ExecInv(s0, events);
    ExecCalm(s0, events);
    PostMeaning(s, k);
    CalmAllOwn(s, k);
    OwnClosesLate(s0, events, s, k);
  }

  lemma {:induction false} CalmAllOwn(s: State, k: nat)
    requires Inv(s) && PostsConsistent(s) && k < |s.posts| && s.posts[k].cleanup == StaleChanges
    requires |s.posts[k].summary.commits| > 0 && Since(s.posts[k]).Some?
    ensures AllOwn(s, k)
  {
    ChangesPostClock(s, k);
    forall j | 0 <= j < k && IsNotice(s, j, k) ensures PostClock(s.posts[j]) == Since(s.posts[k]) {
      assert SameOrRestarted(PostClock(s.posts[k]), s.posts[j]);
    }
  }

  /** In a steady run whose comments land within six days: what a closing sweep had
      read can close within twenty days of its clock's start if and only if the
      notice it counts from was posted under another clock, or is an
      acknowledgement whose day comes that soon. */
  lemma {:induction false} ClosesSoonIff(s0: State, events: seq<Event>, s: State, j: nat, k: nat)
    requires ReachableFrom(s0, events, s) && s.steady && Punctual(s)
    requires j < k < |s.posts| && s.posts[k].marker == ChangesClose
    requires |s.posts[k].summary.commits| > 0 && Since(s.posts[k]).Some? && Counted(s, j, k)
    ensures (exists now | now <= Since(s.posts[k]).value + SOON :: Closes(s.posts[k], now))
            <==> PostClock(s.posts[j]) != Since(s.posts[k])
                 || (s.posts[j].marker == ChangesAck
                     && DAY * DateOf(s.posts[j].at + CHANGES_CLOSE_AFTER_ACK) <= Since(s.posts[k]).value + SOON)
  {
    ExecInv(s0, events);
    ExecTracked(s0, events);
    ClosesFromIff(s0, events, s, k, s.posts[k].now);
    SoonFromFirst(s.posts[k]);
    if PostClock(s.posts[j]) == Since(s.posts[k]) {
      OwnCounted(s, j, k);
    } else {
      StrayIsSoon(s, j, k);
    }
  }

  lemma {:induction false} SoonFromFirst(p: Post)
    requires IsDue(p)
    ensures (exists now | now <= Since(p).value + SOON :: Closes(p, now)) <==> FirstTime(p) <= Since(p).value + SOON
  {
    forall now ensures Closes(p, now) <==> FirstTime(p) <= now {
      DueCloses(p, now);
    }
    assert Closes(p, FirstTime(p));
  }

  lemma {:induction false} OwnCounted(s: State, j: nat, k: nat)
    requires Inv(s) && j < k < |s.posts| && s.posts[k].marker == ChangesClose && IsDue(s.posts[k])
    requires Counted(s, j, k) && PostClock(s.posts[j]) == Since(s.posts[k])
    ensures FirstTime(s.posts[k]) <= Since(s.posts[k]).value + SOON
            <==> s.posts[j].marker == ChangesAck
                 && DAY * DateOf(s.posts[j].at + CHANGES_CLOSE_AFTER_ACK) <= Since(s.posts[k]).value + SOON
  {
    OwnMarker(s, j);
    OwnMarker(s, k);
    assert RequestOf(s.posts[k]).value <= Since(s.posts[k]).value;
    if s.posts[j].marker == ChangesPing {
      PingWaits(s, j);
      assert Justified(s.posts[j]);
      NotBeforeItsDay(s.posts[k]);
    }
  }

  lemma {:induction false} StrayIsSoon(s: State, j: nat, k: nat)
    requires Inv(s) && Tracked(s) && s.steady && Punctual(s)
    requires j < k < |s.posts| && s.posts[k].marker == ChangesClose && IsDue(s.posts[k])
    requires Counted(s, j, k) && PostClock(s.posts[j]) != Since(s.posts[k])
    ensures FirstTime(s.posts[k]) <= Since(s.posts[k]).value + SOON
  {
    OwnMarker(s, j);
    ChangesPostClock(s, k);
    ClockLater(s, j, k);
    assert RequestOf(s.posts[k]).value <= Since(s.posts[k]).value;
  }
}
