/** Closings for unanswered change requests: they keep the promised day in every run
    in which no restart of the clock falls inside a sweep and no change of staff
    makes another change request count. */
module ChangesRequestedSafety {
  import opened Wrappers
  import opened PullRequests
  import opened CleanupActions
  import opened CleanupProtocol
  import opened CleanupSafety

  function ChangesClock(staff: set<Login>, reviews: seq<Review>, timeline: seq<TimelineItem>): Option<Time> {
    var requestedAt := StaffChangeRequestAt(reviews, staff);
    if requestedAt.None? then None else Some(ClockStart(timeline, requestedAt.value))
  }

  /** The clock a post of this cleanup was posted under. */
  function PostClock(p: Post): Option<Time> {
    ChangesClock(p.staff, p.summary.reviews, p.full.timeline)
  }

  /** A clock that is off, still the one of the post, or restarted since. */
  ghost predicate SameOrRestarted(clock: Option<Time>, p: Post) {
    clock.None? || clock == PostClock(p) || clock.value >= p.at
  }

  // ---------- how the clock moves ----------

  /** The latest staff verdict stays, is withdrawn, or is new. */
  lemma {:induction false} RequestMoves(staff: set<Login>, old_: seq<Review>, new_: seq<Review>, from: Time, to: Time)
    requires ReviewsGrow(old_, new_, from, to)
    ensures var r := StaffChangeRequestAt(new_, staff);
            r.None? || r == StaffChangeRequestAt(old_, staff) || r.value >= from
    decreases |new_|
  {
    if |new_| == |old_| {
      if new_ != [] && !ByStaff(new_[|new_| - 1], staff) {
        RequestMoves(staff, old_[..|old_| - 1], new_[..|new_| - 1], from, to);
      }
    } else if !ByStaff(new_[|new_| - 1], staff) {
      RequestMoves(staff, old_, new_[..|new_| - 1], from, to);
    }
  }

  /** A longer timeline starts the clock where it was, or at or after what was
      added. */
  lemma {:induction false} StartMoves(old_: seq<TimelineItem>, new_: seq<TimelineItem>, startedAt: Time, from: Time)
    requires old_ <= new_ && forall i | |old_| <= i < |new_| :: new_[i].at >= from
    ensures var start := ClockStart(new_, startedAt); start == ClockStart(old_, startedAt) || start >= from
  {
    if ClockStart(new_, startedAt) < from {
      assert NoReopen(old_, new_);
    }
  }

  lemma {:induction false} ClockMoves(staff: set<Login>, old_: PullRequest, new_: PullRequest, from: Time, to: Time)
    requires Grows(old_, new_, from, to)
    ensures var c := ChangesClock(staff, new_.reviews, new_.timeline);
            c.None? || c == ChangesClock(staff, old_.reviews, old_.timeline) || c.value >= from
  {
    RequestMoves(staff, old_.reviews, new_.reviews, from, to);
    var r := StaffChangeRequestAt(new_.reviews, staff);
    if r.Some? {
      StartMoves(old_.timeline, new_.timeline, r.value, from);
    }
  }

  // ---------- the invariant of calm runs ----------

  /** The clock as it stands, for the staff that was seen last. */
  function PresentClock(s: State): Option<Time> {
    if s.team.None? then None else ChangesClock(s.team.value, s.pr.reviews, s.pr.timeline)
  }

  ghost predicate ClockConsistent(s: State, clock: Option<Time>) {
    forall k {:trigger SameOrRestarted(clock, s.posts[k])} | 0 <= k < |s.posts| && s.posts[k].cleanup == StaleChanges ::
      SameOrRestarted(clock, s.posts[k])
  }

  ghost predicate PostsConsistent(s: State) {
    forall j, k {:trigger SameOrRestarted(PostClock(s.posts[k]), s.posts[j])} | 0 <= j < k < |s.posts| ::
      s.posts[j].cleanup == s.posts[k].cleanup == StaleChanges
      ==> SameOrRestarted(PostClock(s.posts[k]), s.posts[j])
  }

  /** What a running sweep has read still gives the clock of the present. */
  ghost predicate SweepInTime(s: State, sweep: Sweep) {
    && sweep.summary.timeline <= s.pr.timeline
    && NoReopen(sweep.summary.timeline, s.pr.timeline)
    && (var requestedAt := StaffChangeRequestAt(s.pr.reviews, sweep.staff);
        requestedAt.None? || requestedAt == StaffChangeRequestAt(sweep.summary.reviews, sweep.staff))
    && (sweep.full.Some? ==> sweep.summary.timeline <= sweep.full.value.timeline <= s.pr.timeline)
    && ClockConsistent(s, ChangesClock(sweep.staff, sweep.summary.reviews, sweep.summary.timeline))
  }

  ghost predicate Calm(s: State) {
    s.steady && s.calm ==>
      && ClockConsistent(s, PresentClock(s))
      && PostsConsistent(s)
      && (s.sweep.Some? ==> SweepInTime(s, s.sweep.value))
  }

  lemma {:induction false} WorldCalm(s: State, pr: PullRequest, clock: Time)
    requires Inv(s) && Calm(s) && Next(s, World(pr, clock)).Some?
    ensures Calm(Next(s, World(pr, clock)).value)
  {
    var s' := Next(s, World(pr, clock)).value;
    if s'.steady && s'.calm && s.team.Some? {
      ClockMoves(s.team.value, s.pr, pr, s.clock, clock);
      var c, c' := PresentClock(s), PresentClock(s');
      forall k | 0 <= k < |s.posts| && s.posts[k].cleanup == StaleChanges
        ensures SameOrRestarted(c', s.posts[k])
      {
        assert SameOrRestarted(c, s.posts[k]);
        assert Recorded(s.posts[k], s.pr.comments);
        assert s.posts[k].at <= s.clock;
      }
    }
  }

  lemma {:induction false} LandInTime(s: State, sweep: Sweep, text: Text)
    requires TeamKnown(s) && s.steady && s.calm && Calm(s) && s.sweep == Some(sweep) && Ready(sweep) && text.Marked?
    ensures var s' := Land(s, CLEANUPS[sweep.next], text, sweep);
            && ClockConsistent(s', PresentClock(s'))
            && SweepInTime(s', sweep)
  {
    var s' := Land(s, CLEANUPS[sweep.next], text, sweep);
    var read := ChangesClock(sweep.staff, sweep.summary.reviews, sweep.summary.timeline);
    var present := PresentClock(s);
    forall k | 0 <= k < |s'.posts| && s'.posts[k].cleanup == StaleChanges
      ensures SameOrRestarted(read, s'.posts[k]) && SameOrRestarted(present, s'.posts[k])
    {
      if k < |s.posts| {
        assert s'.posts[k] == s.posts[k];
        assert SameOrRestarted(read, s.posts[k]) && SameOrRestarted(present, s.posts[k]);
      } else {
        assert PostClock(s'.posts[k]) == read;
      }
    }
  }

  lemma {:induction false} LandInOrder(s: State, sweep: Sweep, text: Text)
    requires TeamKnown(s) && s.steady && s.calm && Calm(s) && s.sweep == Some(sweep) && Ready(sweep) && text.Marked?
    ensures PostsConsistent(Land(s, CLEANUPS[sweep.next], text, sweep))
  {
    var s' := Land(s, CLEANUPS[sweep.next], text, sweep);
    var read := ChangesClock(sweep.staff, sweep.summary.reviews, sweep.summary.timeline);
    forall j, k | 0 <= j < k < |s'.posts| && s'.posts[j].cleanup == s'.posts[k].cleanup == StaleChanges
      ensures SameOrRestarted(PostClock(s'.posts[k]), s'.posts[j])
    {
      assert s'.posts[j] == s.posts[j];
      if k < |s.posts| {
        assert s'.posts[k] == s.posts[k];
        assert SameOrRestarted(PostClock(s.posts[k]), s.posts[j]);
      } else {
        assert SameOrRestarted(read, s.posts[j]);
        assert PostClock(s'.posts[k]) == read;
      }
    }
  }

  /** Reading changes nothing. */
  lemma {:induction false} ReadCalm(s: State, s': State)
    requires Calm(s) && s'.posts == s.posts && s'.calm == s.calm && s'.steady == s.steady && s'.team == s.team
    requires s'.pr.reviews == s.pr.reviews && s'.pr.timeline == s.pr.timeline
    requires s'.steady && s'.calm && s'.sweep.Some? ==> SweepInTime(s', s'.sweep.value)
    ensures Calm(s')
  {
    if s.steady && s.calm {
      var c := PresentClock(s);
      forall k | 0 <= k < |s.posts| && s.posts[k].cleanup == StaleChanges
        ensures SameOrRestarted(c, s'.posts[k])
      {
        assert SameOrRestarted(c, s.posts[k]);
      }
    }
  }

  lemma {:induction false} BeginCalm(s: State, now: Time, staff: set<Login>)
    requires Inv(s) && Calm(s) && Next(s, Begin(now, staff)).Some?
    ensures Calm(Next(s, Begin(now, staff)).value)
  {
    var s' := Next(s, Begin(now, staff)).value;
    if s'.steady && s'.calm {
      forall k | 0 <= k < |s'.posts| && s'.posts[k].cleanup == StaleChanges
        ensures SameOrRestarted(PresentClock(s'), s'.posts[k])
      {
        assert SameOrRestarted(PresentClock(s), s.posts[k]);
      }
      forall j, k | 0 <= j < k < |s'.posts| && s'.posts[j].cleanup == s'.posts[k].cleanup == StaleChanges
        ensures SameOrRestarted(PostClock(s'.posts[k]), s'.posts[j])
      {
        assert SameOrRestarted(PostClock(s.posts[k]), s.posts[j]);
      }
    }
  }

  lemma {:induction false} CommentCalm(s: State, sweep: Sweep, step: Step, text: Text, outcome: Outcome)
    requires TeamKnown(s) && Calm(s) && s.sweep == Some(sweep) && Ready(sweep) && text.Marked?
    ensures Calm(AfterComment(s, sweep, step, text, outcome))
  {
    var s' := AfterComment(s, sweep, step, text, outcome);
    if outcome.Lost? {
      ReadCalm(s, s');
    } else if s.steady && s.calm {
      LandInTime(s, sweep, text);
      LandInOrder(s, sweep, text);
      var landed := Land(s, CLEANUPS[sweep.next], text, sweep);
      var c := PresentClock(s);
      forall k | 0 <= k < |s'.posts| && s'.posts[k].cleanup == StaleChanges
        ensures SameOrRestarted(c, s'.posts[k])
      {
        assert SameOrRestarted(c, landed.posts[k]);
      }
    }
  }

  lemma {:induction false} NextCalm(s: State, e: Event)
    requires Inv(s) && Calm(s) && Next(s, e).Some?
    ensures Calm(Next(s, e).value)
  {
    var s' := Next(s, e).value;
    match e
    case World(pr, clock) => WorldCalm(s, pr, clock);
    case Begin(now, staff) => BeginCalm(s, now, staff);
    case Fetch =>
      ReadCalm(s, s');
    case Skip =>
      ReadCalm(s, s');
    case Write(outcome) =>
      var sweep := s.sweep.value;
      var step := StepOf(sweep).value;
      if sweep.closing || step.comment.None? {
        ReadCalm(s, AfterClose(s, outcome));
      } else {
        CommentCalm(s, sweep, step, step.comment.value, outcome);
      }
    case Stop => ReadCalm(s, s');
  }

  lemma {:induction false} ExecCalm(s: State, events: seq<Event>)
    requires Init(s) && Exec(s, events).Some?
    ensures Calm(Exec(s, events).value)
  {
    if events != [] {
      var before := events[..|events| - 1];
      ExecInv(s, before);
      ExecCalm(s, before);
      NextCalm(Exec(s, before).value, events[|events| - 1]);
    }
  }

  // ---------- closings ----------

  lemma {:induction false} ChangesPostClock(s: State, k: nat)
    requires Inv(s) && k < |s.posts| && s.posts[k].cleanup == StaleChanges
    ensures |s.posts[k].summary.commits| > 0
    ensures PostClock(s.posts[k]).Some? && PostClock(s.posts[k]) == Since(s.posts[k])
  {
    PostMeaning(s, k);
  }

  /** In a calm and steady run no ping follows an acknowledgement of its own epoch. */
  lemma {:induction false} NoPingAfterAck(s: State, i: nat, j: nat)
    requires Inv(s) && PostsConsistent(s) && i < j < |s.posts|
    requires s.posts[i].marker == ChangesAck && s.posts[j].marker == ChangesPing
    requires s.posts[i].cleanup == s.posts[j].cleanup == StaleChanges
    ensures PostClock(s.posts[j]).Some? && s.posts[i].at <= PostClock(s.posts[j]).value
  {
    ChangesPostClock(s, i);
    ChangesPostClock(s, j);
    PostAfterWarning(s, i);
    assert SameOrRestarted(PostClock(s.posts[j]), s.posts[i]);
    if PostClock(s.posts[j]) == PostClock(s.posts[i]) {
      var since := PostClock(s.posts[i]).value;
      var p := PostFound(s, i, ChangesPing, since);
      WarningsApart(s, p, j);
      assert false;
    }
  }

  lemma {:induction false} LaterClock(s: State, j: nat, k: nat)
    requires Inv(s) && PostsConsistent(s) && j < k < |s.posts|
    requires s.posts[j].cleanup == s.posts[k].cleanup == StaleChanges
    requires PostClock(s.posts[j]).Some? && PostClock(s.posts[j]).value < s.posts[j].at
    ensures PostClock(s.posts[k]).Some? && PostClock(s.posts[j]).value <= PostClock(s.posts[k]).value
  {
    ChangesPostClock(s, k);
    assert SameOrRestarted(PostClock(s.posts[k]), s.posts[j]);
  }

  lemma {:induction false} CloseMeaning(s: State, k: nat)
    requires Inv(s) && k < |s.posts| && s.posts[k].marker == ChangesClose
    ensures var p := s.posts[k];
            var requestedAt := StaffChangeRequestAt(p.summary.reviews, p.staff);
            && |p.summary.commits| > 0 && p.cleanup == StaleChanges && Since(p).Some? && requestedAt.Some?
            && !ReviewRequestedSince(p.full.timeline, requestedAt.value)
            && !AuthorPushedSince(p.full, requestedAt.value)
            && var since := Since(p).value;
               var noticeAt := NoticeAt(p.full, since);
               && noticeAt.Some?
               && AuthorSilentAfter(p.full, noticeAt.value)
               && ClosingDateReached(noticeAt.value, ClosesAfter(p.full, since), p.now)
  {
    var p := s.posts[k];
    PostMeaning(s, k);
    assert Justified(p);
    ChangesStep(p.staff, p.summary, p.full, p.now);
  }

  /** The day the closing sweep ran on is not before the promised one. */
  ghost predicate DayKept(s: State, j: nat, k: nat)
    requires j < |s.posts| && k < |s.posts|
  {
    s.posts[j].promised.Some? && s.posts[j].promised.value <= DateOf(s.posts[k].now)
  }

  /** The notice whose date the script itself compares with. */
  lemma {:induction false} CountedNotice(s: State, k: nat) returns (j: nat)
    requires Inv(s) && k < |s.posts| && s.posts[k].marker == ChangesClose
    ensures |s.posts[k].summary.commits| > 0 && Since(s.posts[k]).Some?
    ensures j < k && IsNotice(s, j, k)
    ensures var p := s.posts[k]; var since := Since(p).value;
            s.posts[j].marker
            == if BotCommentedAt(p.full.comments, ChangesAck, since).Some? then ChangesAck else ChangesPing
    ensures NoticeAt(s.posts[k].full, Since(s.posts[k]).value) == Some(s.posts[j].at)
    ensures DayKept(s, j, k)
  {
    CloseMeaning(s, k);
    var since := Since(s.posts[k]).value;
    j := PostFound(s, k,
      if BotCommentedAt(s.posts[k].full.comments, ChangesAck, since).Some? then ChangesAck else ChangesPing, since);
    PromiseIsCounted(s, j);
  }

  /** Comments are stamped in order, so of two acknowledgements the later one in
      the thread counts. */
  lemma {:induction false} StampedInOrder(s: State, i: nat, j: nat)
    requires Inv(s) && i < j < |s.posts|
    ensures s.posts[i].at <= s.posts[j].at
  {
    assert Recorded(s.posts[i], s.pr.comments) && Recorded(s.posts[j], s.pr.comments);
  }

  lemma {:induction false} FindLast(s: State, j: nat, k: nat, bound: nat) returns (l: nat)
    requires j < bound <= k < |s.posts| && |s.posts[k].summary.commits| > 0 && Since(s.posts[k]).Some?
    requires IsNotice(s, j, k)
    requires forall i | bound <= i < k :: !IsNotice(s, i, k)
    ensures j <= l < k && LastNotice(s, l, k)
    decreases bound
  {
    l := bound - 1;
    if l != j && !IsNotice(s, l, k) {
      l := FindLast(s, j, k, l);
    }
  }

  /** The last notice is one with the time the script counts from, or a ping
      after an acknowledgement, both of the current epoch. */
  lemma {:induction false} LaterNotice(s: State, j: nat, l: nat, k: nat, since: Time)
    requires Inv(s) && j < l < k < |s.posts| && s.posts[k].cleanup == StaleChanges
    requires IsNoticeSince(s, j, k, since) && IsNoticeSince(s, l, k, since)
    requires NoticeAt(s.posts[k].full, since) == Some(s.posts[j].at)
    requires s.posts[j].marker ==
             if BotCommentedAt(s.posts[k].full.comments, ChangesAck, since).Some? then ChangesAck else ChangesPing
    ensures s.posts[j].marker == ChangesAck
    ensures s.posts[l].marker == ChangesPing || (s.posts[l].marker == ChangesAck && s.posts[l].at == s.posts[j].at)
  {
    OwnMarker(s, l);
    NotLaterThanFound(s, l, k, since);
    if s.posts[j].marker == ChangesPing && s.posts[l].marker == ChangesPing {
      WarningsApart(s, j, l);
      assert false;
    }
    StampedInOrder(s, j, l);
  }

  /** A ping that followed an acknowledgement of the same epoch. */
  ghost predicate PingAfterAck(s: State, l: nat, k: nat)
    requires l < k < |s.posts| && |s.posts[k].summary.commits| > 0 && Since(s.posts[k]).Some?
  {
    && s.posts[l].marker == ChangesPing
    && exists j | 0 <= j < l :: IsNotice(s, j, k) && s.posts[j].marker == ChangesAck
  }

  lemma {:induction false} ClosingDay(s: State, k: nat) returns (l: nat)
    requires Inv(s) && k < |s.posts| && s.posts[k].marker == ChangesClose
    ensures |s.posts[k].summary.commits| > 0 && Since(s.posts[k]).Some?
    ensures l < k && LastNotice(s, l, k)
    ensures !PingAfterAck(s, l, k) ==> DayKept(s, l, k) && AuthorSilentAfter(s.posts[k].full, s.posts[l].at)
  {
    var j := CountedNotice(s, k);
    CloseMeaning(s, k);
    l := FindLast(s, j, k, k);
    if l != j {
      LaterNotice(s, j, l, k, Since(s.posts[k]).value);
      PromiseIsCounted(s, l);
    }
  }

  /** In every run, a closing keeps the day promised by the last notice, and the
      author was silent after that notice, unless that notice is a ping posted
      after an acknowledgement of the same epoch. Always, there was no push of
      the author and no review request since the change request. */
  lemma {:induction false} ClosesOnPromisedDayUnlessPingAfterAck(s0: State, events: seq<Event>, s: State,
                                                                 k: nat)
    requires ReachableFrom(s0, events, s)
    requires k < |s.posts| && s.posts[k].marker == ChangesClose
    ensures |s.posts[k].summary.commits| > 0 && Since(s.posts[k]).Some?
    ensures exists l | 0 <= l < k ::
              && LastNotice(s, l, k)
              && (!PingAfterAck(s, l, k) ==> DayKept(s, l, k) && AuthorSilentAfter(s.posts[k].full, s.posts[l].at))
    ensures var requestedAt := StaffChangeRequestAt(s.posts[k].summary.reviews, s.posts[k].staff);
            && requestedAt.Some?
            && !ReviewRequestedSince(s.posts[k].full.timeline, requestedAt.value)
            && !AuthorPushedSince(s.posts[k].full, requestedAt.value)
  {
    ExecInv(s0, events);
    var l := ClosingDay(s, k);
    CloseMeaning(s, k);
  }

  /** In a calm and steady run an acknowledgement before a ping belongs to an older
      epoch than anything posted after the ping. */
  lemma {:induction false} AckBeforePingIsOld(s: State, j: nat, l: nat, k: nat)
    requires Inv(s) && PostsConsistent(s) && j < l < k < |s.posts|
    requires s.posts[j].marker == ChangesAck && s.posts[l].marker == ChangesPing
    requires s.posts[j].cleanup == s.posts[l].cleanup == s.posts[k].cleanup == StaleChanges
    ensures PostClock(s.posts[k]).Some? && s.posts[j].at <= PostClock(s.posts[k]).value
  {
    NoPingAfterAck(s, j, l);
    ChangesPostClock(s, l);
    PostAfterWarning(s, l);
    LaterClock(s, l, k);
  }

  lemma {:induction false} CalmHasNoPingAfterAck(s: State, l: nat, k: nat)
    requires Inv(s) && PostsConsistent(s)
    requires l < k < |s.posts| && s.posts[k].cleanup == StaleChanges
    requires |s.posts[k].summary.commits| > 0 && Since(s.posts[k]).Some?
    requires IsNotice(s, l, k)
    ensures !PingAfterAck(s, l, k)
  {
    ChangesPostClock(s, k);
    forall j | 0 <= j < l && s.posts[l].marker == ChangesPing && s.posts[j].marker == ChangesAck
      ensures !IsNotice(s, j, k)
    {
      if s.posts[j].cleanup == StaleChanges {
        AckBeforePingIsOld(s, j, l, k);
      }
    }
  }

  /** In every calm and steady run, a closing comes on or after the day named in the
      last notice of the epoch, which the author had not answered when the sweep
      read, with no push of the author and no review request since the change
      request. */
  lemma {:induction false} CalmClosesOnPromisedDay(s0: State, events: seq<Event>, s: State, k: nat)
    requires ReachableFrom(s0, events, s) && s.steady && s.calm
    requires k < |s.posts| && s.posts[k].marker == ChangesClose
    ensures |s.posts[k].summary.commits| > 0 && Since(s.posts[k]).Some?
    ensures exists l | 0 <= l < k ::
              LastNotice(s, l, k) && DayKept(s, l, k) && AuthorSilentAfter(s.posts[k].full, s.posts[l].at)
    ensures var requestedAt := StaffChangeRequestAt(s.posts[k].summary.reviews, s.posts[k].staff);
            && requestedAt.Some?
            && !ReviewRequestedSince(s.posts[k].full.timeline, requestedAt.value)
            && !AuthorPushedSince(s.posts[k].full, requestedAt.value)
  {
    ExecInv(s0, events);
    ExecCalm(s0, events);
    var l := ClosingDay(s, k);
    CloseMeaning(s, k);
    PostMeaning(s, k);
    CalmHasNoPingAfterAck(s, l, k);
  }

  /** In every calm and steady run there is one ping per epoch, and the acknowledgements of
      an epoch come after its ping. */
  lemma {:induction false} CalmOnePingThenAcks(s0: State, events: seq<Event>, s: State, j: nat, k: nat)
    requires ReachableFrom(s0, events, s) && s.steady && s.calm
    requires j < k < |s.posts| && s.posts[k].marker == ChangesPing
    requires s.posts[j].marker == ChangesPing || s.posts[j].marker == ChangesAck
    ensures PostClock(s.posts[k]).Some? && s.posts[j].at <= PostClock(s.posts[k]).value
  {
    ExecInv(s0, events);
    ExecCalm(s0, events);
    PostMeaning(s, j);
    PostMeaning(s, k);
    ChangesPostClock(s, k);
    if s.posts[j].marker == ChangesPing {
      WarningsApart(s, j, k);
    } else {
      NoPingAfterAck(s, j, k);
    }
  }
}
