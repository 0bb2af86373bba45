/** Exactly when a closing for requested changes breaks its promise. */
module ChangesRequestedPromise {
  import opened Wrappers
  import opened PullRequests
  import opened CleanupActions
  import opened CleanupProtocol
  import opened CleanupSafety
  import opened ChangesRequestedSafety

  // ---------- readings and what comes after them ----------

  /** Comments and timeline have only been added to since the reading. */
  ghost predicate Extends(read: PullRequest, pr: PullRequest, now: Time) {
    && pr.author == read.author
    && read.comments <= pr.comments
    && read.timeline <= pr.timeline
    && (forall i | |read.comments| <= i < |pr.comments| :: pr.comments[i].at >= now)
    && (forall i | |read.timeline| <= i < |pr.timeline| :: pr.timeline[i].at >= now)
  }

  ghost predicate PostExtends(p: Post) {
    Extends(p.full, p.stood, p.now)
  }

  /** What every comment landed on extends what its sweep had read. */
  ghost predicate Extended(s: State) {
    && (forall k {:trigger PostExtends(s.posts[k])} | 0 <= k < |s.posts| :: PostExtends(s.posts[k]))
    && (s.sweep.Some? && s.sweep.value.full.Some? ==> Extends(s.sweep.value.full.value, s.pr, s.sweep.value.now))
  }

  lemma {:induction false} WorldExtends(read: PullRequest, now: Time, pr: PullRequest, pr': PullRequest,
                                        from: Time, to: Time)
    requires Extends(read, pr, now) && now <= from && Grows(pr, pr', from, to)
    ensures Extends(read, pr', now)
  {
    forall i | |read.comments| <= i < |pr'.comments| ensures pr'.comments[i].at >= now {
      if i < |pr.comments| {
        assert pr'.comments[i] == pr.comments[i];
      }
    }
    forall i | |read.timeline| <= i < |pr'.timeline| ensures pr'.timeline[i].at >= now {
      if i < |pr.timeline| {
        assert pr'.timeline[i] == pr.timeline[i];
      }
    }
  }

  /** Nothing is posted. */
  lemma {:induction false} SameExtended(s: State, s': State)
    requires Extended(s) && s'.posts == s.posts
    requires s'.sweep.Some? && s'.sweep.value.full.Some? ==>
               Extends(s'.sweep.value.full.value, s'.pr, s'.sweep.value.now)
    ensures Extended(s')
  {
    forall k | 0 <= k < |s'.posts| ensures PostExtends(s'.posts[k]) {
      assert PostExtends(s.posts[k]);
    }
  }

  lemma {:induction false} CommentExtended(s: State, sweep: Sweep, step: Step, text: Text, outcome: Outcome)
    requires Inv(s) && Extended(s) && s.sweep == Some(sweep) && Ready(sweep) && text.Marked?
    ensures Extended(AfterComment(s, sweep, step, text, outcome))
  {
    var s' := AfterComment(s, sweep, step, text, outcome);
    if outcome.Lost? {
      SameExtended(s, s');
    } else {
      forall k | 0 <= k < |s'.posts| ensures PostExtends(s'.posts[k]) {
        if k < |s.posts| {
          assert s'.posts[k] == s.posts[k] && PostExtends(s.posts[k]);
        }
      }
    }
  }

  lemma {:induction false} NextExtended(s: State, e: Event)
    requires Inv(s) && Extended(s) && Next(s, e).Some?
    ensures Extended(Next(s, e).value)
  {
    var s' := Next(s, e).value;
    match e
    case World(pr, clock) =>
      if s.sweep.Some? && s.sweep.value.full.Some? {
        WorldExtends(s.sweep.value.full.value, s.sweep.value.now, s.pr, pr, s.clock, clock);
      }
      SameExtended(s, s');
    case Begin(_, _) => SameExtended(s, s');
    case Fetch => SameExtended(s, s');
    case Skip => SameExtended(s, s');
    case Write(outcome) =>
      var sweep := s.sweep.value;
      var step := StepOf(sweep).value;
      if sweep.closing || step.comment.None? {
        SameExtended(s, s');
      } else {
        CommentExtended(s, sweep, step, step.comment.value, outcome);
      }
    case Stop => SameExtended(s, s');
  }

  lemma {:induction false} ExecExtended(s: State, events: seq<Event>)
    requires Init(s) && Exec(s, events).Some?
    ensures Extended(Exec(s, events).value)
  {
    if events != [] {
      var before := events[..|events| - 1];
      ExecInv(s, before);
      ExecExtended(s, before);
      NextExtended(Exec(s, before).value, events[|events| - 1]);
    }
  }

  // ---------- answers that cross the closing ----------

  /** The author has answered the notice, or the change request is dealt with. */
  ghost predicate Answered(pr: PullRequest, requestedAt: Time, noticeAt: Time) {
    || !AuthorSilentAfter(pr, noticeAt)
    || ReviewRequestedSince(pr.timeline, requestedAt)
    || AuthorPushedSince(pr, requestedAt)
  }

  /** After the reading and before the comment landed, the author commented or
      reviewed, asked for a review, or pushed. */
  ghost predicate Crossed(read: PullRequest, stood: PullRequest, requestedAt: Time) {
    || (exists i | |read.comments| <= i < |stood.comments| :: Counts(stood.comments[i], stood.author))
    || (exists i | |read.timeline| <= i < |stood.timeline| ::
          ReviewedBy(stood.timeline[i], stood.author) || stood.timeline[i].ReviewRequested?)
    || (exists i | 0 <= i < |stood.commits| ::
          stood.commits[i] !in read.commits && IsAuthorPush(stood.commits[i], stood.author, requestedAt))
  }

  lemma {:induction false} AnswersCross(read: PullRequest, stood: PullRequest, now: Time, requestedAt: Time,
                                        noticeAt: Time)
    requires Extends(read, stood, now) && requestedAt < now && noticeAt < now
    requires AuthorSilentAfter(read, noticeAt)
    requires !ReviewRequestedSince(read.timeline, requestedAt) && !AuthorPushedSince(read, requestedAt)
    ensures Answered(stood, requestedAt, noticeAt) <==> Crossed(read, stood, requestedAt)
  {
    forall i | 0 <= i < |read.comments| && Counts(stood.comments[i], stood.author)
      ensures stood.comments[i].at <= noticeAt
    {
      assert read.comments[i] == stood.comments[i];
    }
    forall i | 0 <= i < |read.timeline|
      ensures ReviewedBy(stood.timeline[i], stood.author) ==> stood.timeline[i].at <= noticeAt
      ensures stood.timeline[i].ReviewRequested? ==> stood.timeline[i].at <= requestedAt
    {
      assert read.timeline[i] == stood.timeline[i];
    }
  }

  /** The change request a post's sweep found. */
  function RequestOf(p: Post): Option<Time> {
    StaffChangeRequestAt(p.summary.reviews, p.staff)
  }

  /** An answer to the last notice crosses the closing comment. */
  ghost predicate AnswerCrosses(p: Post)
    requires RequestOf(p).Some?
  {
    Crossed(p.full, p.stood, RequestOf(p).value)
  }

  lemma {:induction false} ClosingCrossed(s: State, k: nat)
    requires Inv(s) && Extended(s) && k < |s.posts| && s.posts[k].marker == ChangesClose
    ensures var p := s.posts[k];
            && |p.summary.commits| > 0 && Since(p).Some? && RequestOf(p).Some?
            && var noticeAt := NoticeAt(p.full, Since(p).value);
               && noticeAt.Some?
               && (Answered(p.stood, RequestOf(p).value, noticeAt.value) <==> AnswerCrosses(p))
  {
    CloseMeaning(s, k);
    var p := s.posts[k];
    assert PostExtends(p);
    var since := Since(p).value;
    assert Justified(p);
    assert RequestOf(p).value <= since;
    AnswersCross(p.full, p.stood, p.now, RequestOf(p).value, NoticeAt(p.full, since).value);
  }

  // ---------- from when on a reading closes ----------

  /** Whether a sweep at `now` that reads what the post's sweep had read closes. */
  predicate Closes(p: Post, now: Time) {
    ChangesAction(p.staff, p.summary, p.full, now) == Some(Step(Close, Some(Marked(ChangesClose, None))))
  }

  /** Post `k` is a closing, and `l` the last notice before it. */
  ghost predicate IsClosing(s: State, l: nat, k: nat) {
    && l < k < |s.posts| && s.posts[k].marker == ChangesClose
    && |s.posts[k].summary.commits| > 0 && Since(s.posts[k]).Some? && LastNotice(s, l, k)
  }

  /** The notice found, once its period is over, and the request, once it has aged:
      the first time at which the reading closes. */
  function FirstTime(p: Post): Time
    requires |p.summary.commits| > 0 && Since(p).Some? && RequestOf(p).Some?
    requires NoticeAt(p.full, Since(p).value).Some?
  {
    var since := Since(p).value;
    Max(RequestOf(p).value + CHANGES_PING_AFTER,
        DAY * DateOf(NoticeAt(p.full, since).value + ClosesAfter(p.full, since)))
  }

  lemma {:induction false} DayBegins(t: Time, now: Time)
    ensures DateOf(now) >= DateOf(t) <==> DAY * DateOf(t) <= now
  {
  }

  lemma {:induction false} NotBeforeItsDay(p: Post)
    requires |p.summary.commits| > 0 && Since(p).Some? && RequestOf(p).Some?
    requires NoticeAt(p.full, Since(p).value).Some?
    ensures DateOf(NoticeAt(p.full, Since(p).value).value + ClosesAfter(p.full, Since(p).value)) <= DateOf(FirstTime(p))
  {
    var since := Since(p).value;
    DayBegins(NoticeAt(p.full, since).value + ClosesAfter(p.full, since), FirstTime(p));
  }

  /** The reading has all that a closing asks of it but the time. */
  ghost predicate IsDue(p: Post) {
    && |p.summary.commits| > 0 && p.cleanup == StaleChanges && Since(p).Some? && RequestOf(p).Some?
    && !p.summary.isDraft && IsCommunity(p.summary.labels)
    && !ReviewRequestedSince(p.full.timeline, RequestOf(p).value) && !AuthorPushedSince(p.full, RequestOf(p).value)
    && var since := Since(p).value;
       && BotCommentedAt(p.full.comments, ChangesClose, since).None?
       && BotCommentedAt(p.full.comments, ChangesPing, since).Some?
       && NoticeAt(p.full, since).Some? && AuthorSilentAfter(p.full, NoticeAt(p.full, since).value)
  }

  lemma {:induction false} ClosingIsDue(s: State, k: nat)
    requires Inv(s) && k < |s.posts| && s.posts[k].marker == ChangesClose
    ensures IsDue(s.posts[k])
  {
    CloseMeaning(s, k);
    PostAfterWarning(s, k);
    PostMeaning(s, k);
    assert Justified(s.posts[k]);
  }

  lemma {:induction false} DueCloses(p: Post, now: Time)
    requires IsDue(p)
    ensures Closes(p, now) <==> FirstTime(p) <= now
  {
    var since := Since(p).value;
    DayBegins(NoticeAt(p.full, since).value + ClosesAfter(p.full, since), now);
    var commentedAt := AuthorCommentedAt(p.full, since);
    assert commentedAt.Some? ==> commentedAt.value <= NoticeAt(p.full, since).value;
  }

  /** What a closing sweep had read closes at every time from `FirstTime` on, and at
      no time before. */
  lemma {:induction false} ClosesFromIff(s0: State, events: seq<Event>, s: State, k: nat, now: Time)
    requires ReachableFrom(s0, events, s) && k < |s.posts| && s.posts[k].marker == ChangesClose
    ensures IsDue(s.posts[k]) && (Closes(s.posts[k], now) <==> FirstTime(s.posts[k]) <= now)
    ensures FirstTime(s.posts[k]) <= s.posts[k].now
  {
    ExecInv(s0, events);
    ClosingIsDue(s, k);
    DueCloses(s.posts[k], now);
    CloseKind(s, k);
    DueCloses(s.posts[k], s.posts[k].now);
  }

  lemma {:induction false} CloseKind(s: State, k: nat)
    requires Inv(s) && k < |s.posts| && s.posts[k].marker == ChangesClose
    ensures Closes(s.posts[k], s.posts[k].now)
  {
    var p := s.posts[k];
    assert Justified(p);
    CommentStep(p.cleanup, p.staff, p.summary, p.full, p.now);
  }

  // ---------- closings before the named day ----------

  /** Post `j` is the notice the closing sweep counted from. */
  ghost predicate Counted(s: State, j: nat, k: nat)
    requires j < k < |s.posts| && |s.posts[k].summary.commits| > 0 && Since(s.posts[k]).Some?
  {
    var full, since := s.posts[k].full, Since(s.posts[k]).value;
    && IsNotice(s, j, k)
    && NoticeAt(full, since) == Some(s.posts[j].at)
    && ClosesAfter(full, since) == NoticePeriod(s.posts[j].marker)
  }

  /** Without a ping after an acknowledgement, the last notice is counted from. */
  lemma {:induction false} LastIsCounted(s: State, l: nat, k: nat)
    requires Inv(s) && IsClosing(s, l, k) && !PingAfterAck(s, l, k)
    ensures Counted(s, l, k)
  {
    OwnMarker(s, k);
    var j := CountedNotice(s, k);
    if l != j {
      LaterNotice(s, j, l, k, Since(s.posts[k]).value);
    }
  }

  lemma {:induction false} AckFound(s: State, a: nat, k: nat, since: Time)
    requires Inv(s) && a < k < |s.posts| && IsNoticeSince(s, a, k, since) && s.posts[a].marker == ChangesAck
    ensures BotCommentedAt(s.posts[k].full.comments, ChangesAck, since).Some?
  {
    NotLaterThanFound(s, a, k, since);
  }

  /** Under a ping after an acknowledgement, an acknowledgement is counted from. */
  lemma {:induction false} AckIsFound(s: State, l: nat, k: nat)
    requires Inv(s) && IsClosing(s, l, k) && PingAfterAck(s, l, k)
    ensures BotCommentedAt(s.posts[k].full.comments, ChangesAck, Since(s.posts[k]).value).Some?
  {
    var a :| 0 <= a < l && IsNotice(s, a, k) && s.posts[a].marker == ChangesAck;
    AckFound(s, a, k, Since(s.posts[k]).value);
  }

  lemma {:induction false} AckBeforeLast(s: State, j: nat, l: nat, k: nat)
    requires IsClosing(s, l, k) && s.posts[l].marker == ChangesPing
    requires j < k && IsNotice(s, j, k) && s.posts[j].marker == ChangesAck
    ensures j < l
  {
  }

  lemma {:induction false} AckIsCounted(s: State, l: nat, k: nat) returns (j: nat)
    requires Inv(s) && IsClosing(s, l, k) && PingAfterAck(s, l, k)
    ensures j < l && s.posts[j].marker == ChangesAck && Counted(s, j, k)
  {
    AckIsFound(s, l, k);
    j := CountedNotice(s, k);
    AckBeforeLast(s, j, l, k);
  }

  lemma {:induction false} NamesADay(s: State, l: nat, k: nat)
    requires Inv(s) && IsClosing(s, l, k)
    ensures s.posts[l].promised.Some?
    ensures s.posts[l].promised.value <= DateOf(s.posts[l].at + NoticePeriod(s.posts[l].marker))
  {
    PromiseIsCounted(s, l);
  }

  /** Where the last notice is counted from, its day is not after the first one the
      reading closes on. */
  lemma {:induction false} OnTime(s: State, l: nat, k: nat)
    requires Inv(s) && IsClosing(s, l, k) && IsDue(s.posts[k]) && !PingAfterAck(s, l, k)
    ensures s.posts[l].promised.Some?
    ensures NoticeAt(s.posts[k].full, Since(s.posts[k]).value) == Some(s.posts[l].at)
    ensures s.posts[l].promised.value <= DateOf(FirstTime(s.posts[k]))
  {
    NamesADay(s, l, k);
    LastIsCounted(s, l, k);
    NotBeforeItsDay(s.posts[k]);
  }

  /** The reading closes on the day an acknowledgement stamped `ackAt` leads to and
      on all later ones, as soon as the change request is old enough. */
  ghost predicate ClosesAfterAck(p: Post, ackAt: Time)
    requires RequestOf(p).Some?
  {
    forall now :: Closes(p, now) <==>
      RequestOf(p).value + CHANGES_PING_AFTER <= now && DateOf(ackAt + CHANGES_CLOSE_AFTER_ACK) <= DateOf(now)
  }

  lemma {:induction false} AckLeadsTo(s: State, j: nat, k: nat)
    requires j < k < |s.posts| && IsDue(s.posts[k]) && Counted(s, j, k) && s.posts[j].marker == ChangesAck
    ensures ClosesAfterAck(s.posts[k], s.posts[j].at)
  {
    var p, ackAt := s.posts[k], s.posts[j].at;
    forall now
      ensures Closes(p, now) <==>
        RequestOf(p).value + CHANGES_PING_AFTER <= now && DateOf(ackAt + CHANGES_CLOSE_AFTER_ACK) <= DateOf(now)
    {
      DueCloses(p, now);
      DayBegins(ackAt + CHANGES_CLOSE_AFTER_ACK, now);
    }
  }

  /** In every run: a closing comes before the day named in the last notice only if
      that notice is a ping after an acknowledgement of the epoch. */
  lemma {:induction false} EarlyOnlyAfterAck(s0: State, events: seq<Event>, s: State, l: nat, k: nat)
    requires ReachableFrom(s0, events, s) && IsClosing(s, l, k)
    ensures s.posts[l].promised.Some?
    ensures s.posts[l].promised.value <= DateOf(s.posts[k].now) || PingAfterAck(s, l, k)
  {
    ExecInv(s0, events);
    NamesADay(s, l, k);
    if !PingAfterAck(s, l, k) {
      ClosesFromIff(s0, events, s, k, s.posts[k].now);
      OnTime(s, l, k);
    }
  }

  /** And then an acknowledgement before it decides from which day on the reading
      closes: the closing comes on or after the day the acknowledgement leads to. */
  lemma {:induction false} AckDecides(s0: State, events: seq<Event>, s: State, l: nat, k: nat) returns (j: nat)
    requires ReachableFrom(s0, events, s) && IsClosing(s, l, k) && PingAfterAck(s, l, k)
    ensures j < l && s.posts[j].marker == ChangesAck && IsNotice(s, j, k)
    ensures RequestOf(s.posts[k]).Some? && ClosesAfterAck(s.posts[k], s.posts[j].at)
    ensures DateOf(s.posts[j].at + CHANGES_CLOSE_AFTER_ACK) <= DateOf(s.posts[k].now)
  {
    ExecInv(s0, events);
    ClosingIsDue(s, k);
    CloseKind(s, k);
    j := AckIsCounted(s, l, k);
    AckLeadsTo(s, j, k);
  }

  /** Some sweep that reads what the closing one had read closes before the day the
      notice named. */
  ghost predicate CanBeEarly(s: State, l: nat, k: nat)
    requires l < |s.posts| && k < |s.posts| && s.posts[l].promised.Some?
  {
    exists now :: Closes(s.posts[k], now) && DateOf(now) < s.posts[l].promised.value
  }

  lemma {:induction false} EarlyFromFirst(s: State, l: nat, k: nat)
    requires Inv(s) && IsClosing(s, l, k) && IsDue(s.posts[k])
    ensures s.posts[l].promised.Some?
    ensures CanBeEarly(s, l, k) <==> DateOf(FirstTime(s.posts[k])) < s.posts[l].promised.value
  {
    NamesADay(s, l, k);
    var p := s.posts[k];
    forall now ensures Closes(p, now) <==> FirstTime(p) <= now {
      DueCloses(p, now);
    }
    assert Closes(p, FirstTime(p));
  }

  /** In every run: what a closing sweep had read can close before the day named in
      the last notice if and only if that notice is a ping after an acknowledgement
      of the epoch and names a later day than the first one the reading closes on. */
  lemma {:induction false} ClosesEarlyIff(s0: State, events: seq<Event>, s: State, l: nat, k: nat)
    requires ReachableFrom(s0, events, s) && IsClosing(s, l, k)
    ensures s.posts[l].promised.Some? && IsDue(s.posts[k])
    ensures CanBeEarly(s, l, k)
            <==> PingAfterAck(s, l, k) && DateOf(FirstTime(s.posts[k])) < s.posts[l].promised.value
  {
    ExecInv(s0, events);
    ClosingIsDue(s, k);
    EarlyFromFirst(s, l, k);
    if !PingAfterAck(s, l, k) {
      OnTime(s, l, k);
    }
  }

  // ---------- exactly when a closing keeps its promise ----------

  /** The closing came on or after the day the notice named, and when it landed the
      notice stood unanswered. */
  ghost predicate KeepsPromise(s: State, l: nat, k: nat)
    requires l < |s.posts| && k < |s.posts| && s.posts[l].promised.Some? && RequestOf(s.posts[k]).Some?
  {
    && s.posts[l].promised.value <= DateOf(s.posts[k].now)
    && !Answered(s.posts[k].stood, RequestOf(s.posts[k]).value, s.posts[l].at)
  }

  /** In every run: a closing whose last notice is no ping after an acknowledgement
      of the epoch keeps the promise, and no sweep with the same reading could come
      before the day, if and only if no answer crosses it. */
  lemma {:induction false} PromiseKeptIff(s0: State, events: seq<Event>, s: State, l: nat, k: nat)
    requires ReachableFrom(s0, events, s) && IsClosing(s, l, k) && !PingAfterAck(s, l, k)
    ensures s.posts[l].promised.Some? && RequestOf(s.posts[k]).Some?
    ensures !CanBeEarly(s, l, k) && (KeepsPromise(s, l, k) <==> !AnswerCrosses(s.posts[k]))
  {
    ExecInv(s0, events);
    ExecExtended(s0, events);
    ClosesFromIff(s0, events, s, k, s.posts[k].now);
    OnTime(s, l, k);
    EarlyFromFirst(s, l, k);
    ClosingCrossed(s, k);
  }

  /** In every calm and steady run only an answer that crosses the closing breaks the
      promise. */
  lemma {:induction false} CalmPromiseKeptIff(s0: State, events: seq<Event>, s: State, l: nat, k: nat)
    requires ReachableFrom(s0, events, s) && s.steady && s.calm && IsClosing(s, l, k)
    ensures s.posts[l].promised.Some? && RequestOf(s.posts[k]).Some?
    ensures !CanBeEarly(s, l, k) && (KeepsPromise(s, l, k) <==> !AnswerCrosses(s.posts[k]))
  {
    ExecInv(s0, events);
    ExecCalm(s0, events);
    OwnMarker(s, k);
    CalmHasNoPingAfterAck(s, l, k);
    PromiseKeptIff(s0, events, s, l, k);
  }
}
