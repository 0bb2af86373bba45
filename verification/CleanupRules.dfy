/** Exactly when each cleanup does what, over the raw data and in days. */
module CleanupRules {
  import opened Wrappers
  import opened PullRequests
  import opened CleanupActions

  // ---------- what the readings hold ----------

  /** The bot has posted the marker after `since`. */
  predicate Posted(full: PullRequest, m: Marker, since: Time) {
    exists i | 0 <= i < |full.comments| :: IsPost(full.comments[i], m, since)
  }

  predicate IsPost(c: Comment, m: Marker, since: Time) {
    c.who == Some(CommunityBot) && c.text.Marked? && c.text.marker == m && c.at > since
  }

  /** All posts of the marker after `since` are at least as old as `age`. */
  predicate PostsAged(full: PullRequest, m: Marker, since: Time, now: Time, age: Time) {
    forall i | 0 <= i < |full.comments| && IsPost(full.comments[i], m, since) :: full.comments[i].at + age <= now
  }

  /** The period of every post of the marker after `since` ends on a day that has
      come. */
  predicate PostsOver(full: PullRequest, m: Marker, since: Time, now: Time, period: Time) {
    forall i | 0 <= i < |full.comments| && IsPost(full.comments[i], m, since) ::
      (full.comments[i].at + period) / 86400 <= now / 86400
  }

  /** The author has commented, other than to retry the CLA check, or replied in a
      review, later than `t`. */
  predicate AuthorActed(full: PullRequest, t: Time) {
    || (exists i | 0 <= i < |full.comments| ::
          full.comments[i].who == full.author && full.comments[i].at > t
          && !(full.comments[i].text.Marked? && full.comments[i].text.marker == ClaRetry))
    || (exists i | 0 <= i < |full.timeline| ::
          full.timeline[i].ReviewSubmitted? && full.timeline[i].who == full.author && full.timeline[i].at > t)
  }

  /** ... later than every post of the marker after `since`. */
  predicate Answered(full: PullRequest, m: Marker, since: Time) {
    || (exists i | 0 <= i < |full.comments| ::
          full.comments[i].who == full.author && full.comments[i].at > since
          && !(full.comments[i].text.Marked? && full.comments[i].text.marker == ClaRetry)
          && LaterThanPosts(full, m, since, full.comments[i].at))
    || (exists i | 0 <= i < |full.timeline| ::
          full.timeline[i].ReviewSubmitted? && full.timeline[i].who == full.author && full.timeline[i].at > since
          && LaterThanPosts(full, m, since, full.timeline[i].at))
  }

  predicate LaterThanPosts(full: PullRequest, m: Marker, since: Time, t: Time) {
    forall i | 0 <= i < |full.comments| && IsPost(full.comments[i], m, since) :: full.comments[i].at < t
  }

  predicate IsForCommunity(labels: set<Label>) {
    !(Staff in labels) && !(Bot in labels)
  }

  /** `since` is the later of `startedAt` and the latest reopen. */
  predicate IsClock(timeline: seq<TimelineItem>, startedAt: Time, since: Time) {
    && startedAt <= since
    && (forall i | 0 <= i < |timeline| && timeline[i].Reopened? :: timeline[i].at <= since)
    && (since == startedAt || exists i | 0 <= i < |timeline| :: timeline[i].Reopened? && timeline[i].at == since)
  }

  // ---------- what the queries find ----------

  lemma {:induction false} ClockIs(timeline: seq<TimelineItem>, startedAt: Time, since: Time)
    requires IsClock(timeline, startedAt, since)
    ensures ClockStart(timeline, startedAt) == since
  {
  }

  lemma {:induction false} PostIs(full: PullRequest, m: Marker, since: Time)
    ensures var at := BotCommentedAt(full.comments, m, since);
            && (at.Some? <==> Posted(full, m, since))
            && (at.Some? ==>
                  && (forall now, age :: PostsAged(full, m, since, now, age) <==> at.value + age <= now)
                  && (forall t :: LaterThanPosts(full, m, since, t) <==> at.value < t))
  {
    var at := BotCommentedAt(full.comments, m, since);
    if at.Some? {
      var i :| 0 <= i < |full.comments| && BotSaid(full.comments[i], m) && full.comments[i].at == at.value;
      assert IsPost(full.comments[i], m, since);
    }
  }

  lemma {:induction false} PostIsOver(full: PullRequest, m: Marker, since: Time, now: Time, period: Time)
    requires BotCommentedAt(full.comments, m, since).Some?
    ensures PostsOver(full, m, since, now, period)
            <==> ClosingDateReached(BotCommentedAt(full.comments, m, since).value, period, now)
  {
    var at := BotCommentedAt(full.comments, m, since).value;
    var i :| 0 <= i < |full.comments| && BotSaid(full.comments[i], m) && full.comments[i].at == at;
    assert IsPost(full.comments[i], m, since);
    forall j | 0 <= j < |full.comments| && IsPost(full.comments[j], m, since)
      ensures (full.comments[j].at + period) / 86400 <= (at + period) / 86400
    {
      assert full.comments[j].at <= at;
    }
  }

  lemma {:induction false} ActedIs(full: PullRequest, since: Time)
    ensures AuthorCommentedAt(full, since).Some? <==> AuthorActed(full, since)
    ensures AuthorCommentedAt(full, since).Some? ==>
              forall t | t >= since :: AuthorActed(full, t) <==> t < AuthorCommentedAt(full, since).value
  {
    SilentIs(full, since);
    var at := AuthorCommentedAt(full, since);
    if at.Some? {
      forall t | t >= since ensures AuthorActed(full, t) <==> t < at.value {
        SilentIs(full, t);
        if t >= at.value {
          assert AuthorSilentAfter(full, at.value);
        }
      }
    }
  }

  lemma {:induction false} SilentIs(full: PullRequest, t: Time)
    ensures AuthorSilentAfter(full, t) <==> !AuthorActed(full, t)
  {
    if AuthorActed(full, t) {
      if i :| 0 <= i < |full.comments| && full.comments[i].who == full.author && full.comments[i].at > t
              && !(full.comments[i].text.Marked? && full.comments[i].text.marker == ClaRetry) {
        assert Counts(full.comments[i], full.author);
      } else {
        var i :| 0 <= i < |full.timeline| && full.timeline[i].ReviewSubmitted?
                 && full.timeline[i].who == full.author && full.timeline[i].at > t;
        assert ReviewedBy(full.timeline[i], full.author);
      }
    }
  }

  /** Answers are acts later than the latest post. */
  lemma {:induction false} AnsweredIs(full: PullRequest, m: Marker, since: Time)
    requires BotCommentedAt(full.comments, m, since).Some?
    ensures Answered(full, m, since) <==> AuthorActed(full, BotCommentedAt(full.comments, m, since).value)
  {
    PostIs(full, m, since);
  }

  // ---------- missing CLA ----------

  /** Seven days old and unsigned, by someone outside. */
  predicate ClaApplies(summary: PullRequest, now: Time) {
    IsForCommunity(summary.labels) && !(ClaSigned in summary.labels) && summary.createdAt + 7 * 86400 <= now
  }

  /** The check is retried when the clock has run for seven days and neither the
      author has said anything nor the bot; the pull request is closed a day after
      the retry, or at once when that was announced; and nothing else is done. */
  lemma {:induction false} ClaRule(staff: set<Login>, summary: PullRequest, full: PullRequest, now: Time, since: Time)
    requires |summary.commits| > 0 && IsClock(full.timeline, summary.createdAt, since)
    ensures var step := Act(Cla, staff, summary, full, now);
            var quiet := ClaApplies(summary, now) && since + 7 * 86400 <= now && !AuthorActed(full, since)
                         && !Posted(full, ClaClose, since);
            && (step == Some(Step(RetryClaCheck, Some(Marked(ClaRetry, None)))) <==>
                  quiet && !Posted(full, ClaRetry, since))
            && (step == Some(Step(Close, Some(Marked(ClaClose, None)))) <==>
                  quiet && Posted(full, ClaRetry, since) && PostsAged(full, ClaRetry, since, now, 86400))
            && (step == Some(Step(Close, None)) <==> ClaApplies(summary, now) && Posted(full, ClaClose, since))
            && (step.None? <==>
                  !(ClaApplies(summary, now) && Posted(full, ClaClose, since))
                  && !(quiet && (Posted(full, ClaRetry, since) ==> PostsAged(full, ClaRetry, since, now, 86400))))
  {
    ClockIs(full.timeline, summary.createdAt, since);
    PostIs(full, ClaClose, since);
    PostIs(full, ClaRetry, since);
    ActedIs(full, since);
  }

  // ---------- stale drafts ----------

  /** `active` is the later of becoming a draft and the last commit. */
  predicate IsDraftSince(summary: PullRequest, active: Time)
    requires |summary.commits| > 0
  {
    var draftedAt := if summary.convertedToDraftAt.Some? then summary.convertedToDraftAt.value else summary.createdAt;
    var committedAt := summary.commits[|summary.commits| - 1].at;
    draftedAt <= active && committedAt <= active && (active == draftedAt || active == committedAt)
  }

  predicate DraftApplies(summary: PullRequest, active: Time, now: Time) {
    summary.isDraft && active + 21 * 86400 <= now
  }

  /** A draft is pinged once its clock has run for 21 days, and closed seven days
      after the ping. */
  lemma {:induction false} DraftRule(staff: set<Login>, summary: PullRequest, full: PullRequest, now: Time,
                                     active: Time, since: Time)
    requires |summary.commits| > 0 && IsDraftSince(summary, active) && IsClock(full.timeline, active, since)
    ensures var step := Act(StaleDraft, staff, summary, full, now);
            var due := DraftApplies(summary, active, now) && since + 21 * 86400 <= now
                       && !Posted(full, DraftClose, since);
            && (step == Some(Step(Ping, Some(Marked(DraftPing, None)))) <==> due && !Posted(full, DraftPing, since))
            && (step == Some(Step(Close, Some(Marked(DraftClose, None)))) <==>
                  due && Posted(full, DraftPing, since) && PostsAged(full, DraftPing, since, now, 7 * 86400))
            && (step == Some(Step(Close, None)) <==>
                  DraftApplies(summary, active, now) && Posted(full, DraftClose, since))
            && (step.None? <==>
                  !(DraftApplies(summary, active, now) && Posted(full, DraftClose, since))
                  && !(due && (Posted(full, DraftPing, since) ==> PostsAged(full, DraftPing, since, now, 7 * 86400))))
  {
    ClockIs(full.timeline, active, since);
    PostIs(full, DraftClose, since);
    PostIs(full, DraftPing, since);
  }

  // ---------- requested changes ----------

  /** The last staff review, at `r`, requests changes. */
  predicate StandingRequest(reviews: seq<Review>, staff: set<Login>, r: int) {
    && 0 <= r < |reviews| && reviews[r].verdict == ChangesRequested
    && reviews[r].who.Some? && reviews[r].who.value in staff
    && forall j | r < j < |reviews| :: reviews[j].who.None? || !(reviews[j].who.value in staff)
  }

  /** Staff requested changes, at the time, 14 days ago or more, and the author has
      neither asked for a review nor pushed anything but merges since. */
  predicate ChangesApply(summary: PullRequest, full: PullRequest, requestedAt: Time, now: Time) {
    && !summary.isDraft && IsForCommunity(summary.labels) && requestedAt + 14 * 86400 <= now
    && (forall i | 0 <= i < |full.timeline| && full.timeline[i].ReviewRequested? :: full.timeline[i].at <= requestedAt)
    && (forall i | 0 <= i < |full.commits| && full.commits[i].at > requestedAt ::
          full.commits[i].parents >= 2 || (full.commits[i].who.Some? && full.commits[i].who != full.author))
  }

  /** The author has acted after `since` and within the last 14 days. */
  predicate RecentlyActed(full: PullRequest, since: Time, now: Time) {
    AuthorActed(full, Max(since, now - 14 * 86400))
  }

  lemma {:induction false} RequestIs(reviews: seq<Review>, staff: set<Login>, r: int)
    requires StandingRequest(reviews, staff, r)
    ensures StaffChangeRequestAt(reviews, staff) == Some(reviews[r].at)
  {
    assert LatestByStaff(reviews, staff, r);
  }

  lemma {:induction false} NoRequestIs(reviews: seq<Review>, staff: set<Login>)
    requires forall r :: !StandingRequest(reviews, staff, r)
    ensures StaffChangeRequestAt(reviews, staff).None?
  {
    if i :| LatestByStaff(reviews, staff, i) {
      assert !StandingRequest(reviews, staff, i);
    }
  }

  lemma {:induction false} AppliesIs(summary: PullRequest, full: PullRequest, requestedAt: Time, now: Time)
    ensures ChangesApply(summary, full, requestedAt, now)
            <==> !summary.isDraft && IsCommunity(summary.labels) && now - requestedAt >= CHANGES_PING_AFTER
                 && !ReviewRequestedSince(full.timeline, requestedAt) && !AuthorPushedSince(full, requestedAt)
  {
    forall i | 0 <= i < |full.commits|
      ensures IsAuthorPush(full.commits[i], full.author, requestedAt)
              <==> full.commits[i].at > requestedAt
                   && !(full.commits[i].parents >= 2
                        || (full.commits[i].who.Some? && full.commits[i].who != full.author))
    {
    }
  }

  /** Without a standing request of staff nothing is done. */
  lemma {:induction false} NoRequestRule(staff: set<Login>, summary: PullRequest, full: PullRequest, now: Time)
    requires |summary.commits| > 0 && forall r :: !StandingRequest(summary.reviews, staff, r)
    ensures Act(StaleChanges, staff, summary, full, now).None?
  {
    NoRequestIs(summary.reviews, staff);
  }

  /** What applies to the reading before notices matter, and the queries on it. */
  ghost predicate IsRequest(staff: set<Login>, summary: PullRequest, full: PullRequest, requestedAt: Time,
                            since: Time) {
    && StaffChangeRequestAt(summary.reviews, staff) == Some(requestedAt)
    && ClockStart(full.timeline, requestedAt) == since
  }

  lemma {:induction false} UnpingedAction(staff: set<Login>, summary: PullRequest, full: PullRequest,
                                          now: Time, requestedAt: Time, since: Time)
    requires IsRequest(staff, summary, full, requestedAt, since) && ChangesApply(summary, full, requestedAt, now)
    requires BotCommentedAt(full.comments, ChangesClose, since).None?
    requires BotCommentedAt(full.comments, ChangesPing, since).None?
    ensures ChangesAction(staff, summary, full, now)
            == if since + 14 * 86400 <= now && !RecentlyActed(full, since, now)
               then Some(Step(Ping, Some(Marked(ChangesPing, Some((now + 7 * 86400) / 86400))))) else None
  {
    AppliesIs(summary, full, requestedAt, now);
    ActedIs(full, since);
  }

  lemma {:induction false} PingedAction(staff: set<Login>, summary: PullRequest, full: PullRequest, now: Time,
                                        requestedAt: Time, since: Time, noticeAt: Time)
    requires IsRequest(staff, summary, full, requestedAt, since) && ChangesApply(summary, full, requestedAt, now)
    requires BotCommentedAt(full.comments, ChangesClose, since).None?
    requires BotCommentedAt(full.comments, ChangesPing, since).Some? && NoticeAt(full, since) == Some(noticeAt)
    ensures ChangesAction(staff, summary, full, now)
            == if AuthorActed(full, noticeAt) then
                 Some(Step(Acknowledge, Some(Marked(ChangesAck, Some((now + 14 * 86400) / 86400)))))
               else if ClosingDateReached(noticeAt, ClosesAfter(full, since), now) then
                 Some(Step(Close, Some(Marked(ChangesClose, None)))) else None
  {
    AppliesIs(summary, full, requestedAt, now);
    ActedIs(full, since);
    SilentIs(full, noticeAt);
    SilentIs(full, since);
  }

  /** The notice that counts: the acknowledgements, or else the pings. */
  function NoticeMarker(full: PullRequest, since: Time): Marker {
    if Posted(full, ChangesAck, since) then ChangesAck else ChangesPing
  }

  /** An acknowledgement gives 14 days, a ping seven. */
  function NoticeDays(full: PullRequest, since: Time): int {
    if Posted(full, ChangesAck, since) then 14 else 7
  }

  lemma {:induction false} NoticeIs(full: PullRequest, since: Time, now: Time)
    requires BotCommentedAt(full.comments, ChangesPing, since).Some?
    ensures NoticeAt(full, since).Some?
    ensures Answered(full, NoticeMarker(full, since), since) <==> AuthorActed(full, NoticeAt(full, since).value)
    ensures PostsOver(full, NoticeMarker(full, since), since, now, NoticeDays(full, since) * 86400)
            <==> ClosingDateReached(NoticeAt(full, since).value, ClosesAfter(full, since), now)
  {
    PostIs(full, ChangesAck, since);
    AnsweredIs(full, NoticeMarker(full, since), since);
    PostIsOver(full, NoticeMarker(full, since), since, now, NoticeDays(full, since) * 86400);
  }

  ghost predicate PingDue(full: PullRequest, since: Time, now: Time) {
    !Posted(full, ChangesPing, since) && since + 14 * 86400 <= now && !RecentlyActed(full, since, now)
  }

  ghost predicate AckDue(full: PullRequest, since: Time) {
    Posted(full, ChangesPing, since) && Answered(full, NoticeMarker(full, since), since)
  }

  ghost predicate CloseDue(full: PullRequest, since: Time, now: Time) {
    && Posted(full, ChangesPing, since) && !Answered(full, NoticeMarker(full, since), since)
    && PostsOver(full, NoticeMarker(full, since), since, now, NoticeDays(full, since) * 86400)
  }

  /** With a standing request, which was made when the r-th review says: nothing
      unless the author has left it alone for 14 days. The ping comes when there is
      none of the epoch, and the author has not acted for 14 days of it; the
      acknowledgement when the author has acted since the notice that counts; the
      closing when not and its day has come. A closing that was announced is made. */
  lemma {:induction false} ChangesRule(staff: set<Login>, summary: PullRequest, full: PullRequest, now: Time,
                                       r: int, since: Time)
    requires |summary.commits| > 0
    requires StandingRequest(summary.reviews, staff, r) && IsClock(full.timeline, summary.reviews[r].at, since)
    ensures var step := Act(StaleChanges, staff, summary, full, now);
            var applies := ChangesApply(summary, full, summary.reviews[r].at, now);
            var open := applies && !Posted(full, ChangesClose, since);
            && (step == Some(Step(Ping, Some(Marked(ChangesPing, Some((now + 7 * 86400) / 86400))))) <==>
                  open && PingDue(full, since, now))
            && (step == Some(Step(Acknowledge, Some(Marked(ChangesAck, Some((now + 14 * 86400) / 86400))))) <==>
                  open && AckDue(full, since))
            && (step == Some(Step(Close, Some(Marked(ChangesClose, None)))) <==> open && CloseDue(full, since, now))
            && (step == Some(Step(Close, None)) <==> applies && Posted(full, ChangesClose, since))
            && (step.None? <==>
                  || !applies
                  || (open && !PingDue(full, since, now) && !AckDue(full, since) && !CloseDue(full, since, now)))
  {
    var requestedAt := summary.reviews[r].at;
    RequestIs(summary.reviews, staff, r);
    ClockIs(full.timeline, requestedAt, since);
    PostIs(full, ChangesClose, since);
    PostIs(full, ChangesPing, since);
    if !ChangesApply(summary, full, requestedAt, now) || Posted(full, ChangesClose, since) {
      AppliesIs(summary, full, requestedAt, now);
    } else if !Posted(full, ChangesPing, since) {
      UnpingedAction(staff, summary, full, now, requestedAt, since);
    } else {
      NoticeIs(full, since, now);
      PingedAction(staff, summary, full, now, requestedAt, since, NoticeAt(full, since).value);
    }
  }

  // ---------- no self-review ----------

  /** `started` is the later of the label, or else the opening, and becoming ready
      for review. */
  predicate IsLabeledSince(full: PullRequest, started: Time) {
    && (forall i | 0 <= i < |full.timeline| && Starts(full.timeline[i]) :: full.timeline[i].at <= started)
    && ((exists i | 0 <= i < |full.timeline| :: Starts(full.timeline[i]) && full.timeline[i].at == started)
        || (started == full.createdAt && NeverLabeled(full)))
    && (NeverLabeled(full) ==> full.createdAt <= started)
  }

  predicate Starts(item: TimelineItem) {
    item.ReadyForReview? || (item.Labeled? && item.name == NoSelfReviewLabel)
  }

  predicate NeverLabeled(full: PullRequest) {
    forall i | 0 <= i < |full.timeline| :: !(full.timeline[i].Labeled? && full.timeline[i].name == NoSelfReviewLabel)
  }

  lemma {:induction false} LabelIs(timeline: seq<TimelineItem>, l: Label)
    ensures var at := LabeledAt(timeline, l);
            && (at.None? <==> forall i | 0 <= i < |timeline| :: !(timeline[i].Labeled? && timeline[i].name == l))
            && (at.Some? ==>
                  && (forall i | 0 <= i < |timeline| && timeline[i].Labeled? && timeline[i].name == l ::
                        timeline[i].at <= at.value)
                  && exists i | 0 <= i < |timeline| ::
                       timeline[i].Labeled? && timeline[i].name == l && timeline[i].at == at.value)
  {
    if timeline != [] {
      LabelIs(timeline[..|timeline| - 1], l);
      var last := timeline[|timeline| - 1];
      assert timeline == timeline[..|timeline| - 1] + [last];
      var before := LabeledAt(timeline[..|timeline| - 1], l);
      if last.Labeled? && last.name == l && !(before.Some? && before.value > last.at) {
        assert timeline[|timeline| - 1].at == LabeledAt(timeline, l).value;
      }
    }
  }

  lemma {:induction false} ReadyIs(timeline: seq<TimelineItem>, startedAt: Time)
    ensures var at := ReadyAt(timeline, startedAt);
            && at >= startedAt
            && (forall i | 0 <= i < |timeline| && timeline[i].ReadyForReview? :: timeline[i].at <= at)
            && (at == startedAt
                || exists i | 0 <= i < |timeline| :: timeline[i].ReadyForReview? && timeline[i].at == at)
  {
    if timeline != [] {
      ReadyIs(timeline[..|timeline| - 1], startedAt);
      var last := timeline[|timeline| - 1];
      assert timeline == timeline[..|timeline| - 1] + [last];
    }
  }

  lemma {:induction false} StartIs(full: PullRequest, started: Time)
    requires IsLabeledSince(full, started)
    ensures SelfReviewStartedAt(full) == started
  {
    LabelIs(full.timeline, NoSelfReviewLabel);
    var labeled := LabeledAt(full.timeline, NoSelfReviewLabel);
    ReadyIs(full.timeline, if labeled.Some? then labeled.value else full.createdAt);
    var at := SelfReviewStartedAt(full);
    assert at <= started;
    if labeled.Some? {
      var i :| 0 <= i < |full.timeline| && full.timeline[i].Labeled? && full.timeline[i].name == NoSelfReviewLabel
               && full.timeline[i].at == labeled.value;
      assert Starts(full.timeline[i]);
    }
    assert started <= at;
  }

  predicate SelfReviewApplies(summary: PullRequest) {
    !summary.isDraft && NoSelfReviewLabel in summary.labels && IsForCommunity(summary.labels)
  }

  /** Labeled for a day with the notice still in place, the pull request is pinged;
      it is closed when the day of the ping has come and the notice is still there
      or the author has not acted since. */
  lemma {:induction false} SelfReviewRule(staff: set<Login>, summary: PullRequest, full: PullRequest,
                                          now: Time, started: Time, since: Time)
    requires |summary.commits| > 0 && IsLabeledSince(full, started) && IsClock(full.timeline, started, since)
    ensures var step := Act(NoSelfReview, staff, summary, full, now);
            var open := SelfReviewApplies(summary) && !Posted(full, SelfReviewClose, since);
            var pingDue := !Posted(full, SelfReviewPing, since) && full.noticeInReadme && since + 86400 <= now;
            var closeDue := Posted(full, SelfReviewPing, since)
                            && PostsOver(full, SelfReviewPing, since, now, 3 * 86400)
                            && (full.noticeInReadme || !Answered(full, SelfReviewPing, since));
            && (step == Some(Step(Ping, Some(Marked(SelfReviewPing, Some((now + 3 * 86400) / 86400))))) <==>
                  open && pingDue)
            && (step == Some(Step(Close, Some(Marked(SelfReviewClose, None)))) <==> open && closeDue)
            && (step == Some(Step(Close, None)) <==> SelfReviewApplies(summary) && Posted(full, SelfReviewClose, since))
            && (step.None? <==> !SelfReviewApplies(summary) || (open && !pingDue && !closeDue))
  {
    StartIs(full, started);
    ClockIs(full.timeline, started, since);
    PostIs(full, SelfReviewClose, since);
    PostIs(full, SelfReviewPing, since);
    var pinged := BotCommentedAt(full.comments, SelfReviewPing, since);
    if pinged.Some? {
      AnsweredIs(full, SelfReviewPing, since);
      PostIsOver(full, SelfReviewPing, since, now, 3 * 86400);
      ActedIs(full, pinged.value);
    }
  }
}
