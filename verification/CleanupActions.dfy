/** The four cleanups: what each does to one pull request in one sweep. Every
    action sees the summary read at the start of the sweep and the full pull
    request read later; `now` is the time the sweep started. */
module CleanupActions {
  import opened Wrappers
  import opened PullRequests

  const CLA_RETRY_AFTER := 7 * DAY
  const CLA_CLOSE_AFTER_RETRY := 1 * DAY
  const DRAFT_PING_AFTER := 21 * DAY
  const DRAFT_CLOSE_AFTER_PING := 7 * DAY
  const CHANGES_PING_AFTER := 14 * DAY
  const CHANGES_CLOSE_AFTER_PING := 7 * DAY
  const CHANGES_CLOSE_AFTER_ACK := 14 * DAY
  const SELF_REVIEW_PING_AFTER := 1 * DAY
  const SELF_REVIEW_CLOSE_AFTER_PING := 3 * DAY

  datatype Cleanup = Cla | StaleDraft | StaleChanges | NoSelfReview

  datatype StepKind = RetryClaCheck | Ping | Acknowledge | Close

  datatype Step = Step(kind: StepKind, comment: Option<Text>)

  /** The order in which a sweep tries the cleanups. */
  const CLEANUPS: seq<Cleanup> := [Cla, StaleDraft, StaleChanges, NoSelfReview]

  /** A notice that names the day on which the pull request may be closed. */
  function WithClosingDate(m: Marker, closesAfter: Time, now: Time): Text {
    Marked(m, Some(DateOf(now + closesAfter)))
  }

  /** Dates are compared, not durations, so that the promised day is kept even
      when that day's sweep starts early. */
  predicate ClosingDateReached(noticeAt: Time, closesAfter: Time, now: Time) {
    DateOf(now) >= DateOf(noticeAt + closesAfter)
  }

  // ---------- clocks ----------

  function DraftActiveAt(summary: PullRequest): Time
    requires |summary.commits| > 0
  {
    var draftedAt := if summary.convertedToDraftAt.Some? then summary.convertedToDraftAt.value else summary.createdAt;
    Max(draftedAt, summary.commits[|summary.commits| - 1].at)
  }

  function SelfReviewStartedAt(full: PullRequest): Time {
    var labeled := LabeledAt(full.timeline, NoSelfReviewLabel);
    ReadyAt(full.timeline, if labeled.Some? then labeled.value else full.createdAt)
  }

  /** When the clock of a cleanup started, if it has one. */
  function Clock(c: Cleanup, staff: set<Login>, summary: PullRequest, full: PullRequest): Option<Time>
    requires |summary.commits| > 0
  {
    match c
    case Cla => Some(ClockStart(full.timeline, summary.createdAt))
    case StaleDraft => Some(ClockStart(full.timeline, DraftActiveAt(summary)))
    case StaleChanges =>
      var requestedAt := StaffChangeRequestAt(summary.reviews, staff);
      if requestedAt.None? then None else Some(ClockStart(full.timeline, requestedAt.value))
    case NoSelfReview => Some(ClockStart(full.timeline, SelfReviewStartedAt(full)))
  }

  // ---------- actions ----------

  function ClaAction(summary: PullRequest, full: PullRequest, now: Time): Option<Step> {
    if !IsCommunity(summary.labels) || ClaSigned in summary.labels || now - summary.createdAt < CLA_RETRY_AFTER then
      None
    else
      var since := ClockStart(full.timeline, summary.createdAt);
      if BotCommentedAt(full.comments, ClaClose, since).Some? then Some(Step(Close, None))
      else if now - since < CLA_RETRY_AFTER then None
      else if AuthorCommentedAt(full, since).Some? then None
      else
        var retriedAt := BotCommentedAt(full.comments, ClaRetry, since);
        if retriedAt.None? then Some(Step(RetryClaCheck, Some(Marked(ClaRetry, None))))
        else if now - retriedAt.value >= CLA_CLOSE_AFTER_RETRY then Some(Step(Close, Some(Marked(ClaClose, None))))
        else None
  }

  function DraftAction(summary: PullRequest, full: PullRequest, now: Time): Option<Step>
    requires |summary.commits| > 0
  {
    if !summary.isDraft || now - DraftActiveAt(summary) < DRAFT_PING_AFTER then None
    else
      var since := ClockStart(full.timeline, DraftActiveAt(summary));
      if BotCommentedAt(full.comments, DraftClose, since).Some? then Some(Step(Close, None))
      else if now - since < DRAFT_PING_AFTER then None
      else
        var pingedAt := BotCommentedAt(full.comments, DraftPing, since);
        if pingedAt.None? then Some(Step(Ping, Some(Marked(DraftPing, None))))
        else if now - pingedAt.value >= DRAFT_CLOSE_AFTER_PING then Some(Step(Close, Some(Marked(DraftClose, None))))
        else None
  }

  function ChangesAction(staff: set<Login>, summary: PullRequest, full: PullRequest, now: Time): Option<Step> {
    var requestedAt := StaffChangeRequestAt(summary.reviews, staff);
    if summary.isDraft || !IsCommunity(summary.labels) then None
    else if requestedAt.None? || now - requestedAt.value < CHANGES_PING_AFTER then None
    else if ReviewRequestedSince(full.timeline, requestedAt.value) || AuthorPushedSince(full, requestedAt.value) then
      None
    else
      var since := ClockStart(full.timeline, requestedAt.value);
      if BotCommentedAt(full.comments, ChangesClose, since).Some? then Some(Step(Close, None))
      else
        var commentedAt := AuthorCommentedAt(full, since);
        var pingedAt := BotCommentedAt(full.comments, ChangesPing, since);
        if pingedAt.None? then
          if now - (if commentedAt.Some? then commentedAt.value else since) < CHANGES_PING_AFTER then None
          else Some(Step(Ping, Some(WithClosingDate(ChangesPing, CHANGES_CLOSE_AFTER_PING, now))))
        else
          var acknowledgedAt := BotCommentedAt(full.comments, ChangesAck, since);
          var noticeAt := if acknowledgedAt.Some? then acknowledgedAt.value else pingedAt.value;
          var closesAfter := if acknowledgedAt.Some? then CHANGES_CLOSE_AFTER_ACK else CHANGES_CLOSE_AFTER_PING;
          if commentedAt.Some? && commentedAt.value > noticeAt then
            Some(Step(Acknowledge, Some(WithClosingDate(ChangesAck, CHANGES_CLOSE_AFTER_ACK, now))))
          else if ClosingDateReached(noticeAt, closesAfter, now) then
            Some(Step(Close, Some(Marked(ChangesClose, None))))
          else None
  }

  function SelfReviewAction(summary: PullRequest, full: PullRequest, now: Time): Option<Step> {
    if summary.isDraft || NoSelfReviewLabel !in summary.labels || !IsCommunity(summary.labels) then None
    else
      var since := ClockStart(full.timeline, SelfReviewStartedAt(full));
      if BotCommentedAt(full.comments, SelfReviewClose, since).Some? then Some(Step(Close, None))
      else
        var pingedAt := BotCommentedAt(full.comments, SelfReviewPing, since);
        if pingedAt.None? then
          if full.noticeInReadme && now - since >= SELF_REVIEW_PING_AFTER then
            Some(Step(Ping, Some(WithClosingDate(SelfReviewPing, SELF_REVIEW_CLOSE_AFTER_PING, now))))
          else None
        else if !ClosingDateReached(pingedAt.value, SELF_REVIEW_CLOSE_AFTER_PING, now) then None
        else if full.noticeInReadme || AuthorCommentedAt(full, pingedAt.value).None? then
          Some(Step(Close, Some(Marked(SelfReviewClose, None))))
        else None
  }

  function Act(c: Cleanup, staff: set<Login>, summary: PullRequest, full: PullRequest, now: Time): Option<Step>
    requires |summary.commits| > 0
  {
    match c
    case Cla => ClaAction(summary, full, now)
    case StaleDraft => DraftAction(summary, full, now)
    case StaleChanges => ChangesAction(staff, summary, full, now)
    case NoSelfReview => SelfReviewAction(summary, full, now)
  }

  // ---------- facts the protocol builds on ----------

  /** The cleanup that writes a marker. */
  function Owner(m: Marker): Cleanup {
    match m
    case ClaRetry | ClaClose => Cla
    case DraftPing | DraftClose => StaleDraft
    case ChangesPing | ChangesAck | ChangesClose => StaleChanges
    case SelfReviewPing | SelfReviewClose => NoSelfReview
  }

  /** The closing comment of a cleanup. */
  function CloseMarker(c: Cleanup): Marker {
    match c
    case Cla => ClaClose
    case StaleDraft => DraftClose
    case StaleChanges => ChangesClose
    case NoSelfReview => SelfReviewClose
  }

  /** What a comment step means: it belongs to its cleanup, a closing step is
      the only one that writes the closing comment, and every marker but the
      acknowledgement is written only when none of its kind is younger than the
      clock, which by then started before the sweep. */
  lemma {:induction false} CommentStep(c: Cleanup, staff: set<Login>, summary: PullRequest, full: PullRequest,
                                       now: Time)
    requires |summary.commits| > 0
    requires var step := Act(c, staff, summary, full, now); step.Some? && step.value.comment.Some?
    ensures var step := Act(c, staff, summary, full, now).value; var text := step.comment.value;
            var clock := Clock(c, staff, summary, full);
            && text.Marked? && Owner(text.marker) == c
            && (step.kind == Close <==> text.marker == CloseMarker(c))
            && clock.Some?
            && (text.marker != ChangesAck ==> BotCommentedAt(full.comments, text.marker, clock.value).None?)
            && BotCommentedAt(full.comments, CloseMarker(c), clock.value).None?
  {
  }

  /** The notice a closing or an acknowledgement answers to: the latest
      acknowledgement of the epoch, else the latest ping. */
  function NoticeAt(full: PullRequest, since: Time): Option<Time> {
    var acknowledgedAt := BotCommentedAt(full.comments, ChangesAck, since);
    if acknowledgedAt.Some? then acknowledgedAt else BotCommentedAt(full.comments, ChangesPing, since)
  }

  function ClosesAfter(full: PullRequest, since: Time): Time {
    if BotCommentedAt(full.comments, ChangesAck, since).Some? then CHANGES_CLOSE_AFTER_ACK else CHANGES_CLOSE_AFTER_PING
  }

  /** How long after its warning a cleanup may post its closing comment. Where
      the warning names a day, the closing sweep may run earlier on that day
      than the warning did. */
  function WaitAfterWarning(c: Cleanup): Time {
    match c
    case Cla => CLA_CLOSE_AFTER_RETRY
    case StaleDraft => DRAFT_CLOSE_AFTER_PING
    case StaleChanges => CHANGES_CLOSE_AFTER_PING - DAY + 1
    case NoSelfReview => SELF_REVIEW_CLOSE_AFTER_PING - DAY + 1
  }

  function Warning(c: Cleanup): Marker {
    match c
    case Cla => ClaRetry
    case StaleDraft => DraftPing
    case StaleChanges => ChangesPing
    case NoSelfReview => SelfReviewPing
  }

  /** How long a notice promises to wait. */
  function NoticePeriod(m: Marker): Time {
    match m
    case ChangesPing => CHANGES_CLOSE_AFTER_PING
    case ChangesAck => CHANGES_CLOSE_AFTER_ACK
    case SelfReviewPing => SELF_REVIEW_CLOSE_AFTER_PING
    case _ => 0
  }

  /** A warning comes strictly after the clock started; nothing else is posted
      without a warning younger than the clock, and the closing comment not
      before the wait is over. */
  lemma {:induction false} WarningFirst(c: Cleanup, staff: set<Login>, summary: PullRequest, full: PullRequest,
                                        now: Time)
    requires |summary.commits| > 0
    requires var step := Act(c, staff, summary, full, now); step.Some? && step.value.comment.Some?
    ensures var text := Act(c, staff, summary, full, now).value.comment.value;
            && text.Marked? && Clock(c, staff, summary, full).Some?
            && var since := Clock(c, staff, summary, full).value;
               var warnedAt := BotCommentedAt(full.comments, Warning(c), since);
               if text.marker == Warning(c) then since < now
               else
                 && warnedAt.Some?
                 && (text.marker == CloseMarker(c)
                     && (c == StaleChanges ==> BotCommentedAt(full.comments, ChangesAck, since).None?)
                     ==> warnedAt.value + WaitAfterWarning(c) <= now)
  {
  }

  /** The notices that name a day. */
  predicate NamesDay(m: Marker) {
    m == ChangesPing || m == ChangesAck || m == SelfReviewPing
  }

  /** Every such notice names the day its period ends, counted from the sweep. */
  lemma {:induction false} NoticeNamesDay(c: Cleanup, staff: set<Login>, summary: PullRequest,
                                          full: PullRequest, now: Time, text: Text)
    requires |summary.commits| > 0
    requires var step := Act(c, staff, summary, full, now); step.Some? && step.value.comment == Some(text)
    requires text.Marked? && NamesDay(text.marker)
    ensures text == WithClosingDate(text.marker, NoticePeriod(text.marker), now)
  {
    match c
    case Cla => assert false;
    case StaleDraft => assert false;
    case StaleChanges =>
      if text.marker == ChangesPing {
        assert text == WithClosingDate(ChangesPing, CHANGES_CLOSE_AFTER_PING, now);
      } else {
        assert text == WithClosingDate(ChangesAck, CHANGES_CLOSE_AFTER_ACK, now);
      }
    case NoSelfReview =>
  }

  /** A ping comes when the clock has run for its time; an acknowledgement answers
      a comment later than the notice in force; a closing finds none, and comes on
      or after the day of that notice; all with no push and no review request
      since the change request. */
  lemma {:induction false} ChangesStep(staff: set<Login>, summary: PullRequest, full: PullRequest, now: Time)
    requires var step := ChangesAction(staff, summary, full, now); step.Some? && step.value.comment.Some?
    ensures var text := ChangesAction(staff, summary, full, now).value.comment.value;
            var requestedAt := StaffChangeRequestAt(summary.reviews, staff);
            && text.Marked? && requestedAt.Some?
            && !ReviewRequestedSince(full.timeline, requestedAt.value)
            && !AuthorPushedSince(full, requestedAt.value)
            && var since := ClockStart(full.timeline, requestedAt.value);
               var noticeAt := NoticeAt(full, since);
               && (text.marker == ChangesPing ==> since + CHANGES_PING_AFTER <= now)
               && (text.marker == ChangesAck ==> noticeAt.Some? && !AuthorSilentAfter(full, noticeAt.value))
               && (text.marker == ChangesClose ==>
                     && noticeAt.Some?
                     && AuthorSilentAfter(full, noticeAt.value)
                     && ClosingDateReached(noticeAt.value, ClosesAfter(full, since), now))
  {
  }

  /** A "no self-review" closing comes on or after the day of the ping, and only
      if the notice is still there or the author has not commented since. */
  lemma {:induction false} SelfReviewStep(summary: PullRequest, full: PullRequest, now: Time)
    requires var step := SelfReviewAction(summary, full, now);
             step.Some? && step.value.comment.Some? && step.value.comment.value.Marked?
             && step.value.comment.value.marker == SelfReviewClose
    ensures var since := ClockStart(full.timeline, SelfReviewStartedAt(full));
            var pingedAt := BotCommentedAt(full.comments, SelfReviewPing, since);
            && pingedAt.Some?
            && ClosingDateReached(pingedAt.value, SELF_REVIEW_CLOSE_AFTER_PING, now)
            && (full.noticeInReadme || AuthorSilentAfter(full, pingedAt.value))
  {
  }
}
