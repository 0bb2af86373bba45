/** How long an untouched pull request stays open under regular sweeps, for each
    cleanup taken alone. */
module CleanupTiming {
  import opened Wrappers
  import opened PullRequests
  import opened CleanupActions
  import opened CleanupProtocol

  /** A sweep that starts at `now`, whose writes are stamped `at`, and to which
      GitHub names this staff. */
  datatype Visit = Visit(now: Time, at: Time, staff: set<Login>)

  /** One successful sweep with only this cleanup. */
  function SoloStep(c: Cleanup, pr: PullRequest, v: Visit): (r: PullRequest)
    requires |pr.commits| > 0
    ensures r.reviews == pr.reviews
  {
    var step := Act(c, v.staff, pr, pr, v.now);
    if pr.closedAt.Some? || step.None? then pr
    else
      var commented :=
        if step.value.comment.None? then pr
        else pr.(comments := pr.comments + [Comment(v.at, Some(CommunityBot), step.value.comment.value)]);
      if step.value.kind == Close then ClosePull(commented, v.at) else commented
  }

  function SoloRun(c: Cleanup, pr: PullRequest, visits: seq<Visit>): PullRequest
    requires |pr.commits| > 0
    decreases |visits|
  {
    if visits == [] then pr else SoloRun(c, SoloStep(c, pr, visits[0]), visits[1..])
  }

  /** Visits at most a day apart, each written within `delay`. */
  predicate Regular(visits: seq<Visit>, from: Time, delay: Time) {
    visits != [] ==>
      && from <= visits[0].now <= from + DAY
      && visits[0].now <= visits[0].at <= visits[0].now + delay
      && (|visits| > 1 ==> visits[0].at < visits[1].now)
      && Regular(visits[1..], visits[0].now, delay)
  }

  /** To all of them the same change request counts. */
  ghost predicate SameRequest(visits: seq<Visit>, reviews: seq<Review>, staff: set<Login>) {
    forall i {:trigger SameTo(visits[i], reviews, staff)} | 0 <= i < |visits| :: SameTo(visits[i], reviews, staff)
  }

  ghost predicate SameTo(v: Visit, reviews: seq<Review>, staff: set<Login>) {
    StaffChangeRequestAt(reviews, v.staff) == StaffChangeRequestAt(reviews, staff)
  }

  function PingAfter(c: Cleanup): Time {
    match c
    case Cla => CLA_RETRY_AFTER
    case StaleDraft => DRAFT_PING_AFTER
    case StaleChanges => CHANGES_PING_AFTER
    case NoSelfReview => SELF_REVIEW_PING_AFTER
  }

  function CloseAfterPing(c: Cleanup): Time {
    match c
    case Cla => CLA_CLOSE_AFTER_RETRY
    case StaleDraft => DRAFT_CLOSE_AFTER_PING
    case StaleChanges => CHANGES_CLOSE_AFTER_PING
    case NoSelfReview => SELF_REVIEW_CLOSE_AFTER_PING
  }

  /** Two of the cleanups count days, the others durations. */
  predicate CountsDays(c: Cleanup) {
    c == StaleChanges || c == NoSelfReview
  }

  predicate Due(c: Cleanup, pingedAt: Time, now: Time) {
    if CountsDays(c) then ClosingDateReached(pingedAt, CloseAfterPing(c), now) else now - pingedAt >= CloseAfterPing(c)
  }

  /** The cleanup applies, its clock started at `since`, and nobody has touched
      the pull request after that. */
  ghost predicate Untouched(c: Cleanup, staff: set<Login>, pr: PullRequest, since: Time)
    requires |pr.commits| > 0
  {
    && pr.closedAt.None?
    && Clock(c, staff, pr, pr) == Some(since)
    && BotCommentedAt(pr.comments, CloseMarker(c), since).None?
    && match c
       case Cla => IsCommunity(pr.labels) && ClaSigned !in pr.labels && AuthorSilentAfter(pr, since)
       case StaleDraft => pr.isDraft
       case StaleChanges =>
         var requestedAt := StaffChangeRequestAt(pr.reviews, staff);
         && IsCommunity(pr.labels) && !pr.isDraft && pr.author != Some(CommunityBot) && AuthorSilentAfter(pr, since)
         && requestedAt.Some? && !ReviewRequestedSince(pr.timeline, requestedAt.value)
         && !AuthorPushedSince(pr, requestedAt.value)
         && BotCommentedAt(pr.comments, ChangesAck, since).None?
       case NoSelfReview =>
         !pr.isDraft && NoSelfReviewLabel in pr.labels && IsCommunity(pr.labels) && pr.noticeInReadme
  }

  /** Untouched since the clock started, and not warned yet. */
  lemma {:induction false} WaitsThenWarns(c: Cleanup, pr: PullRequest, since: Time, v: Visit)
    requires |pr.commits| > 0 && Untouched(c, v.staff, pr, since) && v.now <= v.at
    requires BotCommentedAt(pr.comments, Warning(c), since).None?
    ensures var pr' := SoloStep(c, pr, v);
            if v.now - since < PingAfter(c) then pr' == pr
            else
              && |pr'.commits| > 0 && Untouched(c, v.staff, pr', since)
              && BotCommentedAt(pr'.comments, Warning(c), since) == Some(v.at)
  {
    var pr' := SoloStep(c, pr, v);
    if v.now - since >= PingAfter(c) {
      var step := Act(c, v.staff, pr, pr, v.now);
      assert step.Some? && step.value.kind != Close && step.value.comment.Some?;
      var added := Comment(v.at, Some(CommunityBot), step.value.comment.value);
      assert pr' == pr.(comments := pr.comments + [added]) && BotSaid(added, Warning(c));
      StaysUntouched(c, v.staff, pr, since, added);
    }
  }

  lemma {:induction false} StaysSilent(pr: PullRequest, added: Comment, since: Time)
    requires AuthorSilentAfter(pr, since) && !Counts(added, pr.author)
    ensures AuthorSilentAfter(pr.(comments := pr.comments + [added]), since)
  {
  }

  /** The bot's own comment does not touch the pull request. */
  lemma {:induction false} StaysUntouched(c: Cleanup, staff: set<Login>, pr: PullRequest, since: Time, added: Comment)
    requires |pr.commits| > 0 && Untouched(c, staff, pr, since)
    requires BotSaid(added, Warning(c)) && added.at > since
    requires BotCommentedAt(pr.comments, Warning(c), since).None?
    ensures var pr' := pr.(comments := pr.comments + [added]);
            Untouched(c, staff, pr', since) && BotCommentedAt(pr'.comments, Warning(c), since) == Some(added.at)
  {
    var pr' := pr.(comments := pr.comments + [added]);
    match c
    case Cla => StaysSilent(pr, added, since);
    case StaleDraft =>
    case StaleChanges =>
      StaysSilent(pr, added, since);
      assert AuthorPushedSince(pr', StaffChangeRequestAt(pr.reviews, staff).value)
          == AuthorPushedSince(pr, StaffChangeRequestAt(pr.reviews, staff).value);
    case NoSelfReview =>
  }

  /** Warned at `pingedAt`: nothing until the closing is due, then closed. */
  lemma {:induction false} WaitsThenCloses(c: Cleanup, pr: PullRequest, since: Time, pingedAt: Time, v: Visit)
    requires |pr.commits| > 0 && Untouched(c, v.staff, pr, since)
    requires BotCommentedAt(pr.comments, Warning(c), since) == Some(pingedAt)
    requires since + PingAfter(c) <= pingedAt <= v.now
    ensures var pr' := SoloStep(c, pr, v);
            if Due(c, pingedAt, v.now) then pr'.closedAt == Some(v.at) && |pr'.commits| > 0 else pr' == pr
  {
    if c == StaleChanges {
      assert AuthorCommentedAt(pr, since).None?;
    }
  }

  lemma {:induction false} UntouchedForAll(c: Cleanup, staff: set<Login>, other: set<Login>, pr: PullRequest,
                                           since: Time)
    requires |pr.commits| > 0 && Untouched(c, staff, pr, since)
    requires StaffChangeRequestAt(pr.reviews, other) == StaffChangeRequestAt(pr.reviews, staff)
    ensures Untouched(c, other, pr, since)
  {
  }

  /** The two kinds of visit, for the staff at the clock's start. */
  lemma {:induction false} WarnStep(c: Cleanup, staff: set<Login>, pr: PullRequest, since: Time, v: Visit)
    requires |pr.commits| > 0 && Untouched(c, staff, pr, since) && SameTo(v, pr.reviews, staff) && v.now <= v.at
    requires BotCommentedAt(pr.comments, Warning(c), since).None?
    ensures var pr' := SoloStep(c, pr, v);
            if v.now - since < PingAfter(c) then pr' == pr
            else
              && |pr'.commits| > 0 && Untouched(c, staff, pr', since)
              && BotCommentedAt(pr'.comments, Warning(c), since) == Some(v.at)
  {
    UntouchedForAll(c, staff, v.staff, pr, since);
    WaitsThenWarns(c, pr, since, v);
    if v.now - since >= PingAfter(c) {
      UntouchedForAll(c, v.staff, staff, SoloStep(c, pr, v), since);
    }
  }

  lemma {:induction false} CloseStep(c: Cleanup, staff: set<Login>, pr: PullRequest, since: Time,
                                     pingedAt: Time, v: Visit)
    requires |pr.commits| > 0 && Untouched(c, staff, pr, since) && SameTo(v, pr.reviews, staff)
    requires BotCommentedAt(pr.comments, Warning(c), since) == Some(pingedAt)
    requires since + PingAfter(c) <= pingedAt <= v.now
    ensures var pr' := SoloStep(c, pr, v);
            if Due(c, pingedAt, v.now) then pr'.closedAt == Some(v.at) && |pr'.commits| > 0 else pr' == pr
  {
    UntouchedForAll(c, staff, v.staff, pr, since);
    WaitsThenCloses(c, pr, since, pingedAt, v);
  }

  lemma {:induction false} StillSame(visits: seq<Visit>, reviews: seq<Review>, staff: set<Login>)
    requires SameRequest(visits, reviews, staff) && visits != []
    ensures SameTo(visits[0], reviews, staff) && SameRequest(visits[1..], reviews, staff)
  {
    forall i | 0 <= i < |visits[1..]| ensures SameTo(visits[1..][i], reviews, staff) {
      assert visits[1..][i] == visits[i + 1];
      assert SameTo(visits[i + 1], reviews, staff);
    }
  }

  lemma {:induction false} ClosedStays(c: Cleanup, pr: PullRequest, visits: seq<Visit>)
    requires |pr.commits| > 0 && pr.closedAt.Some?
    ensures SoloRun(c, pr, visits) == pr
  {
    if visits != [] {
      ClosedStays(c, pr, visits[1..]);
    }
  }

  lemma {:induction false} WarnedIsClosed(c: Cleanup, staff: set<Login>, pr: PullRequest, since: Time,
                                          pingedAt: Time, visits: seq<Visit>, last: Time, delay: Time)
    requires |pr.commits| > 0 && Untouched(c, staff, pr, since)
    requires BotCommentedAt(pr.comments, Warning(c), since) == Some(pingedAt)
    requires since + PingAfter(c) <= pingedAt
    requires last <= pingedAt || !Due(c, pingedAt, last)
    requires SameRequest(visits, pr.reviews, staff) && Regular(visits, last, delay)
    requires visits != [] ==> pingedAt <= visits[0].now
    requires last >= pingedAt + CloseAfterPing(c)
             || (visits != [] && visits[|visits| - 1].now >= pingedAt + CloseAfterPing(c))
    ensures var closedAt := SoloRun(c, pr, visits).closedAt;
            && closedAt.Some?
            && closedAt.value < pingedAt + CloseAfterPing(c) + DAY + delay
            && (if CountsDays(c) then pingedAt + CloseAfterPing(c) - DAY < closedAt.value
                else pingedAt + CloseAfterPing(c) <= closedAt.value)
  {
    var v := visits[0];
    var pr' := SoloStep(c, pr, v);
    StillSame(visits, pr.reviews, staff);
    CloseStep(c, staff, pr, since, pingedAt, v);
    if Due(c, pingedAt, v.now) {
      ClosedStays(c, pr', visits[1..]);
    } else {
      WarnedIsClosed(c, staff, pr, since, pingedAt, visits[1..], v.now, delay);
    }
  }

  /** With sweeps at most a day apart and every write within `delay`, a pull
      request nobody touches after `since` is warned on the first sweep after
      the waiting time and closed on the first one after the closing is due. */
  lemma {:induction false} UntouchedIsClosed(c: Cleanup, staff: set<Login>, pr: PullRequest, since: Time,
                                             visits: seq<Visit>, last: Time, delay: Time)
    requires |pr.commits| > 0 && Untouched(c, staff, pr, since)
    requires BotCommentedAt(pr.comments, Warning(c), since).None?
    requires last < since + PingAfter(c) && 0 <= delay
    requires visits != [] && Regular(visits, last, delay) && SameRequest(visits, pr.reviews, staff)
    requires visits[|visits| - 1].now >= since + PingAfter(c) + CloseAfterPing(c) + DAY + delay
    ensures var closedAt := SoloRun(c, pr, visits).closedAt;
            && closedAt.Some?
            && closedAt.value < since + PingAfter(c) + CloseAfterPing(c) + 2 * DAY + 2 * delay
            && (if CountsDays(c) then since + PingAfter(c) + CloseAfterPing(c) - DAY < closedAt.value
                else since + PingAfter(c) + CloseAfterPing(c) <= closedAt.value)
  {
    var v := visits[0];
    assert |visits| > 1 && visits[1..][|visits| - 2] == visits[|visits| - 1];
    StillSame(visits, pr.reviews, staff);
    WarnStep(c, staff, pr, since, v);
    if v.now - since < PingAfter(c) {
      UntouchedIsClosed(c, staff, pr, since, visits[1..], v.now, delay);
    } else {
      var pr' := SoloStep(c, pr, v);
      assert v.at < since + PingAfter(c) + DAY + delay;
      WarnedIsClosed(c, staff, pr', since, v.at, visits[1..], v.now, delay);
    }
  }

  /** The resulting intervals, counted from the clock start, for writes that are
      stamped when the sweep starts. */
  lemma {:induction false} ClosingIntervals(c: Cleanup, staff: set<Login>, pr: PullRequest, since: Time,
                                            visits: seq<Visit>)
    requires |pr.commits| > 0 && Untouched(c, staff, pr, since)
    requires BotCommentedAt(pr.comments, Warning(c), since).None?
    requires visits != [] && Regular(visits, since, 0) && SameRequest(visits, pr.reviews, staff)
    requires visits[|visits| - 1].now >= since + 29 * DAY
    ensures var closedAt := SoloRun(c, pr, visits).closedAt;
            closedAt.Some? &&
            match c
            case Cla => since + 8 * DAY <= closedAt.value < since + 10 * DAY
            case StaleDraft => since + 28 * DAY <= closedAt.value < since + 30 * DAY
            case StaleChanges => since + 20 * DAY < closedAt.value < since + 23 * DAY
            case NoSelfReview => since + 3 * DAY < closedAt.value < since + 6 * DAY
  {
    UntouchedIsClosed(c, staff, pr, since, visits, since, 0);
  }
}
