/** Pull requests as the community cleanup script reads them from GitHub, and
    the small queries its four cleanups share. */
module PullRequests {
  import opened Wrappers

  /** Whole seconds, UTC. GitHub stamps whole seconds, and every comparison in
      the script has whole seconds on one side, so dropping the fraction of the
      script's own clock changes no outcome. */
  type Time = int

  type Date = int

  const DAY: int := 86400

  function DateOf(t: Time): Date {
    t / DAY
  }

  datatype Login = CommunityBot | User(name: string)

  datatype Label = Staff | Bot | ClaSigned | NeverStale | NoSelfReviewLabel | OtherLabel(name: string)

  /** What a comment of the bot can contain; the CLA retry is the bare
      "@cla-bot check" that authors also write. */
  datatype Marker =
    | ClaRetry
    | ClaClose
    | DraftPing
    | DraftClose
    | ChangesPing
    | ChangesAck
    | ChangesClose
    | SelfReviewPing
    | SelfReviewClose

  datatype Text = Plain | Marked(marker: Marker, closingDate: Option<Date>)

  datatype Comment = Comment(at: Time, who: Option<Login>, text: Text)

  datatype TimelineItem =
    | Labeled(at: Time, name: Label)
    | Reopened(at: Time)
    | ReadyForReview(at: Time)
    | ReviewRequested(at: Time)
    | ReviewSubmitted(at: Time, who: Option<Login>)

  datatype Verdict = Approved | ChangesRequested | Dismissed

  datatype Review = Review(at: Time, who: Option<Login>, verdict: Verdict)

  datatype Commit = Commit(at: Time, who: Option<Login>, parents: nat)

  datatype PullRequest = PullRequest(
    createdAt: Time,
    author: Option<Login>,
    isDraft: bool,
    labels: set<Label>,
    reviews: seq<Review>,
    commits: seq<Commit>,
    convertedToDraftAt: Option<Time>,
    comments: seq<Comment>,
    timeline: seq<TimelineItem>,
    noticeInReadme: bool,
    closedAt: Option<Time>)

  function Max(a: int, b: int): int {
    if a < b then b else a
  }

  function Later(a: Option<Time>, b: Time): Time {
    if a.Some? then Max(a.value, b) else b
  }

  // ---------- clock start ----------

  /** The latest reopen, or `startedAt` when that is later. */
  function ClockStart(timeline: seq<TimelineItem>, startedAt: Time): (r: Time)
    ensures r >= startedAt
    ensures forall i | 0 <= i < |timeline| :: timeline[i].Reopened? ==> timeline[i].at <= r
    ensures r == startedAt || exists i | 0 <= i < |timeline| :: timeline[i].Reopened? && timeline[i].at == r
  {
    if timeline == [] then startedAt
    else
      var rest := ClockStart(timeline[..|timeline| - 1], startedAt);
      var last := timeline[|timeline| - 1];
      if last.Reopened? then Max(last.at, rest) else rest
  }

  // ---------- comments of the bot ----------

  predicate BotSaid(c: Comment, m: Marker) {
    c.who == Some(CommunityBot) && c.text.Marked? && c.text.marker == m
  }

  /** When the bot last posted `m` after `since`. */
  function BotCommentedAt(comments: seq<Comment>, m: Marker, since: Time): (r: Option<Time>)
    ensures r.None? <==> forall i | 0 <= i < |comments| :: BotSaid(comments[i], m) ==> comments[i].at <= since
    ensures r.Some? ==> r.value > since
    ensures r.Some? ==> exists i | 0 <= i < |comments| :: BotSaid(comments[i], m) && comments[i].at == r.value
    ensures r.Some? ==> forall i | 0 <= i < |comments| :: BotSaid(comments[i], m) ==> comments[i].at <= r.value
  {
    if comments == [] then None
    else
      var rest := BotCommentedAt(comments[..|comments| - 1], m, since);
      var last := comments[|comments| - 1];
      if BotSaid(last, m) && last.at > since then Some(Later(rest, last.at)) else rest
  }

  // ---------- what the author did ----------

  /** An author's comment counts as a response unless it only asks for another
      CLA check. */
  predicate Counts(c: Comment, author: Option<Login>) {
    c.who == author && !(c.text.Marked? && c.text.marker == ClaRetry)
  }

  predicate ReviewedBy(item: TimelineItem, author: Option<Login>) {
    item.ReviewSubmitted? && item.who == author
  }

  function LastComment(comments: seq<Comment>, author: Option<Login>, since: Time): (r: Option<Time>)
    ensures r.None? <==> forall i | 0 <= i < |comments| :: Counts(comments[i], author) ==> comments[i].at <= since
    ensures r.Some? ==> r.value > since
    ensures r.Some? ==> exists i | 0 <= i < |comments| :: Counts(comments[i], author) && comments[i].at == r.value
    ensures r.Some? ==> forall i | 0 <= i < |comments| :: Counts(comments[i], author) ==> comments[i].at <= r.value
  {
    if comments == [] then None
    else
      var rest := LastComment(comments[..|comments| - 1], author, since);
      var last := comments[|comments| - 1];
      if Counts(last, author) && last.at > since then Some(Later(rest, last.at)) else rest
  }

  function LastReview(timeline: seq<TimelineItem>, author: Option<Login>, since: Time): (r: Option<Time>)
    ensures r.None? <==> forall i | 0 <= i < |timeline| :: ReviewedBy(timeline[i], author) ==> timeline[i].at <= since
    ensures r.Some? ==> r.value > since
    ensures r.Some? ==> exists i | 0 <= i < |timeline| :: ReviewedBy(timeline[i], author) && timeline[i].at == r.value
    ensures r.Some? ==> forall i | 0 <= i < |timeline| :: ReviewedBy(timeline[i], author) ==> timeline[i].at <= r.value
  {
    if timeline == [] then None
    else
      var rest := LastReview(timeline[..|timeline| - 1], author, since);
      var last := timeline[|timeline| - 1];
      if ReviewedBy(last, author) && last.at > since then Some(Later(rest, last.at)) else rest
  }

  /** No counted comment and no review reply of the author is later than `t`. */
  ghost predicate AuthorSilentAfter(pr: PullRequest, t: Time) {
    && (forall i | 0 <= i < |pr.comments| :: Counts(pr.comments[i], pr.author) ==> pr.comments[i].at <= t)
    && (forall i | 0 <= i < |pr.timeline| :: ReviewedBy(pr.timeline[i], pr.author) ==> pr.timeline[i].at <= t)
  }

  function AuthorCommentedAt(pr: PullRequest, since: Time): (r: Option<Time>)
    ensures r.None? <==> AuthorSilentAfter(pr, since)
    ensures r.Some? ==> r.value > since && AuthorSilentAfter(pr, r.value)
    ensures r.Some? ==> forall t | t < r.value :: !AuthorSilentAfter(pr, t)
  {
    var commented := LastComment(pr.comments, pr.author, since);
    var reviewed := LastReview(pr.timeline, pr.author, since);
    if reviewed.Some? then Some(Later(commented, reviewed.value)) else commented
  }

  /** Merges do not address feedback, and commits of others do not count; a
      commit without a linked account is taken for the author's own. */
  predicate IsAuthorPush(c: Commit, author: Option<Login>, since: Time) {
    c.parents <= 1 && (c.who.None? || c.who == author) && c.at > since
  }

  predicate AuthorPushedSince(pr: PullRequest, since: Time) {
    exists i | 0 <= i < |pr.commits| :: IsAuthorPush(pr.commits[i], pr.author, since)
  }

  predicate ReviewRequestedSince(timeline: seq<TimelineItem>, since: Time) {
    exists i | 0 <= i < |timeline| :: timeline[i].ReviewRequested? && timeline[i].at > since
  }

  // ---------- labels, reviews ----------

  predicate IsCommunity(labels: set<Label>) {
    Staff !in labels && Bot !in labels
  }

  predicate ByStaff(r: Review, staff: set<Login>) {
    r.who.Some? && r.who.value in staff
  }

  /** The i-th review is the last one of staff. */
  predicate LatestByStaff(reviews: seq<Review>, staff: set<Login>, i: int) {
    && 0 <= i < |reviews| && ByStaff(reviews[i], staff)
    && forall j | i < j < |reviews| :: !ByStaff(reviews[j], staff)
  }

  /** When staff requested changes, if that is still their latest verdict. */
  function StaffChangeRequestAt(reviews: seq<Review>, staff: set<Login>): (r: Option<Time>)
    ensures forall i :: LatestByStaff(reviews, staff, i) ==>
              r == if reviews[i].verdict == ChangesRequested then Some(reviews[i].at) else None
    ensures r.Some? ==> exists i :: LatestByStaff(reviews, staff, i)
  {
    if reviews == [] then None
    else
      var last := reviews[|reviews| - 1];
      if ByStaff(last, staff) then
        assert LatestByStaff(reviews, staff, |reviews| - 1);
        if last.verdict == ChangesRequested then Some(last.at) else None
      else
        var before := reviews[..|reviews| - 1];
        assert forall i :: LatestByStaff(reviews, staff, i) <==> LatestByStaff(before, staff, i);
        StaffChangeRequestAt(before, staff)
  }

  /** When the "no self-review" label was last added, or else the creation, or a
      later ready-for-review event. */
  function LabeledAt(timeline: seq<TimelineItem>, l: Label): (r: Option<Time>)
  {
    if timeline == [] then None
    else
      var rest := LabeledAt(timeline[..|timeline| - 1], l);
      var last := timeline[|timeline| - 1];
      if last.Labeled? && last.name == l then Some(Later(rest, last.at)) else rest
  }

  function ReadyAt(timeline: seq<TimelineItem>, startedAt: Time): (r: Time)
    ensures r >= startedAt
  {
    if timeline == [] then startedAt
    else
      var rest := ReadyAt(timeline[..|timeline| - 1], startedAt);
      var last := timeline[|timeline| - 1];
      if last.ReadyForReview? then Max(last.at, rest) else rest
  }
}
