/** One pull request under repeated sweeps, while the world moves on. Every read and
    write is a step of its own; a write can be lost, or land and report failure. */
module CleanupProtocol {
  import opened Wrappers
  import opened PullRequests
  import opened CleanupActions

  /** What becomes of one write request; it is never sent twice. */
  datatype Outcome = Landed | Lost | LandedButFailed

  /** Each sweep asks GitHub anew who is staff. */
  datatype Sweep = Sweep(now: Time, staff: set<Login>, summary: PullRequest, full: Option<PullRequest>, next: nat,
                         closing: bool)

  /** History: one landed comment of the bot, with what the sweep had read, where
      the comment is, and the pull request it landed on. */
  datatype Post = Post(cleanup: Cleanup, marker: Marker, promised: Option<Date>, at: Time, now: Time,
                       staff: set<Login>, summary: PullRequest, full: PullRequest, index: nat, stood: PullRequest)

  /** All but the first three are history: every landed comment; the staff as the
      last sweep saw it; whether no change of staff between two sweeps made another
      change request count so far (`steady`); and whether no restart of the
      changes-requested clock fell inside a sweep (`calm`). */
  datatype State = State(pr: PullRequest, clock: Time, sweep: Option<Sweep>, posts: seq<Post>,
                         team: Option<set<Login>>, steady: bool, calm: bool)

  datatype Event =
    | World(pr: PullRequest, clock: Time)
    | Begin(now: Time, staff: set<Login>)
    | Fetch
    | Skip
    | Write(outcome: Outcome)
    | Stop

  // ---------- the world ----------

  predicate ByBot(c: Comment) {
    c.who == Some(CommunityBot) && c.text.Marked?
  }

  predicate CommentsGrow(old_: seq<Comment>, new_: seq<Comment>, from: Time, to: Time) {
    && old_ <= new_
    && (forall i | |old_| <= i < |new_| :: from <= new_[i].at <= to && !ByBot(new_[i]))
    && (forall i, j | |old_| <= i < j < |new_| :: new_[i].at <= new_[j].at)
  }

  predicate TimelineGrows(old_: seq<TimelineItem>, new_: seq<TimelineItem>, from: Time, to: Time) {
    && old_ <= new_
    && (forall i | |old_| <= i < |new_| :: from <= new_[i].at <= to)
  }

  /** Reviews are added, and a submitted review can only be dismissed. */
  predicate ReviewsGrow(old_: seq<Review>, new_: seq<Review>, from: Time, to: Time) {
    && |old_| <= |new_|
    && (forall i | 0 <= i < |old_| :: new_[i] == old_[i] || new_[i] == old_[i].(verdict := Dismissed))
    && (forall i | |old_| <= i < |new_| :: from <= new_[i].at <= to)
  }

  /** Anyone may comment, review, push, force-push, label, convert, close or
      reopen; comments and timeline items are never taken back, and only the
      script writes the bot's markers. */
  predicate Grows(old_: PullRequest, new_: PullRequest, from: Time, to: Time) {
    && from <= to
    && CommentsGrow(old_.comments, new_.comments, from, to)
    && TimelineGrows(old_.timeline, new_.timeline, from, to)
    && ReviewsGrow(old_.reviews, new_.reviews, from, to)
    && |new_.commits| > 0
    && new_.createdAt == old_.createdAt
    && new_.author == old_.author
  }

  predicate NoReopen(old_: seq<TimelineItem>, new_: seq<TimelineItem>) {
    forall i | |old_| <= i < |new_| :: !new_[i].Reopened?
  }

  /** Nothing restarts the changes-requested clock. */
  predicate ClockKept(staff: set<Login>, old_: PullRequest, new_: PullRequest) {
    && NoReopen(old_.timeline, new_.timeline)
    && var requested := StaffChangeRequestAt(new_.reviews, staff);
       requested.None? || requested == StaffChangeRequestAt(old_.reviews, staff)
  }

  /** Who is staff now makes no other change request count than who was. */
  predicate TeamKept(before: Option<set<Login>>, staff: set<Login>, reviews: seq<Review>) {
    before.Some? ==>
      var requested := StaffChangeRequestAt(reviews, staff);
      requested.None? || requested == StaffChangeRequestAt(reviews, before.value)
  }

  // ---------- the bot ----------

  function Land(s: State, cleanup: Cleanup, text: Text, sweep: Sweep): State
    requires text.Marked? && sweep.full.Some?
  {
    var post := Post(cleanup, text.marker, text.closingDate, s.clock, sweep.now, sweep.staff, sweep.summary,
                     sweep.full.value, |s.pr.comments|, s.pr);
    s.(pr := s.pr.(comments := s.pr.comments + [Comment(s.clock, Some(CommunityBot), text)]),
       posts := s.posts + [post])
  }

  function ClosePull(pr: PullRequest, at: Time): PullRequest {
    if pr.closedAt.None? then pr.(closedAt := Some(at)) else pr
  }

  predicate Ready(sweep: Sweep) {
    sweep.full.Some? && sweep.next < |CLEANUPS| && |sweep.summary.commits| > 0
  }

  function StepOf(sweep: Sweep): Option<Step>
    requires Ready(sweep)
  {
    Act(CLEANUPS[sweep.next], sweep.staff, sweep.summary, sweep.full.value, sweep.now)
  }

  /** The PATCH that closes: the last request of the sweep for this pull
      request, whatever becomes of it. */
  function AfterClose(s: State, outcome: Outcome): State {
    s.(pr := if outcome.Lost? then s.pr else ClosePull(s.pr, s.clock), sweep := None)
  }

  function AfterComment(s: State, sweep: Sweep, step: Step, text: Text, outcome: Outcome): State
    requires text.Marked? && Ready(sweep)
  {
    var landed := if outcome.Lost? then s else Land(s, CLEANUPS[sweep.next], text, sweep);
    landed.(sweep :=
      if !outcome.Landed? then None
      else if step.kind == Close then Some(sweep.(closing := true))
      else Some(sweep.(next := sweep.next + 1)))
  }

  /** One step; None when the event cannot happen in this state. */
  function Next(s: State, e: Event): Option<State> {
    match e
    case World(pr, clock) =>
      if Grows(s.pr, pr, s.clock, clock) then
        Some(s.(pr := pr, clock := clock,
                calm := s.calm && (s.sweep.None? || ClockKept(s.sweep.value.staff, s.pr, pr))))
      else None
    case Begin(now, staff) =>
      if s.sweep.None? && s.pr.closedAt.None? && NeverStale !in s.pr.labels && now <= s.clock then
        Some(s.(sweep := Some(Sweep(now, staff, s.pr, None, 0, false)), team := Some(staff),
                steady := s.steady && TeamKept(s.team, staff, s.pr.reviews)))
      else None
    case Fetch =>
      if s.sweep.Some? && s.sweep.value.full.None? then
        Some(s.(sweep := Some(s.sweep.value.(full := Some(s.pr)))))
      else None
    case Skip =>
      if s.sweep.Some? && Ready(s.sweep.value) && !s.sweep.value.closing && StepOf(s.sweep.value).None? then
        Some(s.(sweep := Some(s.sweep.value.(next := s.sweep.value.next + 1))))
      else None
    case Write(outcome) =>
      if s.sweep.Some? && Ready(s.sweep.value) && StepOf(s.sweep.value).Some? then
        var step := StepOf(s.sweep.value).value;
        if s.sweep.value.closing || step.comment.None? then Some(AfterClose(s, outcome))
        else if step.comment.value.Marked? then Some(AfterComment(s, s.sweep.value, step, step.comment.value, outcome))
        else None
      else None
    case Stop =>
      Some(s.(sweep := None))
  }

  function Exec(s: State, events: seq<Event>): Option<State> {
    if events == [] then Some(s)
    else
      var before := Exec(s, events[..|events| - 1]);
      if before.None? then None else Next(before.value, events[|events| - 1])
  }

  /** A pull request no sweep has seen yet. */
  predicate Init(s: State) {
    && s.sweep.None? && s.posts == [] && s.team.None? && s.steady && s.calm
    && |s.pr.commits| > 0
    && (forall i | 0 <= i < |s.pr.comments| :: !ByBot(s.pr.comments[i]) && s.pr.comments[i].at <= s.clock)
    && (forall i, j | 0 <= i < j < |s.pr.comments| :: s.pr.comments[i].at <= s.pr.comments[j].at)
  }

  // ---------- invariant: comments and posts ----------

  /** The comment a post left behind. */
  ghost predicate Recorded(p: Post, comments: seq<Comment>) {
    p.index < |comments| && comments[p.index] == Comment(p.at, Some(CommunityBot), Marked(p.marker, p.promised))
  }

  /** The step that justified a post. */
  ghost predicate Justified(p: Post) {
    && |p.summary.commits| > 0
    && p.now <= p.at
    && |p.full.comments| <= p.index
    && var step := Act(p.cleanup, p.staff, p.summary, p.full, p.now);
       && step.Some?
       && step.value.comment == Some(Marked(p.marker, p.promised))
  }

  ghost predicate PostsRecorded(s: State) {
    && (forall k | 0 <= k < |s.posts| :: Recorded(s.posts[k], s.pr.comments))
    && (forall k {:trigger Justified(s.posts[k])} | 0 <= k < |s.posts| :: Justified(s.posts[k]))
    && (forall k | 0 <= k < |s.posts| :: s.posts[k].full.comments <= s.pr.comments)
    && (forall j, k | 0 <= j < k < |s.posts| :: s.posts[j].index < s.posts[k].index)
  }

  ghost predicate CommentsExplained(s: State) {
    && (forall i | 0 <= i < |s.pr.comments| :: s.pr.comments[i].at <= s.clock)
    && (forall i, j | 0 <= i < j < |s.pr.comments| :: s.pr.comments[i].at <= s.pr.comments[j].at)
    && (forall i | 0 <= i < |s.pr.comments| ::
          ByBot(s.pr.comments[i]) ==> exists k | 0 <= k < |s.posts| :: s.posts[k].index == i)
  }

  /** Every post saw the earlier posts of its own cleanup. */
  ghost predicate PostsSeen(s: State) {
    forall j, k | 0 <= j < k < |s.posts| ::
      s.posts[j].cleanup == s.posts[k].cleanup ==> s.posts[j].index < |s.posts[k].full.comments|
  }

  /** The posts a running sweep has not read are its own, by cleanups it has
      already passed or is closing with. */
  ghost predicate SweepReads(s: State) {
    s.sweep.Some? ==>
      var sweep := s.sweep.value;
      && |sweep.summary.commits| > 0
      && sweep.now <= s.clock
      && sweep.next <= |CLEANUPS|
      && (sweep.full.None? ==> sweep.next == 0 && !sweep.closing)
      && (sweep.full.Some? ==>
            && sweep.full.value.comments <= s.pr.comments
            && forall k | 0 <= k < |s.posts| ::
                 s.posts[k].index < |sweep.full.value.comments|
                 || exists n :: 0 <= n < |CLEANUPS| && CLEANUPS[n] == s.posts[k].cleanup
                                && (n < sweep.next || (n == sweep.next && sweep.closing)))
  }

  /** The staff of a running sweep is the last one seen. */
  ghost predicate TeamKnown(s: State) {
    && (s.sweep.Some? ==> s.team == Some(s.sweep.value.staff))
    && (s.team.None? ==> s.posts == [])
  }

  ghost predicate Inv(s: State) {
    && |s.pr.commits| > 0
    && TeamKnown(s)
    && PostsRecorded(s)
    && CommentsExplained(s)
    && PostsSeen(s)
    && SweepReads(s)
  }

  lemma {:induction false} InitInv(s: State)
    requires Init(s)
    ensures Inv(s)
  {
  }

  /** A landed comment keeps the books. */
  lemma {:induction false} LandRecorded(s: State, sweep: Sweep, text: Text)
    requires PostsRecorded(s) && SweepReads(s) && s.sweep == Some(sweep) && Ready(sweep)
    requires var step := StepOf(sweep); step.Some? && step.value.comment == Some(text) && text.Marked?
    ensures PostsRecorded(Land(s, CLEANUPS[sweep.next], text, sweep))
  {
    var s' := Land(s, CLEANUPS[sweep.next], text, sweep);
    forall k | 0 <= k < |s'.posts|
      ensures Recorded(s'.posts[k], s'.pr.comments) && Justified(s'.posts[k])
              && s'.posts[k].full.comments <= s'.pr.comments
    {
      if k < |s.posts| {
        assert s'.posts[k] == s.posts[k] && Recorded(s.posts[k], s.pr.comments);
      } else {
        assert text == Marked(text.marker, text.closingDate);
      }
    }
  }

  lemma {:induction false} LandExplained(s: State, cleanup: Cleanup, sweep: Sweep, text: Text)
    requires CommentsExplained(s) && sweep.full.Some? && text.Marked?
    ensures CommentsExplained(Land(s, cleanup, text, sweep))
  {
    var s' := Land(s, cleanup, text, sweep);
    forall i | 0 <= i < |s'.pr.comments| && ByBot(s'.pr.comments[i])
      ensures exists k | 0 <= k < |s'.posts| :: s'.posts[k].index == i
    {
      if i < |s.pr.comments| {
        var k :| 0 <= k < |s.posts| && s.posts[k].index == i;
        assert s'.posts[k].index == i;
      } else {
        assert s'.posts[|s.posts|].index == i;
      }
    }
  }

  lemma {:induction false} LandSeen(s: State, sweep: Sweep, text: Text)
    requires PostsSeen(s) && SweepReads(s) && s.sweep == Some(sweep) && Ready(sweep) && !sweep.closing && text.Marked?
    ensures PostsSeen(Land(s, CLEANUPS[sweep.next], text, sweep))
  {
    var s' := Land(s, CLEANUPS[sweep.next], text, sweep);
    forall j, k | 0 <= j < k < |s'.posts| && s'.posts[j].cleanup == s'.posts[k].cleanup
      ensures s'.posts[j].index < |s'.posts[k].full.comments|
    {
      assert s'.posts[j] == s.posts[j];
      if k < |s.posts| {
        assert s'.posts[k] == s.posts[k];
      }
    }
  }

  lemma {:induction false} WorldInv(s: State, pr: PullRequest, clock: Time)
    requires Inv(s) && Next(s, World(pr, clock)).Some?
    ensures Inv(Next(s, World(pr, clock)).value)
  {
    var s' := Next(s, World(pr, clock)).value;
    forall k | 0 <= k < |s.posts|
      ensures Recorded(s.posts[k], pr.comments) && s.posts[k].full.comments <= pr.comments
    {
      assert Recorded(s.posts[k], s.pr.comments);
    }
    assert CommentsExplained(s') by {
      forall i | 0 <= i < |pr.comments| && ByBot(pr.comments[i])
        ensures exists k | 0 <= k < |s'.posts| :: s'.posts[k].index == i
      {
        assert i < |s.pr.comments| && pr.comments[i] == s.pr.comments[i];
      }
    }
  }

  /** Closing, and a sweep that ends, leave every comment as it is. */
  lemma {:induction false} EndInv(s: State, s': State)
    requires Inv(s)
    requires s'.posts == s.posts && s'.pr.comments == s.pr.comments && s'.pr.commits == s.pr.commits
    requires s'.clock == s.clock && s'.sweep.None? && s'.team == s.team
    ensures Inv(s')
  {
    forall k | 0 <= k < |s.posts| ensures Recorded(s.posts[k], s'.pr.comments) {
      assert Recorded(s.posts[k], s.pr.comments);
    }
  }

  lemma {:induction false} CommentInv(s: State, sweep: Sweep, step: Step, text: Text, outcome: Outcome)
    requires Inv(s) && s.sweep == Some(sweep) && Ready(sweep) && !sweep.closing
    requires StepOf(sweep) == Some(step) && step.comment == Some(text) && text.Marked?
    ensures Inv(AfterComment(s, sweep, step, text, outcome))
  {
    var s' := AfterComment(s, sweep, step, text, outcome);
    if outcome.Lost? {
      EndInv(s, s');
    } else {
      var landed := Land(s, CLEANUPS[sweep.next], text, sweep);
      LandRecorded(s, sweep, text);
      LandExplained(s, CLEANUPS[sweep.next], sweep, text);
      LandSeen(s, sweep, text);
      assert s'.posts == landed.posts && s'.pr == landed.pr && s'.clock == landed.clock;
      assert PostsRecorded(s') && CommentsExplained(s') && PostsSeen(s');
      if outcome.Landed? {
        OwnPostPassed(s, sweep, step, text);
      }
    }
  }

  lemma {:induction false} NextInv(s: State, e: Event)
    requires Inv(s) && Next(s, e).Some?
    ensures Inv(Next(s, e).value)
  {
    match e
    case World(pr, clock) => WorldInv(s, pr, clock);
    case Begin(_, _) =>
    case Fetch =>
    case Skip => PassedGrows(s, Next(s, e).value.sweep.value);
    case Write(outcome) =>
      var sweep := s.sweep.value;
      var step := StepOf(sweep).value;
      if sweep.closing || step.comment.None? {
        EndInv(s, AfterClose(s, outcome));
      } else {
        CommentInv(s, sweep, step, step.comment.value, outcome);
      }
    case Stop => EndInv(s, s.(sweep := None));
  }

  /** Moving on keeps every passed cleanup passed. */
  lemma {:induction false} PassedGrows(s: State, sweep': Sweep)
    requires SweepReads(s) && s.sweep.Some? && Ready(s.sweep.value) && !s.sweep.value.closing
    requires sweep' == s.sweep.value.(next := s.sweep.value.next + 1)
    ensures SweepReads(s.(sweep := Some(sweep')))
  {
  }

  lemma {:induction false} OwnPostPassed(s: State, sweep: Sweep, step: Step, text: Text)
    requires SweepReads(s) && s.sweep == Some(sweep) && Ready(sweep) && !sweep.closing && text.Marked?
    ensures SweepReads(AfterComment(s, sweep, step, text, Landed))
  {
    var s' := AfterComment(s, sweep, step, text, Landed);
    forall k | 0 <= k < |s'.posts|
      ensures s'.posts[k].index < |sweep.full.value.comments|
              || exists n :: 0 <= n < |CLEANUPS| && CLEANUPS[n] == s'.posts[k].cleanup
                             && (n < s'.sweep.value.next || (n == s'.sweep.value.next && s'.sweep.value.closing))
    {
      if k < |s.posts| {
        assert s'.posts[k] == s.posts[k];
      } else {
        assert CLEANUPS[sweep.next] == s'.posts[k].cleanup;
      }
    }
  }

  lemma {:induction false} ExecInv(s: State, events: seq<Event>)
    requires Init(s) && Exec(s, events).Some?
    ensures Inv(Exec(s, events).value)
  {
    if events == [] {
      InitInv(s);
    } else {
      ExecInv(s, events[..|events| - 1]);
      NextInv(Exec(s, events[..|events| - 1]).value, events[|events| - 1]);
    }
  }
}
