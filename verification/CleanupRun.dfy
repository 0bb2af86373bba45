/** The script's own loops over pull requests and cleanups, with everyone else
    acting between any two of its requests, and its place in the protocol: one run
    of the script is a run of the protocol for every pull request. */
module CleanupRun {
  import opened Wrappers
  import opened PullRequests
  import opened CleanupActions
  import opened CleanupProtocol

  // ---------- the server ----------

  /** What happens around the requests of a run: how each pull request has moved
      on when the i-th request arrives, after which delay, and what becomes of the
      request. A read that fails ends the run. Whether a login is staff is asked at
      most once in a run; `staff` are those for whom the answer is yes. */
  datatype Environment = Environment(
    moves: (nat, nat, PullRequest, Time) -> PullRequest,
    delays: nat -> nat,
    outcomes: nat -> Outcome,
    staff: set<Login>)

  predicate IsLawful(env: Environment, i: nat, n: nat, pr: PullRequest, from: Time) {
    Grows(pr, env.moves(i, n, pr, from), from, from + env.delays(i))
  }

  /** Others do to a pull request only what they can. */
  ghost predicate Lawful(env: Environment) {
    forall i: nat, n: nat, pr: PullRequest, from: Time {:trigger IsLawful(env, i, n, pr, from)} | |pr.commits| > 0 ::
      IsLawful(env, i, n, pr, from)
  }

  /** `requests` counts the requests so far; `asked` are the logins whose membership
      the run knows. */
  datatype Server = Server(pulls: map<nat, PullRequest>, clock: Time, requests: nat, asked: set<Login>)

  /** When the next request arrives. */
  function Arrived(env: Environment, sv: Server): Server {
    Server(map n | n in sv.pulls :: env.moves(sv.requests, n, sv.pulls[n], sv.clock),
           sv.clock + env.delays(sv.requests), sv.requests + 1, sv.asked)
  }

  predicate Succeeds(env: Environment, sv: Server) {
    env.outcomes(sv.requests).Landed?
  }

  function Commented(pr: PullRequest, text: Text, at: Time): PullRequest {
    pr.(comments := pr.comments + [Comment(at, Some(CommunityBot), text)])
  }

  function AfterPost(env: Environment, sv: Server, n: nat, text: Text): Server
    requires n in sv.pulls
  {
    var now := Arrived(env, sv);
    if env.outcomes(sv.requests).Lost? then now
    else now.(pulls := now.pulls[n := Commented(now.pulls[n], text, now.clock)])
  }

  function AfterPatch(env: Environment, sv: Server, n: nat): Server
    requires n in sv.pulls
  {
    var now := Arrived(env, sv);
    if env.outcomes(sv.requests).Lost? then now
    else now.(pulls := now.pulls[n := ClosePull(now.pulls[n], now.clock)])
  }

  // ---------- who is staff ----------

  /** Ask for one login, unless the run knows it. */
  function Asked(env: Environment, sv: Server, login: Login): (r: (Server, bool))
    ensures r.0.pulls.Keys == sv.pulls.Keys
  {
    if login in sv.asked then (sv, true)
    else
      var now := Arrived(env, sv);
      if Succeeds(env, sv) then (now.(asked := now.asked + {login}), true) else (now, false)
  }

  /** Ask for the reviewers from the last to the first, until one is staff. */
  function LookedUp(env: Environment, sv: Server, reviews: seq<Review>): (r: (Server, bool))
    ensures r.0.pulls.Keys == sv.pulls.Keys
    decreases |reviews|
  {
    if reviews == [] then (sv, true)
    else
      var before, last := reviews[..|reviews| - 1], reviews[|reviews| - 1];
      if last.who.None? then LookedUp(env, sv, before)
      else
        var (asked, known) := Asked(env, sv, last.who.value);
        if !known || last.who.value in env.staff then (asked, known) else LookedUp(env, asked, before)
  }

  /** Nobody is asked for when no review requests changes. */
  predicate AnyRequest(reviews: seq<Review>) {
    exists i | 0 <= i < |reviews| :: reviews[i].verdict == ChangesRequested
  }

  function RequestLookup(env: Environment, sv: Server, reviews: seq<Review>): (r: (Server, bool))
    ensures r.0.pulls.Keys == sv.pulls.Keys
  {
    if AnyRequest(reviews) then LookedUp(env, sv, reviews) else (sv, true)
  }

  lemma {:induction false} NoRequest(reviews: seq<Review>, staff: set<Login>)
    requires !AnyRequest(reviews)
    ensures StaffChangeRequestAt(reviews, staff).None?
  {
    if reviews != [] {
      var before := reviews[..|reviews| - 1];
      assert forall i | 0 <= i < |before| :: before[i] == reviews[i];
      NoRequest(before, staff);
    }
  }

  /** Only one of the cleanups needs to know who is staff. */
  function Lookups(env: Environment, sv: Server, c: Cleanup, summary: PullRequest): (r: (Server, bool))
    ensures r.0.pulls.Keys == sv.pulls.Keys
  {
    if c == StaleChanges && !summary.isDraft && IsCommunity(summary.labels) then RequestLookup(env, sv, summary.reviews)
    else (sv, true)
  }

  // ---------- one run as a function ----------

  /** Take one step: comment, then close; a failed write ends the run. */
  function Stepped(env: Environment, sv: Server, n: nat, step: Step, dryRun: bool): (r: (Server, bool))
    requires n in sv.pulls
    ensures r.0.pulls.Keys == sv.pulls.Keys
  {
    if dryRun then (sv, true)
    else if step.comment.Some? then
      var posted := AfterPost(env, sv, n, step.comment.value);
      if !Succeeds(env, sv) then (posted, false)
      else if step.kind == Close then (AfterPatch(env, posted, n), Succeeds(env, posted))
      else (posted, true)
    else if step.kind == Close then (AfterPatch(env, sv, n), Succeeds(env, sv))
    else (sv, true)
  }

  /** After one cleanup: try the next one, stop because the pull request is
      closed, or stop because a write failed. */
  datatype Progress = Continue | Closed | Failed

  function AfterWish(env: Environment, sv: Server, n: nat, wish: Option<Step>, dryRun: bool): (r: (Server, Progress))
    requires n in sv.pulls
    ensures r.0.pulls.Keys == sv.pulls.Keys
  {
    if wish.None? then (sv, Continue)
    else
      var (stepped, ok) := Stepped(env, sv, n, wish.value, dryRun);
      (stepped, if !ok then Failed else if wish.value.kind == Close then Closed else Continue)
  }

  /** What each cleanup can tell from the summary alone. */
  predicate RuledOut(c: Cleanup, staff: set<Login>, summary: PullRequest, now: Time)
    requires |summary.commits| > 0
  {
    match c
    case Cla => !IsCommunity(summary.labels) || ClaSigned in summary.labels || now - summary.createdAt < CLA_RETRY_AFTER
    case StaleDraft => !summary.isDraft || now - DraftActiveAt(summary) < DRAFT_PING_AFTER
    case StaleChanges =>
      var requestedAt := StaffChangeRequestAt(summary.reviews, staff);
      || summary.isDraft || !IsCommunity(summary.labels)
      || requestedAt.None? || now - requestedAt.value < CHANGES_PING_AFTER
    case NoSelfReview => summary.isDraft || NoSelfReviewLabel !in summary.labels || !IsCommunity(summary.labels)
  }

  predicate AllRuledOut(staff: set<Login>, summary: PullRequest, now: Time, n: nat)
    requires |summary.commits| > 0 && n <= |CLEANUPS|
  {
    forall i | 0 <= i < n :: RuledOut(CLEANUPS[i], staff, summary, now)
  }

  /** The full read, unless it has been made. */
  function ReadFull(env: Environment, sv: Server, n: nat, cached: Option<PullRequest>)
    : (r: (Server, Option<PullRequest>))
    requires n in sv.pulls
    ensures r.0.pulls.Keys == sv.pulls.Keys
  {
    if cached.Some? then (sv, cached)
    else
      var now := Arrived(env, sv);
      (now, if Succeeds(env, sv) then Some(now.pulls[n]) else None)
  }

  /** What the i-th cleanup does after its lookups: either the sweep goes on, or it
      has ended. */
  function AfterCleanup(env: Environment, sv: Server, n: nat, summary: PullRequest, now: Time,
                        cached: Option<PullRequest>, i: nat, dryRun: bool)
    : (r: (Server, Option<PullRequest>, Progress))
    requires |summary.commits| > 0 && n in sv.pulls && i < |CLEANUPS|
    ensures r.0.pulls.Keys == sv.pulls.Keys
  {
    if RuledOut(CLEANUPS[i], env.staff, summary, now) then (sv, cached, Continue)
    else
      var (read, full) := ReadFull(env, sv, n, cached);
      if full.None? then (read, None, Failed)
      else
        var (next, progress) := AfterWish(env, read, n, Act(CLEANUPS[i], env.staff, summary, full.value, now), dryRun);
        (next, full, progress)
  }

  /** The cleanups from the i-th on, for one listed pull request: each asks who is
      staff if it must, gives up if the summary rules it out, and otherwise looks at
      the full read, of which there is one. */
  function SweptFrom(env: Environment, sv: Server, n: nat, summary: PullRequest, now: Time,
                     cached: Option<PullRequest>, i: nat, dryRun: bool): (r: (Server, bool))
    requires |summary.commits| > 0 && n in sv.pulls && i <= |CLEANUPS|
    ensures r.0.pulls.Keys == sv.pulls.Keys
    decreases |CLEANUPS| - i
  {
    if i == |CLEANUPS| then (sv, true)
    else
      var (asked, known) := Lookups(env, sv, CLEANUPS[i], summary);
      if !known then (asked, false)
      else
        var (next, full, progress) := AfterCleanup(env, asked, n, summary, now, cached, i, dryRun);
        if progress.Continue? then SweptFrom(env, next, n, summary, now, full, i + 1, dryRun)
        else (next, progress.Closed?)
  }

  function Swept(env: Environment, sv: Server, n: nat, summary: PullRequest, now: Time, dryRun: bool)
    : (r: (Server, bool))
    requires |summary.commits| > 0 && n in sv.pulls
    ensures r.0.pulls.Keys == sv.pulls.Keys
  {
    SweptFrom(env, sv, n, summary, now, None, 0, dryRun)
  }

  lemma {:induction false} RuledOutActs(c: Cleanup, staff: set<Login>, summary: PullRequest, full: PullRequest,
                                        now: Time)
    requires |summary.commits| > 0 && RuledOut(c, staff, summary, now)
    ensures Act(c, staff, summary, full, now).None?
  {
  }

  datatype Listed = Listed(number: nat, summary: PullRequest)

  /** A pull request on GitHub has a commit. */
  predicate IsListed(pr: PullRequest) {
    pr.closedAt.None? && NeverStale !in pr.labels && |pr.commits| > 0
  }

  predicate AreThere(listed: seq<Listed>, sv: Server) {
    forall i | 0 <= i < |listed| :: listed[i].number in sv.pulls && |listed[i].summary.commits| > 0
  }

  /** What the list becomes with one more summary. */
  function WithSummary(before: seq<Listed>, m: nat, pr: PullRequest): seq<Listed> {
    if IsListed(pr) then before + [Listed(m, pr)] else before
  }

  /** The summaries from the i-th pull request on, of those that are open and not
      exempt when they are listed; None when a read failed. */
  function Summaries(env: Environment, sv: Server, order: seq<nat>, i: nat, before: seq<Listed>)
    : (Server, Option<seq<Listed>>)
    requires i <= |order| && forall j | 0 <= j < |order| :: order[j] in sv.pulls
    decreases |order| - i
  {
    if i == |order| then (sv, Some(before))
    else
      var read := Arrived(env, sv);
      var pr := read.pulls[order[i]];
      if !Succeeds(env, sv) then (read, None)
      else Summaries(env, read, order, i + 1, WithSummary(before, order[i], pr))
  }

  lemma {:induction false} SummariesAreThere(env: Environment, sv: Server, order: seq<nat>, i: nat, before: seq<Listed>)
    requires i <= |order| && (forall j | 0 <= j < |order| :: order[j] in sv.pulls) && AreThere(before, sv)
    ensures var (read, listed) := Summaries(env, sv, order, i, before);
            read.pulls.Keys == sv.pulls.Keys && (listed.Some? ==> AreThere(listed.value, read))
    decreases |order| - i
  {
    if i < |order| && Succeeds(env, sv) {
      var read := Arrived(env, sv);
      SummariesAreThere(env, read, order, i + 1, WithSummary(before, order[i], read.pulls[order[i]]));
    }
  }

  /** The listed pull requests from the i-th on. */
  function SweptAll(env: Environment, sv: Server, listed: seq<Listed>, now: Time, i: nat,
                    dryRun: bool): (r: (Server, bool))
    requires AreThere(listed, sv) && i <= |listed|
    ensures r.0.pulls.Keys == sv.pulls.Keys
    decreases |listed| - i
  {
    if i == |listed| then (sv, true)
    else
      var (swept, ok) := Swept(env, sv, listed[i].number, listed[i].summary, now, dryRun);
      if !ok then (swept, false) else SweptAll(env, swept, listed, now, i + 1, dryRun)
  }

  /** A run: first all summaries, then one pull request after the other. */
  function RunOf(env: Environment, sv: Server, order: seq<nat>, now: Time, dryRun: bool)
    : (Server, bool)
    requires forall j | 0 <= j < |order| :: order[j] in sv.pulls
  {
    SummariesAreThere(env, sv, order, 0, []);
    var (read, listed) := Summaries(env, sv, order, 0, []);
    if listed.None? then (read, false) else SweptAll(env, read, listed.value, now, 0, dryRun)
  }

  // ---------- the script ----------

  /** GitHub, as far as the script sees and changes it, and the memberships the run
      has asked for. */
  class GitHub {
    const env: Environment
    var pulls: map<nat, PullRequest>
    var clock: Time
    var requests: nat
    var asked: set<Login>

    function State(): Server
      reads this
    {
      Server(pulls, clock, requests, asked)
    }

    constructor (env: Environment, pulls: map<nat, PullRequest>, clock: Time)
      ensures this.env == env && State() == Server(pulls, clock, 0, {})
    {
      this.env, this.pulls, this.clock, this.requests, this.asked := env, pulls, clock, 0, {};
    }

    method Arrive() returns (outcome: Outcome)
      modifies this
      ensures State() == Arrived(env, old(State())) && outcome == env.outcomes(old(requests))
    {
      outcome := env.outcomes(requests);
      pulls := map n | n in pulls :: env.moves(requests, n, pulls[n], clock);
      clock := clock + env.delays(requests);
      requests := requests + 1;
    }

    /** A successful answer means that the comment is there; whatever the answer,
        this is all that the request can add. */
    method PostComment(n: nat, text: Text) returns (ok: bool)
      requires n in pulls
      modifies this
      ensures State() == AfterPost(env, old(State()), n, text) && ok == Succeeds(env, old(State()))
      ensures var before := Arrived(env, old(State())).pulls;
              && pulls.Keys == before.Keys
              && (forall m | m in pulls && m != n :: pulls[m] == before[m])
              && (pulls[n] == before[n] || pulls[n] == Commented(before[n], text, clock))
              && (ok ==> pulls[n] == Commented(before[n], text, clock))
    {
      var outcome := Arrive();
      if !outcome.Lost? {
        pulls := pulls[n := Commented(pulls[n], text, clock)];
      }
      ok := outcome.Landed?;
    }

    /** A successful answer means that the pull request is closed; whatever the
        answer, this is all that the request can change. */
    method Patch(n: nat) returns (ok: bool)
      requires n in pulls
      modifies this
      ensures State() == AfterPatch(env, old(State()), n) && ok == Succeeds(env, old(State()))
      ensures var before := Arrived(env, old(State())).pulls;
              && pulls.Keys == before.Keys
              && (forall m | m in pulls && m != n :: pulls[m] == before[m])
              && pulls[n].(closedAt := before[n].closedAt) == before[n]
              && (before[n].closedAt.Some? ==> pulls[n] == before[n])
              && (ok ==> pulls[n].closedAt.Some?)
    {
      var outcome := Arrive();
      if !outcome.Lost? {
        pulls := pulls[n := ClosePull(pulls[n], clock)];
      }
      ok := outcome.Landed?;
    }

    /** `is_staff_member`, with its cache. */
    method IsStaff(login: Login) returns (member: bool, known: bool)
      modifies this
      ensures (State(), known) == Asked(env, old(State()), login) && (known ==> member == (login in env.staff))
    {
      if login !in asked {
        var outcome := Arrive();
        if !outcome.Landed? {
          return false, false;
        }
        asked := asked + {login};
      }
      return login in env.staff, true;
    }

    /** `staff_change_request_at`. */
    method StaffRequestAt(reviews: seq<Review>) returns (requestedAt: Option<Time>, known: bool)
      modifies this
      ensures (State(), known) == RequestLookup(env, old(State()), reviews)
      ensures known ==> requestedAt == StaffChangeRequestAt(reviews, env.staff)
    {
      if !AnyRequest(reviews) {
        NoRequest(reviews, env.staff);
        return None, true;
      }
      var i := |reviews|;
      assert reviews[..i] == reviews;
      while i > 0
        invariant 0 <= i <= |reviews|
        invariant LookedUp(env, State(), reviews[..i]) == LookedUp(env, old(State()), reviews)
        invariant StaffChangeRequestAt(reviews[..i], env.staff) == StaffChangeRequestAt(reviews, env.staff)
      {
        assert reviews[..i][..i - 1] == reviews[..i - 1];
        i := i - 1;
        if reviews[i].who.Some? {
          var member;
          member, known := IsStaff(reviews[i].who.value);
          if !known {
            return None, false;
          }
          if member {
            return if reviews[i].verdict == ChangesRequested then Some(reviews[i].at) else None, true;
          }
        }
      }
      return None, true;
    }

    /** One pull request as it is when the request arrives; None is an error. */
    method Fetch(n: nat) returns (read: Option<PullRequest>)
      requires n in pulls
      modifies this
      ensures State() == Arrived(env, old(State()))
      ensures read == if Succeeds(env, old(State())) then Some(pulls[n]) else None
    {
      var outcome := Arrive();
      read := if outcome.Landed? then Some(pulls[n]) else None;
    }
  }

  /** At most one comment and one closing are sent, the closing only when the
      comment succeeded; a dry run sends nothing. */
  method TakeStep(gh: GitHub, n: nat, step: Step, dryRun: bool) returns (ok: bool)
    requires n in gh.pulls
    modifies gh
    ensures (gh.State(), ok) == Stepped(gh.env, old(gh.State()), n, step, dryRun)
    ensures dryRun ==> gh.State() == old(gh.State()) && ok
    ensures gh.requests
            <= old(gh.requests) + (if step.comment.Some? then 1 else 0) + if step.kind == Close then 1 else 0
    ensures step.comment.Some? && gh.requests == old(gh.requests) + 2 ==> Succeeds(gh.env, old(gh.State()))
    ensures !dryRun && ok && step.kind == Close ==> gh.pulls[n].closedAt.Some?
  {
    if dryRun {
      return true;
    }
    ok := true;
    if step.comment.Some? {
      ok := gh.PostComment(n, step.comment.value);
      if !ok {
        return;
      }
    }
    if step.kind == Close {
      ok := gh.Patch(n);
    }
  }

  /** Whether the summary rules a cleanup out, for which staff may have to be known. */
  method RulesOut(gh: GitHub, c: Cleanup, summary: PullRequest, now: Time) returns (out: bool, known: bool)
    requires |summary.commits| > 0
    modifies gh
    ensures (gh.State(), known) == Lookups(gh.env, old(gh.State()), c, summary)
    ensures known ==> out == RuledOut(c, gh.env.staff, summary, now)
  {
    if c == StaleChanges && !summary.isDraft && IsCommunity(summary.labels) {
      var requestedAt;
      requestedAt, known := gh.StaffRequestAt(summary.reviews);
      out := requestedAt.None? || now - requestedAt.value < CHANGES_PING_AFTER;
    } else {
      out, known := RuledOut(c, gh.env.staff, summary, now), true;
    }
  }

  /** One cleanup, once it is known who is staff. */
  method CleanUp(gh: GitHub, n: nat, summary: PullRequest, now: Time, cached: Option<PullRequest>, i: nat, out: bool,
                 dryRun: bool) returns (read: Option<PullRequest>, progress: Progress)
    requires |summary.commits| > 0 && n in gh.pulls && i < |CLEANUPS|
    requires out == RuledOut(CLEANUPS[i], gh.env.staff, summary, now)
    modifies gh
    ensures (gh.State(), read, progress) == AfterCleanup(gh.env, old(gh.State()), n, summary, now, cached, i, dryRun)
  {
    read, progress := cached, Continue;
    if !out {
      if cached.None? {
        read := gh.Fetch(n);
        if read.None? {
          return None, Failed;
        }
      }
      var wish := Act(CLEANUPS[i], gh.env.staff, summary, read.value, now);
      if wish.Some? {
        var ok := TakeStep(gh, n, wish.value, dryRun);
        progress := if !ok then Failed else if wish.value.kind == Close then Closed else Continue;
      }
    }
  }

  /** The loop over the cleanups for one pull request, which it reads in full at
      most once. */
  method SweepOne(gh: GitHub, n: nat, summary: PullRequest, now: Time, dryRun: bool) returns (ok: bool)
    requires |summary.commits| > 0 && n in gh.pulls
    modifies gh
    ensures (gh.State(), ok) == Swept(gh.env, old(gh.State()), n, summary, now, dryRun)
  {
    var cached: Option<PullRequest> := None;
    for i := 0 to |CLEANUPS|
      invariant n in gh.pulls
      invariant SweptFrom(gh.env, gh.State(), n, summary, now, cached, i, dryRun)
                == Swept(gh.env, old(gh.State()), n, summary, now, dryRun)
    {
      var out, known := RulesOut(gh, CLEANUPS[i], summary, now);
      if !known {
        return false;
      }
      var progress;
      cached, progress := CleanUp(gh, n, summary, now, cached, i, out, dryRun);
      if !progress.Continue? {
        return progress.Closed?;
      }
    }
    ok := true;
  }

  /** The summaries of the pull requests to look at, each as it is when listed. */
  method ReadSummaries(gh: GitHub, order: seq<nat>) returns (listed: Option<seq<Listed>>)
    requires forall j | 0 <= j < |order| :: order[j] in gh.pulls
    modifies gh
    ensures (gh.State(), listed) == Summaries(gh.env, old(gh.State()), order, 0, [])
  {
    var summaries: seq<Listed> := [];
    for i := 0 to |order|
      invariant gh.pulls.Keys == old(gh.pulls.Keys) && AreThere(summaries, gh.State())
      invariant Summaries(gh.env, gh.State(), order, i, summaries) == Summaries(gh.env, old(gh.State()), order, 0, [])
    {
      var read := gh.Fetch(order[i]);
      if read.None? {
        return None;
      }
      if IsListed(read.value) {
        summaries := summaries + [Listed(order[i], read.value)];
      }
    }
    listed := Some(summaries);
  }

  method SweepListed(gh: GitHub, listed: seq<Listed>, now: Time, dryRun: bool) returns (ok: bool)
    requires AreThere(listed, gh.State())
    modifies gh
    ensures (gh.State(), ok) == SweptAll(gh.env, old(gh.State()), listed, now, 0, dryRun)
  {
    for i := 0 to |listed|
      invariant AreThere(listed, gh.State())
      invariant SweptAll(gh.env, gh.State(), listed, now, i, dryRun)
                == SweptAll(gh.env, old(gh.State()), listed, now, 0, dryRun)
    {
      ok := SweepOne(gh, listed[i].number, listed[i].summary, now, dryRun);
      if !ok {
        return;
      }
    }
    ok := true;
  }

  /** One run over the pull requests in the order GitHub lists them. */
  method Run(gh: GitHub, order: seq<nat>, now: Time, dryRun: bool) returns (completed: bool)
    requires forall j | 0 <= j < |order| :: order[j] in gh.pulls
    modifies gh
    ensures (gh.State(), completed) == RunOf(gh.env, old(gh.State()), order, now, dryRun)
  {
    var listed := ReadSummaries(gh, order);
    if listed.None? {
      return false;
    }
    SummariesAreThere(gh.env, old(gh.State()), order, 0, []);
    completed := SweepListed(gh, listed.value, now, dryRun);
  }

  // ---------- refinement ----------

  lemma {:induction false} ExecAppend(s: State, a: seq<Event>, b: seq<Event>)
    requires Exec(s, a).Some?
    ensures Exec(s, a + b) == Exec(Exec(s, a).value, b)
  {
    if b == [] {
      assert a + b == a;
    } else {
      ExecAppend(s, a, b[..|b| - 1]);
      assert (a + b)[..|a + b| - 1] == a + b[..|b| - 1];
    }
  }

  lemma {:induction false} Then(s: State, a: seq<Event>, e: Event)
    requires Exec(s, a).Some?
    ensures Exec(s, a + [e]) == Next(Exec(s, a).value, e)
  {
    ExecAppend(s, a, [e]);
  }

  /** A failed request ends the run. */
  lemma {:induction false} Aborts(s: State, before: seq<Event>,
                                  at: State) returns (events: seq<Event>, s': State)
    requires Exec(s, before) == Some(at)
    ensures Exec(s, events) == Some(s') && s' == at.(sweep := None)
  {
    Then(s, before, Stop);
    events, s' := before + [Stop], at.(sweep := None);
  }

  /** The protocol state matches the server for pull request `n`. */
  ghost predicate Matches(s: State, sv: Server, n: nat) {
    n in sv.pulls && s.pr == sv.pulls[n] && s.clock == sv.clock && |s.pr.commits| > 0
  }

  /** Before a request arrives, others act. */
  lemma {:induction false} Arrives(env: Environment, s: State, sv: Server,
                                   n: nat) returns (e: Event, s': State)
    requires Lawful(env) && Matches(s, sv, n)
    ensures Exec(s, [e]) == Some(s')
    ensures Matches(s', Arrived(env, sv), n) && s'.sweep == s.sweep && s.clock <= s'.clock
  {
    var pr := env.moves(sv.requests, n, s.pr, s.clock);
    assert IsLawful(env, sv.requests, n, s.pr, s.clock);
    e := World(pr, s.clock + env.delays(sv.requests));
    s' := Next(s, e).value;
    assert [e][..0] == [];
  }

  lemma {:induction false} PatchRefines(env: Environment, s: State, sv: Server, n: nat, sweep: Sweep)
    returns (events: seq<Event>, s': State)
    requires Lawful(env) && Matches(s, sv, n) && s.sweep == Some(sweep) && Ready(sweep)
    requires StepOf(sweep).Some? && (sweep.closing || StepOf(sweep).value.comment.None?)
    ensures Exec(s, events) == Some(s')
    ensures Matches(s', AfterPatch(env, sv, n), n) && s'.sweep.None?
  {
    var e, now := Arrives(env, s, sv, n);
    var outcome := env.outcomes(sv.requests);
    Then(s, [e], Write(outcome));
    events, s' := [e] + [Write(outcome)], AfterClose(now, outcome);
  }

  lemma {:induction false} PostRefines(env: Environment, s: State, sv: Server, n: nat, sweep: Sweep,
                                       step: Step, text: Text)
    returns (events: seq<Event>, s': State)
    requires Lawful(env) && Matches(s, sv, n) && s.sweep == Some(sweep) && Ready(sweep) && !sweep.closing
    requires StepOf(sweep) == Some(step) && step.comment == Some(text) && text.Marked?
    ensures Exec(s, events) == Some(s')
    ensures Matches(s', AfterPost(env, sv, n, text), n)
    ensures s'.sweep == if !Succeeds(env, sv) then None
                        else if step.kind == Close then Some(sweep.(closing := true))
                        else Some(sweep.(next := sweep.next + 1))
  {
    var e, now := Arrives(env, s, sv, n);
    var outcome := env.outcomes(sv.requests);
    Then(s, [e], Write(outcome));
    events, s' := [e] + [Write(outcome)], AfterComment(now, sweep, step, text, outcome);
  }

  lemma {:induction false} StepRefines(env: Environment, s: State, sv: Server, n: nat, sweep: Sweep,
                                       step: Step)
    returns (events: seq<Event>, s': State)
    requires Lawful(env) && Matches(s, sv, n) && s.sweep == Some(sweep) && Ready(sweep) && !sweep.closing
    requires StepOf(sweep) == Some(step)
    requires if step.comment.Some? then step.comment.value.Marked? else step.kind == Close
    ensures Exec(s, events) == Some(s')
    ensures Matches(s', Stepped(env, sv, n, step, false).0, n)
    ensures s'.sweep == if !Stepped(env, sv, n, step, false).1 || step.kind == Close then None
                        else Some(sweep.(next := sweep.next + 1))
  {
    if step.comment.None? {
      events, s' := PatchRefines(env, s, sv, n, sweep);
    } else {
      events, s' := PostRefines(env, s, sv, n, sweep, step, step.comment.value);
      if Succeeds(env, sv) && step.kind == Close {
        var more, last := PatchRefines(env, s', AfterPost(env, sv, n, step.comment.value), n,
                                       sweep.(closing := true));
        ExecAppend(s, events, more);
        events, s' := events + more, last;
      }
    }
  }

  /** One cleanup of the loop is one run of the protocol. */
  lemma {:induction false} WishRefines(env: Environment, s: State, sv: Server, n: nat, sweep: Sweep)
    returns (events: seq<Event>, s': State)
    requires Lawful(env) && Matches(s, sv, n) && s.sweep == Some(sweep) && Ready(sweep) && !sweep.closing
    ensures Exec(s, events) == Some(s')
    ensures var (sv', progress) := AfterWish(env, sv, n, StepOf(sweep), false);
            && Matches(s', sv', n)
            && s'.sweep == if progress.Continue? then Some(sweep.(next := sweep.next + 1)) else None
  {
    if StepOf(sweep).None? {
      events, s' := [Skip], s.(sweep := Some(sweep.(next := sweep.next + 1)));
      assert [Skip][..0] == [];
    } else {
      events, s' := StepRefines(env, s, sv, n, sweep, StepOf(sweep).value);
    }
  }

  /** What a sweep has listed before it reads in full. */
  function Waiting(env: Environment, now: Time, summary: PullRequest): Sweep {
    Sweep(now, env.staff, summary, None, 0, false)
  }

  /** What a sweep is when it comes to the i-th cleanup. */
  function Sweeping(env: Environment, now: Time, summary: PullRequest, cached: Option<PullRequest>, i: nat): Sweep {
    if cached.None? then Waiting(env, now, summary) else Sweep(now, env.staff, summary, cached, i, false)
  }

  /** While the run asks who is staff, time passes. */
  lemma {:induction false} LookedUpPasses(env: Environment, s: State, sv: Server, n: nat, reviews: seq<Review>)
    returns (events: seq<Event>, s': State)
    requires Lawful(env) && Matches(s, sv, n)
    ensures Exec(s, events) == Some(s') && s'.sweep == s.sweep && s.clock <= s'.clock
    ensures Matches(s', LookedUp(env, sv, reviews).0, n)
    decreases |reviews|
  {
    events, s' := [], s;
    if reviews != [] {
      var before, last := reviews[..|reviews| - 1], reviews[|reviews| - 1];
      if last.who.None? {
        events, s' := LookedUpPasses(env, s, sv, n, before);
      } else {
        var (asked, known) := Asked(env, sv, last.who.value);
        if last.who.value !in sv.asked {
          var e, next := Arrives(env, s, sv, n);
          events, s' := [e], next;
        }
        if known && last.who.value !in env.staff {
          var more, end := LookedUpPasses(env, s', asked, n, before);
          ExecAppend(s, events, more);
          events, s' := events + more, end;
        }
      }
    }
  }

  lemma {:induction false} LookupsPass(env: Environment, s: State, sv: Server, n: nat, c: Cleanup,
                                       summary: PullRequest)
    returns (events: seq<Event>, s': State)
    requires Lawful(env) && Matches(s, sv, n)
    ensures Exec(s, events) == Some(s') && s'.sweep == s.sweep && s.clock <= s'.clock
    ensures Matches(s', Lookups(env, sv, c, summary).0, n)
  {
    events, s' := [], s;
    if c == StaleChanges && !summary.isDraft && IsCommunity(summary.labels) && AnyRequest(summary.reviews) {
      events, s' := LookedUpPasses(env, s, sv, n, summary.reviews);
    }
  }

  /** The cleanups that were ruled out before the full read was made are skipped
      after it. */
  lemma {:induction false} SkipsTo(env: Environment, s: State, now: Time, summary: PullRequest,
                                   full: PullRequest, i: nat) returns (events: seq<Event>, s': State)
    requires |summary.commits| > 0 && i <= |CLEANUPS| && AllRuledOut(env.staff, summary, now, i)
    requires s.sweep == Some(Sweeping(env, now, summary, Some(full), 0))
    ensures Exec(s, events) == Some(s') && s' == s.(sweep := Some(Sweeping(env, now, summary, Some(full), i)))
  {
    events, s' := [], s;
    if i > 0 {
      events, s' := SkipsTo(env, s, now, summary, full, i - 1);
      RuledOutActs(CLEANUPS[i - 1], env.staff, summary, full, now);
      Then(s, events, Skip);
      events, s' := events + [Skip], s.(sweep := Some(Sweeping(env, now, summary, Some(full), i)));
    }
  }

  /** The full read, seen from the protocol: it brings the sweep to the cleanup that
      needs it. */
  lemma {:induction false} ReadRefines(env: Environment, s: State, sv: Server, n: nat, summary: PullRequest,
                                       now: Time, cached: Option<PullRequest>, i: nat)
    returns (events: seq<Event>, s': State)
    requires Lawful(env) && Matches(s, sv, n) && |summary.commits| > 0 && i < |CLEANUPS|
    requires s.sweep == Some(Sweeping(env, now, summary, cached, i))
    requires cached.None? ==> AllRuledOut(env.staff, summary, now, i)
    ensures Exec(s, events) == Some(s') && Matches(s', ReadFull(env, sv, n, cached).0, n)
    ensures var full := ReadFull(env, sv, n, cached).1;
            s'.sweep == if full.None? then None else Some(Sweeping(env, now, summary, full, i))
  {
    if cached.Some? {
      events, s' := [], s;
    } else {
      var e, arrived := Arrives(env, s, sv, n);
      if !Succeeds(env, sv) {
        events, s' := Aborts(s, [e], arrived);
      } else {
        Then(s, [e], CleanupProtocol.Fetch);
        var fetched := arrived.(sweep := Some(Sweeping(env, now, summary, Some(arrived.pr), 0)));
        var more, last := SkipsTo(env, fetched, now, summary, arrived.pr, i);
        ExecAppend(s, [e] + [CleanupProtocol.Fetch], more);
        events, s' := [e] + [CleanupProtocol.Fetch] + more, last;
      }
    }
  }

  /** A cleanup that is ruled out is passed. */
  lemma {:induction false} RuledOutRefines(env: Environment, s: State, now: Time, summary: PullRequest,
                                           cached: Option<PullRequest>, i: nat)
    returns (events: seq<Event>, s': State)
    requires |summary.commits| > 0 && i < |CLEANUPS| && RuledOut(CLEANUPS[i], env.staff, summary, now)
    requires s.sweep == Some(Sweeping(env, now, summary, cached, i))
    ensures Exec(s, events) == Some(s') && s' == s.(sweep := Some(Sweeping(env, now, summary, cached, i + 1)))
  {
    if cached.None? {
      events, s' := [], s;
    } else {
      RuledOutActs(CLEANUPS[i], env.staff, summary, cached.value, now);
      events, s' := [Skip], s.(sweep := Some(Sweeping(env, now, summary, cached, i + 1)));
      assert [Skip][..0] == [];
    }
  }

  lemma {:induction false} CleanupRefines(env: Environment, s: State, sv: Server, n: nat, summary: PullRequest,
                                          now: Time, cached: Option<PullRequest>, i: nat)
    returns (events: seq<Event>, s': State)
    requires Lawful(env) && Matches(s, sv, n) && |summary.commits| > 0 && i < |CLEANUPS|
    requires s.sweep == Some(Sweeping(env, now, summary, cached, i))
    requires cached.None? ==> AllRuledOut(env.staff, summary, now, i)
    ensures Exec(s, events) == Some(s')
    ensures var (next, full, progress) := AfterCleanup(env, sv, n, summary, now, cached, i, false);
            && Matches(s', next, n)
            && s'.sweep == (if progress.Continue? then Some(Sweeping(env, now, summary, full, i + 1)) else None)
            && (progress.Continue? && full.None? ==> AllRuledOut(env.staff, summary, now, i + 1))
  {
    if RuledOut(CLEANUPS[i], env.staff, summary, now) {
      events, s' := RuledOutRefines(env, s, now, summary, cached, i);
    } else {
      events, s' := ReadRefines(env, s, sv, n, summary, now, cached, i);
      var (read, full) := ReadFull(env, sv, n, cached);
      if full.Some? {
        var more, last := WishRefines(env, s', read, n, s'.sweep.value);
        ExecAppend(s, events, more);
        events, s' := events + more, last;
      }
    }
  }

  lemma {:induction false} SweptFromRefines(env: Environment, s: State, sv: Server, n: nat,
                                            summary: PullRequest, now: Time, cached: Option<PullRequest>,
                                            i: nat)
    returns (events: seq<Event>, s': State)
    requires Lawful(env) && Matches(s, sv, n) && |summary.commits| > 0 && i <= |CLEANUPS|
    requires s.sweep == Some(Sweeping(env, now, summary, cached, i))
    requires cached.None? ==> AllRuledOut(env.staff, summary, now, i)
    ensures Exec(s, events) == Some(s')
    ensures Matches(s', SweptFrom(env, sv, n, summary, now, cached, i, false).0, n) && s'.sweep.None?
    decreases |CLEANUPS| - i
  {
    if i == |CLEANUPS| {
      events, s' := Aborts(s, [], s);
    } else {
      var (asked, known) := Lookups(env, sv, CLEANUPS[i], summary);
      events, s' := LookupsPass(env, s, sv, n, CLEANUPS[i], summary);
      if !known {
        events, s' := Aborts(s, events, s');
      } else {
        var (next, full, progress) := AfterCleanup(env, asked, n, summary, now, cached, i, false);
        var more, last := CleanupRefines(env, s', asked, n, summary, now, cached, i);
        ExecAppend(s, events, more);
        events, s' := events + more, last;
        if progress.Continue? {
          more, last := SweptFromRefines(env, s', next, n, summary, now, full, i + 1);
          ExecAppend(s, events, more);
          events, s' := events + more, last;
        }
      }
    }
  }

  /** Whatever others do meanwhile, what the loop does to one listed pull request
      is a run of the protocol. */
  lemma {:induction false} SweptRefines(env: Environment, s: State, sv: Server, n: nat, summary: PullRequest,
                                        now: Time, dryRun: bool)
    returns (events: seq<Event>, s': State)
    requires Lawful(env) && Matches(s, sv, n) && |summary.commits| > 0 && s.sweep == Some(Waiting(env, now, summary))
    ensures Exec(s, events) == Some(s')
    ensures Matches(s', Swept(env, sv, n, summary, now, dryRun).0, n) && s'.sweep.None?
  {
    if dryRun {
      events, s' := SweptPasses(env, s, sv, n, n, summary, now, dryRun);
      events, s' := Aborts(s, events, s');
    } else {
      events, s' := SweptFromRefines(env, s, sv, n, summary, now, None, 0);
    }
  }

  // ---------- the other pull requests, and dry runs ----------

  lemma {:induction false} StepPasses(env: Environment, s: State, sv: Server, n: nat, m: nat, step: Step,
                                      dryRun: bool)
    returns (events: seq<Event>, s': State)
    requires Lawful(env) && Matches(s, sv, n) && m in sv.pulls && (m != n || dryRun)
    ensures Exec(s, events) == Some(s') && s'.sweep == s.sweep && s.clock <= s'.clock
    ensures Matches(s', Stepped(env, sv, m, step, dryRun).0, n)
  {
    if dryRun || (step.comment.None? && step.kind != Close) {
      events, s' := [], s;
    } else {
      var e, next := Arrives(env, s, sv, n);
      events, s' := [e], next;
      if step.comment.Some? && Succeeds(env, sv) && step.kind == Close {
        var e', last := Arrives(env, next, AfterPost(env, sv, m, step.comment.value), n);
        ExecAppend(s, [e], [e']);
        events, s' := [e] + [e'], last;
      }
    }
  }

  lemma {:induction false} CleanupPasses(env: Environment, s: State, sv: Server, n: nat, m: nat,
                                         summary: PullRequest, now: Time, cached: Option<PullRequest>, i: nat,
                                         dryRun: bool)
    returns (events: seq<Event>, s': State)
    requires Lawful(env) && Matches(s, sv, n) && m in sv.pulls && (m != n || dryRun)
    requires |summary.commits| > 0 && i < |CLEANUPS|
    ensures Exec(s, events) == Some(s') && s'.sweep == s.sweep && s.clock <= s'.clock
    ensures Matches(s', AfterCleanup(env, sv, m, summary, now, cached, i, dryRun).0, n)
  {
    events, s' := [], s;
    if !RuledOut(CLEANUPS[i], env.staff, summary, now) {
      var (read, full) := ReadFull(env, sv, m, cached);
      if cached.None? {
        var e, next := Arrives(env, s, sv, n);
        events, s' := [e], next;
      }
      if full.Some? {
        var wish := Act(CLEANUPS[i], env.staff, summary, full.value, now);
        if wish.Some? {
          var more, last := StepPasses(env, s', read, n, m, wish.value, dryRun);
          ExecAppend(s, events, more);
          events, s' := events + more, last;
        }
      }
    }
  }

  lemma {:induction false} SweptFromPasses(env: Environment, s: State, sv: Server, n: nat, m: nat,
                                           summary: PullRequest, now: Time, cached: Option<PullRequest>,
                                           i: nat, dryRun: bool)
    returns (events: seq<Event>, s': State)
    requires Lawful(env) && Matches(s, sv, n) && m in sv.pulls && (m != n || dryRun)
    requires |summary.commits| > 0 && i <= |CLEANUPS|
    ensures Exec(s, events) == Some(s') && s'.sweep == s.sweep && s.clock <= s'.clock
    ensures Matches(s', SweptFrom(env, sv, m, summary, now, cached, i, dryRun).0, n)
    decreases |CLEANUPS| - i
  {
    events, s' := [], s;
    if i < |CLEANUPS| {
      var (asked, known) := Lookups(env, sv, CLEANUPS[i], summary);
      events, s' := LookupsPass(env, s, sv, n, CLEANUPS[i], summary);
      if known {
        var (next, full, progress) := AfterCleanup(env, asked, m, summary, now, cached, i, dryRun);
        var more, last := CleanupPasses(env, s', asked, n, m, summary, now, cached, i, dryRun);
        ExecAppend(s, events, more);
        events, s' := events + more, last;
        if progress.Continue? {
          more, last := SweptFromPasses(env, s', next, n, m, summary, now, full, i + 1, dryRun);
          ExecAppend(s, events, more);
          events, s' := events + more, last;
        }
      }
    }
  }

  /** Seen from pull request `n`, a sweep over another one, or one that only reads,
      is time that passes. */
  lemma {:induction false} SweptPasses(env: Environment, s: State, sv: Server, n: nat, m: nat,
                                       summary: PullRequest, now: Time, dryRun: bool)
    returns (events: seq<Event>, s': State)
    requires Lawful(env) && Matches(s, sv, n) && m in sv.pulls && (m != n || dryRun) && |summary.commits| > 0
    ensures Exec(s, events) == Some(s') && s'.sweep == s.sweep && s.clock <= s'.clock
    ensures Matches(s', Swept(env, sv, m, summary, now, dryRun).0, n)
  {
    events, s' := SweptFromPasses(env, s, sv, n, m, summary, now, None, 0, dryRun);
  }

  // ---------- a whole run ----------

  ghost predicate DistinctNumbers(order: seq<nat>) {
    forall i, j | 0 <= i < j < |order| :: order[i] != order[j]
  }

  ghost predicate DistinctListed(listed: seq<Listed>) {
    forall i, j | 0 <= i < j < |listed| :: listed[i].number != listed[j].number
  }

  /** The sweep of pull request `n` has begun if it is listed from the i-th place
      on, and waits for its turn. */
  ghost predicate Awaits(env: Environment, sweep: Option<Sweep>, listed: seq<Listed>, i: nat, n: nat, now: Time)
    requires i <= |listed|
  {
    && (sweep.None? ==> forall j | i <= j < |listed| :: listed[j].number != n)
    && (sweep.Some? ==> exists j | i <= j < |listed| ::
          listed[j].number == n && sweep.value == Waiting(env, now, listed[j].summary))
  }

  lemma {:induction false} AwaitsNext(env: Environment, sweep: Option<Sweep>, listed: seq<Listed>, i: nat,
                                      n: nat, now: Time)
    requires i < |listed| && DistinctListed(listed) && Awaits(env, sweep, listed, i, n, now)
    ensures if listed[i].number == n
            then sweep == Some(Waiting(env, now, listed[i].summary)) && Awaits(env, None, listed, i + 1, n, now)
            else Awaits(env, sweep, listed, i + 1, n, now)
  {
  }

  /** One turn of the loop. */
  lemma {:induction false} SweptAllNext(env: Environment, sv: Server, listed: seq<Listed>, now: Time, i: nat,
                                        dryRun: bool) returns (swept: Server, ok: bool)
    requires AreThere(listed, sv) && i < |listed|
    ensures (swept, ok) == Swept(env, sv, listed[i].number, listed[i].summary, now, dryRun)
    ensures AreThere(listed, swept)
    ensures SweptAll(env, sv, listed, now, i, dryRun)
            == if ok then SweptAll(env, swept, listed, now, i + 1, dryRun) else (swept, false)
  {
    var result := Swept(env, sv, listed[i].number, listed[i].summary, now, dryRun);
    swept, ok := result.0, result.1;
  }

  /** ... seen from pull request `n`. */
  lemma {:induction false} TurnRefines(env: Environment, s: State, sv: Server, n: nat, listed: seq<Listed>,
                                       now: Time, i: nat, dryRun: bool)
    returns (events: seq<Event>, s': State, swept: Server, ok: bool)
    requires Lawful(env) && Matches(s, sv, n) && i < |listed| && DistinctListed(listed)
    requires AreThere(listed, sv) && Awaits(env, s.sweep, listed, i, n, now)
    ensures Exec(s, events) == Some(s') && Awaits(env, s'.sweep, listed, i + 1, n, now)
    ensures Matches(s', swept, n) && AreThere(listed, swept)
    ensures SweptAll(env, sv, listed, now, i, dryRun)
            == if ok then SweptAll(env, swept, listed, now, i + 1, dryRun) else (swept, false)
  {
    AwaitsNext(env, s.sweep, listed, i, n, now);
    swept, ok := SweptAllNext(env, sv, listed, now, i, dryRun);
    if listed[i].number == n {
      events, s' := SweptRefines(env, s, sv, n, listed[i].summary, now, dryRun);
    } else {
      events, s' := SweptPasses(env, s, sv, n, listed[i].number, listed[i].summary, now, dryRun);
    }
  }

  lemma {:induction false} MatchesToo(s: State, sv: Server, sv': Server, n: nat)
    requires Matches(s, sv, n) && sv' == sv
    ensures Matches(s, sv', n)
  {
  }

  lemma {:induction false} SweptAllRefines(env: Environment, s: State, sv: Server, n: nat, listed: seq<Listed>,
                                           now: Time, i: nat, dryRun: bool)
    returns (events: seq<Event>, s': State)
    requires Lawful(env) && Matches(s, sv, n) && AreThere(listed, sv) && DistinctListed(listed)
    requires i <= |listed| && Awaits(env, s.sweep, listed, i, n, now)
    ensures Exec(s, events) == Some(s') && s'.sweep.None?
    ensures Matches(s', SweptAll(env, sv, listed, now, i, dryRun).0, n)
    decreases |listed| - i
  {
    if i == |listed| {
      events, s' := [], s;
    } else {
      var swept, ok;
      events, s', swept, ok := TurnRefines(env, s, sv, n, listed, now, i, dryRun);
      if ok {
        var more, last := SweptAllRefines(env, s', swept, n, listed, now, i + 1, dryRun);
        ExecAppend(s, events, more);
        events, s' := events + more, last;
        swept := SweptAll(env, swept, listed, now, i + 1, dryRun).0;
      } else {
        events, s' := Aborts(s, events, s');
      }
      MatchesToo(s', swept, SweptAll(env, sv, listed, now, i, dryRun).0, n);
    }
  }

  lemma {:induction false} AwaitsMore(env: Environment, sweep: Option<Sweep>, before: seq<Listed>, n: nat,
                                      now: Time, l: Listed)
    requires DistinctListed(before) && Awaits(env, sweep, before, 0, n, now)
    requires forall j | 0 <= j < |before| :: before[j].number != l.number
    ensures DistinctListed(before + [l])
    ensures if l.number == n
            then sweep.None? && Awaits(env, Some(Waiting(env, now, l.summary)), before + [l], 0, n, now)
            else Awaits(env, sweep, before + [l], 0, n, now)
  {
    var more := before + [l];
    assert more[|before|] == l;
    if sweep.Some? {
      var j :| 0 <= j < |before| && before[j].number == n && sweep.value == Waiting(env, now, before[j].summary);
      assert more[j] == before[j];
    }
  }

  /** The sweep begins when the summary is read. */
  lemma {:induction false} ListOne(env: Environment, s: State, e: Event, next: State, read: Server, n: nat,
                                   m: nat, before: seq<Listed>, now: Time)
    returns (events: seq<Event>, s': State)
    requires Exec(s, [e]) == Some(next) && Matches(next, read, n) && m in read.pulls && now <= next.clock
    requires DistinctListed(before) && Awaits(env, next.sweep, before, 0, n, now)
    requires forall j | 0 <= j < |before| :: before[j].number != m
    ensures Exec(s, events) == Some(s') && Matches(s', read, n) && s'.clock == next.clock
    ensures var after := WithSummary(before, m, read.pulls[m]);
            DistinctListed(after) && Awaits(env, s'.sweep, after, 0, n, now)
  {
    var pr := read.pulls[m];
    events, s' := [e], next;
    if IsListed(pr) {
      AwaitsMore(env, next.sweep, before, n, now, Listed(m, pr));
      if m == n {
        Then(s, [e], Begin(now, env.staff));
        events, s' := [e] + [Begin(now, env.staff)], Next(next, Begin(now, env.staff)).value;
      }
    }
  }

  /** What is still to be read is not listed yet. */
  ghost predicate StillToRead(before: seq<Listed>, order: seq<nat>, i: nat) {
    forall j, k | 0 <= j < |before| && i <= k < |order| :: before[j].number != order[k]
  }

  lemma {:induction false} OneLessToRead(before: seq<Listed>, sv: Server, read: Server, order: seq<nat>, i: nat)
    requires i < |order| && DistinctNumbers(order) && StillToRead(before, order, i)
    requires AreThere(before, sv) && read.pulls.Keys == sv.pulls.Keys && order[i] in read.pulls
    ensures var after := WithSummary(before, order[i], read.pulls[order[i]]);
            StillToRead(after, order, i + 1) && AreThere(after, read)
  {
  }

  /** What holds while the summaries are read, seen from pull request `n`. */
  ghost predicate Listing(env: Environment, s: State, sv: Server, n: nat, order: seq<nat>, now: Time, i: nat,
                          before: seq<Listed>)
  {
    && Matches(s, sv, n) && now <= s.clock
    && (forall j | 0 <= j < |order| :: order[j] in sv.pulls)
    && AreThere(before, sv) && DistinctListed(before) && Awaits(env, s.sweep, before, 0, n, now)
    && StillToRead(before, order, i)
  }

  lemma {:induction false} ListNext(env: Environment, s: State, sv: Server, n: nat, order: seq<nat>, now: Time,
                                    i: nat, before: seq<Listed>)
    returns (events: seq<Event>, s': State, read: Server, after: seq<Listed>)
    requires Lawful(env) && DistinctNumbers(order) && Listing(env, s, sv, n, order, now, i, before) && i < |order|
    requires Succeeds(env, sv)
    ensures Exec(s, events) == Some(s') && Listing(env, s', read, n, order, now, i + 1, after)
    ensures Summaries(env, sv, order, i, before) == Summaries(env, read, order, i + 1, after)
  {
    var e, next := Arrives(env, s, sv, n);
    read := Arrived(env, sv);
    OneLessToRead(before, sv, read, order, i);
    events, s' := ListOne(env, s, e, next, read, n, order[i], before, now);
    after := WithSummary(before, order[i], read.pulls[order[i]]);
  }

  lemma {:induction false} ListFails(env: Environment, s: State, sv: Server, n: nat, order: seq<nat>, i: nat,
                                     before: seq<Listed>)
    returns (events: seq<Event>, s': State, read: Server)
    requires Lawful(env) && Matches(s, sv, n) && i < |order| && !Succeeds(env, sv)
    requires forall j | 0 <= j < |order| :: order[j] in sv.pulls
    ensures Exec(s, events) == Some(s') && Matches(s', read, n)
    ensures Summaries(env, sv, order, i, before) == (read, None)
  {
    var e, next := Arrives(env, s, sv, n);
    events, s', read := [e], next, Arrived(env, sv);
  }

  lemma {:induction false} SummariesRefine(env: Environment, s: State, sv: Server, n: nat, order: seq<nat>,
                                           now: Time, i: nat, before: seq<Listed>)
    returns (events: seq<Event>, s': State, read: Server, listed: Option<seq<Listed>>)
    requires Lawful(env) && DistinctNumbers(order) && Listing(env, s, sv, n, order, now, i, before) && i <= |order|
    ensures (read, listed) == Summaries(env, sv, order, i, before)
    ensures Exec(s, events) == Some(s') && Matches(s', read, n)
    ensures listed.Some? ==> Listing(env, s', read, n, order, now, |order|, listed.value)
    decreases |order| - i
  {
    if i == |order| {
      events, s', read, listed := [], s, sv, Some(before);
    } else if !Succeeds(env, sv) {
      listed := None;
      events, s', read := ListFails(env, s, sv, n, order, i, before);
    } else {
      var first, at, one, after := ListNext(env, s, sv, n, order, now, i, before);
      events, s', read, listed := SummariesRefine(env, at, one, n, order, now, i + 1, after);
      ExecAppend(s, first, events);
      events := first + events;
    }
  }

  lemma {:induction false} RestRefines(env: Environment, s: State, before: seq<Event>, at: State, read: Server,
                                       n: nat, listed: seq<Listed>, now: Time, dryRun: bool)
    returns (events: seq<Event>, s': State)
    requires Lawful(env) && Exec(s, before) == Some(at) && Matches(at, read, n)
    requires AreThere(listed, read) && DistinctListed(listed) && Awaits(env, at.sweep, listed, 0, n, now)
    ensures Exec(s, events) == Some(s') && s'.sweep.None?
    ensures Matches(s', SweptAll(env, read, listed, now, 0, dryRun).0, n)
  {
    var more, last := SweptAllRefines(env, at, read, n, listed, now, 0, dryRun);
    ExecAppend(s, before, more);
    events, s' := before + more, last;
  }

  /** Whatever anybody does between the requests of a run, and whatever becomes of
      these: the run is a run of the protocol for each pull request. */
  lemma {:induction false} RunIsProtocolRun(env: Environment, s: State, sv: Server, n: nat, order: seq<nat>,
                                            now: Time, dryRun: bool)
    returns (events: seq<Event>, s': State)
    requires Lawful(env) && Matches(s, sv, n) && s.sweep.None? && now <= s.clock
    requires (forall j | 0 <= j < |order| :: order[j] in sv.pulls) && DistinctNumbers(order)
    ensures Exec(s, events) == Some(s') && s'.sweep.None?
    ensures Matches(s', RunOf(env, sv, order, now, dryRun).0, n)
  {
    var read, listed;
    events, s', read, listed := SummariesRefine(env, s, sv, n, order, now, 0, []);
    if listed.None? {
      events, s' := Aborts(s, events, s');
    } else {
      events, s' := RestRefines(env, s, events, s', read, n, listed.value, now, dryRun);
    }
  }

  // ---------- resuming ----------

  /** What a cleanup asks of a pull request before it looks for its own closing
      comment. */
  ghost predicate Applies(c: Cleanup, staff: set<Login>, summary: PullRequest, full: PullRequest, now: Time)
    requires |summary.commits| > 0
  {
    && !RuledOut(c, staff, summary, now)
    && (c == StaleChanges ==>
          var requestedAt := StaffChangeRequestAt(summary.reviews, staff);
          && requestedAt.Some?
          && !ReviewRequestedSince(full.timeline, requestedAt.value) && !AuthorPushedSince(full, requestedAt.value))
  }

  /** A cleanup closes without a comment exactly when it still applies and its
      closing comment of this epoch already stands. */
  lemma {:induction false} ClosesSilentlyIff(c: Cleanup, staff: set<Login>, summary: PullRequest,
                                             full: PullRequest, now: Time)
    requires |summary.commits| > 0
    ensures Act(c, staff, summary, full, now) == Some(Step(Close, None))
            <==> Applies(c, staff, summary, full, now)
                 && BotCommentedAt(full.comments, CloseMarker(c), Clock(c, staff, summary, full).value).Some?
  {
  }

  /** From the i-th request on, all requests succeed. */
  ghost predicate AllLand(env: Environment, i: nat) {
    forall j: nat | i <= j :: env.outcomes(j).Landed?
  }

  /** Comments have only been added, none of them a cleanup's closing comment. */
  ghost predicate NoNewClosing(m: Marker, old_: PullRequest, new_: PullRequest) {
    && old_.comments <= new_.comments
    && forall i | |old_.comments| <= i < |new_.comments| :: !BotSaid(new_.comments[i], m)
  }

  /** Others write no comments of the bot. */
  lemma {:induction false} ArrivedNoClosing(env: Environment, sv: Server, n: nat, m: Marker)
    requires Lawful(env) && n in sv.pulls && |sv.pulls[n].commits| > 0
    ensures NoNewClosing(m, sv.pulls[n], Arrived(env, sv).pulls[n]) && |Arrived(env, sv).pulls[n].commits| > 0
  {
    assert IsLawful(env, sv.requests, n, sv.pulls[n], sv.clock);
  }

  lemma {:induction false} NoClosingTwice(m: Marker, a: PullRequest, b: PullRequest, c: PullRequest)
    requires NoNewClosing(m, a, b) && NoNewClosing(m, b, c)
    ensures NoNewClosing(m, a, c)
  {
    forall i | |a.comments| <= i < |c.comments| ensures !BotSaid(c.comments[i], m) {
      if i < |b.comments| {
        assert c.comments[i] == b.comments[i];
      }
    }
  }

  lemma {:induction false} PostNoClosing(env: Environment, sv: Server, n: nat, text: Text, m: Marker)
    requires Lawful(env) && n in sv.pulls && |sv.pulls[n].commits| > 0 && text.Marked? && text.marker != m
    ensures var pr := AfterPost(env, sv, n, text).pulls[n];
            NoNewClosing(m, sv.pulls[n], pr) && |pr.commits| > 0
  {
    ArrivedNoClosing(env, sv, n, m);
  }

  lemma {:induction false} StepClosing(env: Environment, sv: Server, n: nat, step: Step, m: Marker)
    requires Lawful(env) && AllLand(env, sv.requests) && n in sv.pulls && |sv.pulls[n].commits| > 0
    requires step.comment.Some? ==> step.comment.value.Marked? && step.comment.value.marker != m
    ensures var (stepped, ok) := Stepped(env, sv, n, step, false);
            && ok && sv.requests <= stepped.requests && |stepped.pulls[n].commits| > 0
            && NoNewClosing(m, sv.pulls[n], stepped.pulls[n])
            && (step.kind == Close ==> stepped.pulls[n].closedAt.Some?)
  {
    var at := sv;
    if step.comment.Some? {
      PostNoClosing(env, sv, n, step.comment.value, m);
      at := AfterPost(env, sv, n, step.comment.value);
    }
    if step.kind == Close {
      ArrivedNoClosing(env, at, n, m);
      NoClosingTwice(m, sv.pulls[n], at.pulls[n], Arrived(env, at).pulls[n]);
    }
  }

  lemma {:induction false} LookedUpClosing(env: Environment, sv: Server, n: nat, reviews: seq<Review>, m: Marker)
    requires Lawful(env) && AllLand(env, sv.requests) && n in sv.pulls && |sv.pulls[n].commits| > 0
    ensures var (asked, known) := LookedUp(env, sv, reviews);
            && known && sv.requests <= asked.requests && |asked.pulls[n].commits| > 0
            && NoNewClosing(m, sv.pulls[n], asked.pulls[n])
    decreases |reviews|
  {
    if reviews != [] {
      var before, last := reviews[..|reviews| - 1], reviews[|reviews| - 1];
      if last.who.None? {
        LookedUpClosing(env, sv, n, before, m);
      } else {
        var asked := Asked(env, sv, last.who.value).0;
        ArrivedNoClosing(env, sv, n, m);
        if last.who.value !in env.staff {
          LookedUpClosing(env, asked, n, before, m);
          NoClosingTwice(m, sv.pulls[n], asked.pulls[n], LookedUp(env, asked, before).0.pulls[n]);
        }
      }
    }
  }

  lemma {:induction false} LookupsClosing(env: Environment, sv: Server, n: nat, c: Cleanup,
                                          summary: PullRequest, m: Marker)
    requires Lawful(env) && AllLand(env, sv.requests) && n in sv.pulls && |sv.pulls[n].commits| > 0
    ensures var (asked, known) := Lookups(env, sv, c, summary);
            && known && sv.requests <= asked.requests && |asked.pulls[n].commits| > 0
            && NoNewClosing(m, sv.pulls[n], asked.pulls[n])
  {
    LookedUpClosing(env, sv, n, summary.reviews, m);
  }

  /** What the sweep reads in full, if it comes to that from the i-th cleanup on. */
  function FullRead(env: Environment, sv: Server, n: nat, summary: PullRequest, now: Time,
                    cached: Option<PullRequest>, i: nat): Option<PullRequest>
    requires |summary.commits| > 0 && n in sv.pulls && i <= |CLEANUPS|
    decreases |CLEANUPS| - i
  {
    if cached.Some? || i == |CLEANUPS| then cached
    else
      var (asked, known) := Lookups(env, sv, CLEANUPS[i], summary);
      if !known then None
      else if RuledOut(CLEANUPS[i], env.staff, summary, now) then FullRead(env, asked, n, summary, now, None, i + 1)
      else ReadFull(env, asked, n, None).1
  }

  /** The k-th cleanup is to close without a word: its closing comment stands. */
  ghost predicate IsAnnounced(k: nat, staff: set<Login>, summary: PullRequest, full: PullRequest, now: Time)
    requires k < |CLEANUPS| && |summary.commits| > 0
  {
    && Applies(CLEANUPS[k], staff, summary, full, now)
    && BotCommentedAt(full.comments, CloseMarker(CLEANUPS[k]), Clock(CLEANUPS[k], staff, summary, full).value).Some?
  }

  /** No cleanup announces a closing that is announced. */
  lemma {:induction false} NotAnnouncedAgain(k: nat, i: nat, staff: set<Login>, summary: PullRequest,
                                             full: PullRequest, now: Time)
    requires k < |CLEANUPS| && i < |CLEANUPS| && |summary.commits| > 0 && IsAnnounced(k, staff, summary, full, now)
    ensures var wish := Act(CLEANUPS[i], staff, summary, full, now);
            && (wish.Some? && wish.value.comment.Some? ==>
                  wish.value.comment.value.Marked? && wish.value.comment.value.marker != CloseMarker(CLEANUPS[k]))
            && (i == k ==> wish == Some(Step(Close, None)))
  {
    ClosesSilentlyIff(CLEANUPS[k], staff, summary, full, now);
    var wish := Act(CLEANUPS[i], staff, summary, full, now);
    if wish.Some? && wish.value.comment.Some? {
      CommentStep(CLEANUPS[i], staff, summary, full, now);
    }
  }

  lemma {:induction false} ReadClosing(env: Environment, sv: Server, n: nat, cached: Option<PullRequest>, m: Marker)
    requires Lawful(env) && AllLand(env, sv.requests) && n in sv.pulls && |sv.pulls[n].commits| > 0
    ensures var (read, full) := ReadFull(env, sv, n, cached);
            && full.Some? && sv.requests <= read.requests && |read.pulls[n].commits| > 0
            && NoNewClosing(m, sv.pulls[n], read.pulls[n])
  {
    ArrivedNoClosing(env, sv, n, m);
  }

  /** What the i-th cleanup leaves when the closing of the k-th is announced. */
  lemma {:induction false} CleanupClosing(env: Environment, sv: Server, n: nat, summary: PullRequest,
                                          now: Time, cached: Option<PullRequest>, i: nat, k: nat,
                                          full: PullRequest)
    requires Lawful(env) && AllLand(env, sv.requests) && n in sv.pulls && |sv.pulls[n].commits| > 0
    requires |summary.commits| > 0 && i <= k < |CLEANUPS| && IsAnnounced(k, env.staff, summary, full, now)
    requires cached.Some? ==> cached.value == full
    requires cached.None? && !RuledOut(CLEANUPS[i], env.staff, summary, now) ==>
               ReadFull(env, sv, n, None).1 == Some(full)
    ensures var m := CloseMarker(CLEANUPS[k]);
            var (next, read, progress) := AfterCleanup(env, sv, n, summary, now, cached, i, false);
            && !progress.Failed? && (i == k ==> progress.Closed?)
            && sv.requests <= next.requests && |next.pulls[n].commits| > 0
            && NoNewClosing(m, sv.pulls[n], next.pulls[n])
            && (progress.Closed? ==> next.pulls[n].closedAt.Some?)
            && read == if RuledOut(CLEANUPS[i], env.staff, summary, now) then cached else Some(full)
  {
    var m := CloseMarker(CLEANUPS[k]);
    if !RuledOut(CLEANUPS[i], env.staff, summary, now) {
      ReadClosing(env, sv, n, cached, m);
      NotAnnouncedAgain(k, i, env.staff, summary, full, now);
      var read := ReadFull(env, sv, n, cached).0;
      var wish := Act(CLEANUPS[i], env.staff, summary, full, now);
      if wish.Some? {
        StepClosing(env, read, n, wish.value, m);
        NoClosingTwice(m, sv.pulls[n], read.pulls[n], Stepped(env, read, n, wish.value, false).0.pulls[n]);
      }
    }
  }

  lemma {:induction false} SweepClosing(env: Environment, sv: Server, n: nat, summary: PullRequest, now: Time,
                                        cached: Option<PullRequest>, i: nat, k: nat, full: PullRequest)
    requires Lawful(env) && AllLand(env, sv.requests) && n in sv.pulls && |sv.pulls[n].commits| > 0
    requires |summary.commits| > 0 && i <= k < |CLEANUPS| && IsAnnounced(k, env.staff, summary, full, now)
    requires FullRead(env, sv, n, summary, now, cached, i) == Some(full)
    ensures var (swept, ok) := SweptFrom(env, sv, n, summary, now, cached, i, false);
            ok && swept.pulls[n].closedAt.Some? && NoNewClosing(CloseMarker(CLEANUPS[k]), sv.pulls[n], swept.pulls[n])
    decreases k - i
  {
    var m := CloseMarker(CLEANUPS[k]);
    LookupsClosing(env, sv, n, CLEANUPS[i], summary, m);
    var asked := Lookups(env, sv, CLEANUPS[i], summary).0;
    CleanupClosing(env, asked, n, summary, now, cached, i, k, full);
    var (next, read, progress) := AfterCleanup(env, asked, n, summary, now, cached, i, false);
    NoClosingTwice(m, sv.pulls[n], asked.pulls[n], next.pulls[n]);
    if progress.Continue? {
      SweepClosing(env, next, n, summary, now, read, i + 1, k, full);
      NoClosingTwice(m, sv.pulls[n], next.pulls[n],
                     SweptFrom(env, next, n, summary, now, read, i + 1, false).0.pulls[n]);
    }
  }

  /** A closing that was announced and then failed is finished by the next sweep
      whose requests succeed, without announcing it again, whatever else happens
      meanwhile: if the cleanup still applies and its closing comment stands when
      the pull request is read in full. */
  lemma {:induction false} AnnouncedClosingIsFinished(env: Environment, sv: Server, n: nat,
                                                      summary: PullRequest, now: Time, k: nat)
    requires Lawful(env) && AllLand(env, sv.requests) && n in sv.pulls && |sv.pulls[n].commits| > 0
    requires |summary.commits| > 0 && k < |CLEANUPS|
    requires var full := FullRead(env, sv, n, summary, now, None, 0);
             full.Some? && IsAnnounced(k, env.staff, summary, full.value, now)
    ensures var (swept, ok) := Swept(env, sv, n, summary, now, false);
            && ok && swept.pulls[n].closedAt.Some?
            && NoNewClosing(CloseMarker(CLEANUPS[k]), sv.pulls[n], swept.pulls[n])
  {
    SweepClosing(env, sv, n, summary, now, None, 0, k, FullRead(env, sv, n, summary, now, None, 0).value);
  }
}
