/** The stale sweep of the guild board, for an issue with one guild assignee at a
    time. The assignee, the comments and the timeline are read one after the other
    and the write comes after that; the world can move in between. */
module GuildStale {
  import opened Wrappers

  /** In seconds. */
  type Time = int
  type Login = string

  const DAY: Time := 86400
  const CHECK_IN_AFTER_DAYS := 14
  const AUTO_CLEAR_AFTER_DAYS := 7

  datatype Assignment = Assignment(who: Login, at: Time)

  /** `checkIn` says whether the body holds the hidden marker. */
  datatype Comment = Comment(who: Login, checkIn: bool, at: Time)

  datatype Issue = Issue(assignee: Option<Login>, assignments: seq<Assignment>, comments: seq<Comment>)

  // ---------- what the sweep computes ----------

  function Later(a: Option<Time>, b: Time): Option<Time> {
    if a.None? || b > a.value then Some(b) else a
  }

  /** The latest of the first `n` assignments to `who`. */
  function LatestAssignment(log: seq<Assignment>, who: Login, n: nat): (r: Option<Time>)
    requires n <= |log|
    ensures r.None? <==> forall i | 0 <= i < n :: log[i].who != who
    ensures r.Some? ==> forall i | 0 <= i < n && log[i].who == who :: log[i].at <= r.value
    ensures r.Some? ==> exists i | 0 <= i < n :: log[i] == Assignment(who, r.value)
  {
    if n == 0 then None
    else
      var before := LatestAssignment(log, who, n - 1);
      if log[n - 1].who == who then
        assert log[n - 1] == Assignment(who, log[n - 1].at);
        Later(before, log[n - 1].at)
      else before
  }

  /** The latest check-in among the first `n` comments, whoever wrote it. */
  function LatestCheckIn(log: seq<Comment>, n: nat): (r: Option<Time>)
    requires n <= |log|
    ensures r.None? <==> forall i | 0 <= i < n :: !log[i].checkIn
    ensures r.Some? ==> forall i | 0 <= i < n && log[i].checkIn :: log[i].at <= r.value
    ensures r.Some? ==> exists i | 0 <= i < n :: log[i].checkIn && log[i].at == r.value
  {
    if n == 0 then None
    else
      var before := LatestCheckIn(log, n - 1);
      if log[n - 1].checkIn then Later(before, log[n - 1].at) else before
  }

  predicate Speaks(c: Comment, who: Login) {
    !c.checkIn && c.who == who
  }

  /** `since`, or the latest later comment of `who` among the first `n`. */
  function LastActivity(log: seq<Comment>, who: Login, since: Time, n: nat): (r: Time)
    requires n <= |log|
    ensures r >= since && forall i | 0 <= i < n && Speaks(log[i], who) :: log[i].at <= r
    ensures r == since || exists i | 0 <= i < n :: Speaks(log[i], who) && log[i].at == r
  {
    if n == 0 then since
    else
      var before := LastActivity(log, who, since, n - 1);
      if Speaks(log[n - 1], who) && log[n - 1].at > before then log[n - 1].at else before
  }

  /** Full days, as `timedelta.days` counts them. */
  function Days(t: Time): int {
    t / DAY
  }

  datatype Decision = Wait | CheckIn | Clear

  function Decide(now: Time, activity: Time, checkIn: Option<Time>): Decision {
    if checkIn.None? || checkIn.value < activity then
      if Days(now - activity) < CHECK_IN_AFTER_DAYS then Wait else CheckIn
    else if Days(now - checkIn.value) < AUTO_CLEAR_AFTER_DAYS then Wait
    else Clear
  }

  /** The one pass over the comments. */
  method Scan(comments: seq<Comment>, who: Login, assignedAt: Time) returns (activity: Time, checkIn: Option<Time>)
    ensures activity == LastActivity(comments, who, assignedAt, |comments|)
    ensures checkIn == LatestCheckIn(comments, |comments|)
  {
    activity, checkIn := assignedAt, None;
    for i := 0 to |comments|
      invariant activity == LastActivity(comments, who, assignedAt, i)
      invariant checkIn == LatestCheckIn(comments, i)
    {
      var c := comments[i];
      if c.checkIn {
        if checkIn.None? || c.at > checkIn.value {
          checkIn := Some(c.at);
        }
      } else if c.who == who {
        if c.at > activity {
          activity := c.at;
        }
      }
    }
  }

  // ---------- the protocol ----------

  /** What becomes of one write request; it is never sent twice. */
  datatype Outcome = Landed | Lost | LandedButFailed

  /** How much there was at a moment: of the logs, of check-ins, and of time. */
  datatype Mark = Mark(assignments: nat, comments: nat, checkIns: nat, at: Time)

  datatype Sweep = Sweep(now: Time, who: Login, begun: Mark,
                         comments: Option<seq<Comment>>, assignments: Option<seq<Assignment>>)

  /** History: a check-in or a clearing, with what was read for it, from when its
      sweep began to when it landed. */
  datatype Deed = Deed(who: Login, begun: Mark, now: Time, ended: Mark,
                       comments: seq<Comment>, assignments: seq<Assignment>)

  /** `checkIns` and `clearings` are history; `places` says where in the comments
      each check-in is. */
  datatype State = State(issue: Issue, clock: Time, sweep: Option<Sweep>,
                         checkIns: seq<Deed>, places: seq<nat>, clearings: seq<Deed>)

  datatype Event =
    | Tick(to: Time)
    | Assign(who: Login)
    | Unassign
    | Say(who: Login)
    | Begin(now: Time)
    | ReadComments
    | ReadAssignments
    | Write(outcome: Outcome)
    | Stop

  /** What has been read, as far as the sweep needs it. */
  predicate HasRead(sweep: Sweep) {
    && sweep.comments.Some? && sweep.assignments.Some?
    && LatestAssignment(sweep.assignments.value, sweep.who, |sweep.assignments.value|).Some?
  }

  function ActivityOf(comments: seq<Comment>, assignments: seq<Assignment>, who: Login): Time
    requires LatestAssignment(assignments, who, |assignments|).Some?
  {
    LastActivity(comments, who, LatestAssignment(assignments, who, |assignments|).value, |comments|)
  }

  function DecisionOf(sweep: Sweep): Decision
    requires HasRead(sweep)
  {
    Decide(sweep.now, ActivityOf(sweep.comments.value, sweep.assignments.value, sweep.who),
           LatestCheckIn(sweep.comments.value, |sweep.comments.value|))
  }

  function MarkOf(s: State): Mark {
    Mark(|s.issue.assignments|, |s.issue.comments|, |s.checkIns|, s.clock)
  }

  function DeedOf(s: State, sweep: Sweep): Deed
    requires HasRead(sweep)
  {
    Deed(sweep.who, sweep.begun, sweep.now, MarkOf(s), sweep.comments.value, sweep.assignments.value)
  }

  const BOT: Login := "zed-community-bot[bot]"

  function LandCheckIn(s: State, sweep: Sweep): State
    requires HasRead(sweep)
  {
    s.(issue := s.issue.(comments := s.issue.comments + [Comment(BOT, true, s.clock)]),
       checkIns := s.checkIns + [DeedOf(s, sweep)], places := s.places + [|s.issue.comments|])
  }

  /** Removes the assignee that was read, if that is still the assignee. */
  function LandClearing(s: State, sweep: Sweep): State
    requires HasRead(sweep)
  {
    s.(issue := s.issue.(assignee := if s.issue.assignee == Some(sweep.who) then None else s.issue.assignee),
       clearings := s.clearings + [DeedOf(s, sweep)])
  }

  /** One step; None when the event cannot happen in this state. A sweep may stop
      at any point: on a hold label, an open pull request or an error. */
  function Next(s: State, e: Event): Option<State> {
    match e
    case Tick(to) => if to >= s.clock then Some(s.(clock := to)) else None
    case Assign(who) =>
      Some(s.(issue := s.issue.(assignee := Some(who),
                                assignments := s.issue.assignments + [Assignment(who, s.clock)])))
    case Unassign => Some(s.(issue := s.issue.(assignee := None)))
    case Say(who) => Some(s.(issue := s.issue.(comments := s.issue.comments + [Comment(who, false, s.clock)])))
    case Begin(now) =>
      if s.sweep.None? && s.issue.assignee.Some? && now <= s.clock then
        Some(s.(sweep := Some(Sweep(now, s.issue.assignee.value, MarkOf(s), None, None))))
      else None
    case ReadComments =>
      if s.sweep.Some? && s.sweep.value.comments.None? then
        Some(s.(sweep := Some(s.sweep.value.(comments := Some(s.issue.comments)))))
      else None
    case ReadAssignments =>
      if s.sweep.Some? && s.sweep.value.comments.Some? && s.sweep.value.assignments.None? then
        Some(s.(sweep := Some(s.sweep.value.(assignments := Some(s.issue.assignments)))))
      else None
    case Write(outcome) =>
      if s.sweep.Some? && HasRead(s.sweep.value) && !DecisionOf(s.sweep.value).Wait? then
        var written :=
          if outcome.Lost? then s
          else if DecisionOf(s.sweep.value).CheckIn? then LandCheckIn(s, s.sweep.value)
          else LandClearing(s, s.sweep.value);
        Some(written.(sweep := None))
      else None
    case Stop => if s.sweep.Some? then Some(s.(sweep := None)) else None
  }

  function Exec(s: State, events: seq<Event>): Option<State>
    decreases |events|
  {
    if events == [] then Some(s)
    else
      var next := Next(s, events[0]);
      if next.None? then None else Exec(next.value, events[1..])
  }

  function Fresh(clock: Time): State {
    State(Issue(None, [], []), clock, None, [], [], [])
  }
}
