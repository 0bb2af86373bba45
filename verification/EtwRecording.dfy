/** Recording an ETW trace: the editor's session with its dialogs and commands, and
    the elevated child that must release the recorder. The two talk over a socket
    that can fail at every message, and the user can cancel while a dialog is
    open. */
module EtwRecording {
  import opened Wrappers

  type Path = string

  datatype Command = Save(path: Path) | Cancel

  datatype Phase = Recording | ChoosingOutputPath | Stopping

  /** `sent` is history: the commands whose sending succeeded. */
  datatype Session = Session(id: nat, phase: Phase, sent: seq<Command>)

  /** An open save dialog; `session` is history: in which session it was opened. */
  datatype Dialog = Dialog(session: nat)

  datatype Picked = Chosen(path: Path) | Dismissed | DialogFailed

  /** `launched` counts sessions; `crossed` is history: whether a dialog of an
      earlier session has saved a later one. */
  datatype State = State(session: Option<Session>, dialogs: seq<Dialog>, launched: nat, crossed: bool)

  const START := State(None, [], 0, false)

  datatype Event =
    | Launched
    | SaveAction
    | CancelAction(sends: bool)
    | DialogResult(dialog: nat, picked: Picked, sends: bool)
    | Ended

  // ---------- the handlers ----------

  function Prompt(s: State): State {
    if s.session.None? || s.session.value.phase != Recording then s
    else s.(session := Some(s.session.value.(phase := ChoosingOutputPath)),
            dialogs := s.dialogs + [Dialog(s.session.value.id)])
  }

  function SaveTo(s: State, path: Path, sends: bool): State {
    if s.session.None? || s.session.value.phase != ChoosingOutputPath then s
    else if sends then
      s.(session := Some(s.session.value.(phase := Stopping, sent := s.session.value.sent + [Save(path)])))
    else s.(session := Some(s.session.value.(phase := Recording)))
  }

  function Resume(s: State): State {
    if s.session.None? || s.session.value.phase != ChoosingOutputPath then s
    else s.(session := Some(s.session.value.(phase := Recording)))
  }

  function CancelSession(s: State, sends: bool): State {
    if s.session.None? || s.session.value.phase == Stopping then s
    else if sends then
      s.(session := Some(s.session.value.(phase := Stopping, sent := s.session.value.sent + [Cancel])))
    else s.(session := Some(s.session.value.(phase := Recording)))
  }

  predicate Crosses(s: State, d: Dialog) {
    s.session.Some? && s.session.value.phase == ChoosingOutputPath && d.session != s.session.value.id
  }

  /** A dialog closes once. Its result goes to whatever session there is. */
  function Close(s: State, i: nat, picked: Picked, sends: bool): State
    requires i < |s.dialogs|
  {
    var rest := s.(dialogs := s.dialogs[..i] + s.dialogs[i + 1..]);
    match picked
    case Chosen(path) =>
      SaveTo(rest, path, sends).(crossed := s.crossed || (sends && Crosses(s, s.dialogs[i])))
    case Dismissed => Resume(rest)
    case DialogFailed => Resume(rest)
  }

  /** One step; None when the event cannot happen. Launches do not overlap. */
  function Next(s: State, e: Event): Option<State> {
    match e
    case Launched =>
      if s.session.None? then
        Some(s.(session := Some(Session(s.launched, Recording, [])), launched := s.launched + 1))
      else None
    case SaveAction => Some(Prompt(s))
    case CancelAction(sends) => Some(CancelSession(s, sends))
    case DialogResult(i, picked, sends) => if i < |s.dialogs| then Some(Close(s, i, picked, sends)) else None
    case Ended => if s.session.Some? then Some(s.(session := None)) else None
  }

  function Exec(s: State, events: seq<Event>): Option<State>
    decreases |events|
  {
    if events == [] then Some(s)
    else
      var next := Next(s, events[0]);
      if next.None? then None else Exec(next.value, events[1..])
  }

  // ---------- the handlers as they update the session ----------

  class Editor {
    var session: Option<Session>
    var dialogs: seq<Dialog>
    ghost var launched: nat
    ghost var crossed: bool

    ghost function Now(): State
      reads this
    {
      State(session, dialogs, launched, crossed)
    }

    /** A dialog opens exactly when the session is recording; nothing is sent. */
    method PromptForPath()
      modifies this
      ensures Now() == Prompt(old(Now()))
      ensures old(Inv(Now())) ==> Inv(Now())
      ensures Sent() == old(Sent()) && (Choosing() <==> session.Some? && session.value.phase != Stopping)
      ensures dialogs == old(dialogs) + if Choosing() && !old(Choosing()) then [Dialog(session.value.id)] else []
    {
      if session.None? {
        return;
      }
      match session.value.phase
      case Recording =>
        session := Some(session.value.(phase := ChoosingOutputPath));
        dialogs := dialogs + [Dialog(session.value.id)];
      case ChoosingOutputPath => return;
      case Stopping => return;
    }

    function Sent(): seq<Command>
      reads this
    {
      if session.None? then [] else session.value.sent
    }

    predicate Choosing()
      reads this
    {
      session.Some? && session.value.phase == ChoosingOutputPath
    }

    /** The command is sent exactly while a path is being chosen and the send
        succeeds; a failed send lets the user choose again. */
    method SaveRecording(path: Path, sends: bool)
      modifies this
      ensures Now() == SaveTo(old(Now()), path, sends)
      ensures old(Inv(Now())) ==> Inv(Now())
      ensures Sent() == old(Sent()) + if old(Choosing()) && sends then [Save(path)] else []
      ensures !Choosing() && dialogs == old(dialogs)
    {
      if session.None? || session.value.phase != ChoosingOutputPath {
        return;
      }
      if sends {
        session := Some(session.value.(phase := Stopping, sent := session.value.sent + [Save(path)]));
      } else {
        session := Some(session.value.(phase := Recording));
      }
    }

    method ResumeRecording()
      modifies this
      ensures Now() == Resume(old(Now()))
    {
      if session.Some? && session.value.phase == ChoosingOutputPath {
        session := Some(session.value.(phase := Recording));
      }
    }

    /** The command is sent exactly when the send succeeds and no other command
        has ended the session; a dialog that is open stays open. */
    method CancelRecording(sends: bool)
      modifies this
      ensures Now() == CancelSession(old(Now()), sends)
      ensures old(Inv(Now())) ==> Inv(Now())
      ensures Sent()
              == old(Sent()) + if old(session.Some? && session.value.phase != Stopping) && sends then [Cancel] else []
      ensures !Choosing() && dialogs == old(dialogs)
    {
      if session.None? || session.value.phase == Stopping {
        return;
      }
      if sends {
        session := Some(session.value.(phase := Stopping, sent := session.value.sent + [Cancel]));
      } else {
        session := Some(session.value.(phase := Recording));
      }
    }

    /** The dialog is gone and no session is choosing any more; a path that was
        picked is all that can be sent. */
    method DialogClosed(i: nat, picked: Picked, sends: bool)
      requires i < |dialogs|
      modifies this
      ensures Now() == Close(old(Now()), i, picked, sends)
      ensures !Choosing() && |dialogs| == |old(dialogs)| - 1
      ensures Sent() == old(Sent()) + if old(Choosing()) && picked.Chosen? && sends then [Save(picked.path)] else []
    {
      ghost var crosses := sends && picked.Chosen? && Crosses(Now(), dialogs[i]);
      dialogs := dialogs[..i] + dialogs[i + 1..];
      match picked {
        case Chosen(path) => SaveRecording(path, sends);
        case Dismissed => ResumeRecording();
        case DialogFailed => ResumeRecording();
      }
      crossed := crossed || crosses;
    }
  }

  // ---------- every run of the editor ----------

  /** A session is stopping exactly when its one command was sent; while a path is
      being chosen there is a dialog of the session to end that; dialogs belong to
      sessions that were launched. */
  ghost predicate Inv(s: State) {
    && (s.session.Some? ==>
          var session := s.session.value;
          && session.id + 1 == s.launched
          && |session.sent| == (if session.phase == Stopping then 1 else 0)
          && (session.phase == ChoosingOutputPath ==> Dialog(session.id) in s.dialogs))
    && (forall d | d in s.dialogs :: d.session < s.launched)
  }

  lemma {:induction false} RunKeeps(s: State, events: seq<Event>)
    requires Inv(s) && Exec(s, events).Some?
    ensures Inv(Exec(s, events).value)
    decreases |events|
  {
    if events != [] {
      RunKeeps(Next(s, events[0]).value, events[1..]);
    }
  }

  /** In every run at most one command is sent in a session, the session is
      stopping exactly when one was, and choosing never lacks its dialog. */
  lemma {:induction false} AtMostOneCommand(events: seq<Event>)
    requires Exec(START, events).Some? && Exec(START, events).value.session.Some?
    ensures var s := Exec(START, events).value;
            && |s.session.value.sent| <= 1
            && (s.session.value.phase == Stopping <==> |s.session.value.sent| == 1)
            && (s.session.value.phase == ChoosingOutputPath ==> Dialog(s.session.value.id) in s.dialogs)
  {
    RunKeeps(START, events);
  }

  lemma {:induction false} AfterCancelNothing(s: State, events: seq<Event>)
    requires s.session.Some? && s.session.value.phase != Stopping
    requires Exec(s, [CancelAction(true)] + events).Some? && Ended !in events
    ensures Exec(s, [CancelAction(true)] + events).value.session
            == Some(s.session.value.(phase := Stopping, sent := s.session.value.sent + [Cancel]))
  {
    assert ([CancelAction(true)] + events)[1..] == events;
    StoppingStays(CancelSession(s, true), events);
  }

  lemma {:induction false} StoppingStays(s: State, events: seq<Event>)
    requires s.session.Some? && s.session.value.phase == Stopping && Exec(s, events).Some? && Ended !in events
    ensures Exec(s, events).value.session == s.session
    decreases |events|
  {
    if events != [] {
      assert events[0] in events;
      StoppingStays(Next(s, events[0]).value, events[1..]);
    }
  }

  // ---------- whose dialog saves ----------

  /** No session ends while one of its dialogs is open. */
  predicate Tidy(s: State, e: Event) {
    e.Ended? ==> s.dialogs == []
  }

  predicate TidyRun(s: State, events: seq<Event>)
    decreases |events|
  {
    events == []
    || (Tidy(s, events[0]) && (Next(s, events[0]).Some? ==> TidyRun(Next(s, events[0]).value, events[1..])))
  }

  ghost predicate OwnDialogs(s: State) {
    && !s.crossed && (s.session.None? ==> s.dialogs == [])
    && forall d | d in s.dialogs :: s.session.Some? && d.session == s.session.value.id
  }

  lemma {:induction false} TidyKeepsOwn(s: State, events: seq<Event>)
    requires OwnDialogs(s) && TidyRun(s, events) && Exec(s, events).Some?
    ensures OwnDialogs(Exec(s, events).value)
    decreases |events|
  {
    if events != [] {
      TidyKeepsOwn(Next(s, events[0]).value, events[1..]);
    }
  }

  /** When no session ends under an open dialog, every session is saved by one of
      its own dialogs. */
  lemma {:induction false} SavedByOwnDialog(events: seq<Event>)
    requires TidyRun(START, events) && Exec(START, events).Some?
    ensures !Exec(START, events).value.crossed
  {
    TidyKeepsOwn(START, events);
  }

  /** A dialog left open between sessions can save the next one, however tidy that
      one is. */
  lemma {:induction false} LeftOpenCrosses(s: State, path: Path) returns (events: seq<Event>)
    requires Inv(s) && s.session.None? && s.dialogs != []
    ensures TidyRun(s, events) && Exec(s, events).Some? && Exec(s, events).value.crossed
  {
    assert s.dialogs[0] in s.dialogs;
    var s1 := Next(s, Launched).value;
    var s2 := Next(s1, SaveAction).value;
    var last := DialogResult(0, Chosen(path), true);
    assert s2.dialogs[0] == s.dialogs[0];
    events := [Launched, SaveAction, last];
    assert [last][1..] == [] && Exec(s2, [last]).Some? && Exec(s2, [last]).value.crossed && TidyRun(s2, [last]);
    assert events[1..] == [SaveAction, last] && [SaveAction, last][1..] == [last];
    assert Exec(s1, [SaveAction, last]) == Exec(s2, [last]) && TidyRun(s1, [SaveAction, last]);
  }

  /** Between sessions, every tidy continuation saves sessions by their own dialogs
      if and only if no dialog is open. */
  lemma {:induction false} SavedByOwnDialogIff(before: seq<Event>)
    requires Exec(START, before).Some?
    requires Exec(START, before).value.session.None? && !Exec(START, before).value.crossed
    ensures var s := Exec(START, before).value;
            (forall events | TidyRun(s, events) && Exec(s, events).Some? :: !Exec(s, events).value.crossed)
            <==> s.dialogs == []
  {
    RunKeeps(START, before);
    var s := Exec(START, before).value;
    if s.dialogs == [] {
      forall events | TidyRun(s, events) && Exec(s, events).Some? ensures !Exec(s, events).value.crossed {
        TidyKeepsOwn(s, events);
      }
    } else {
      var events := LeftOpenCrosses(s, "new");
    }
  }

  const CROSSING := [Launched, SaveAction, Ended, Launched, SaveAction, DialogResult(0, Chosen("old"), true)]

  /** Otherwise the dialog of an ended session can save the next one. */
  lemma {:induction false} DialogCanCross()
    ensures Exec(START, CROSSING).Some? && Exec(START, CROSSING).value.crossed
    ensures Exec(START, CROSSING).value.session == Some(Session(1, Stopping, [Save("old")]))
  {
    var s1 := Next(START, Launched).value;
    var s2 := Next(s1, SaveAction).value;
    var s3 := Next(s2, Ended).value;
    var s4 := Next(s3, Launched).value;
    var s5 := Next(s4, SaveAction).value;
    assert s5.dialogs == [Dialog(0), Dialog(1)];
    var last := DialogResult(0, Chosen("old"), true);
    assert CROSSING[1..][1..][1..][1..][1..] == [last] && [last][1..] == [];
    var s6 := Next(s5, last).value;
    assert [] + [Save("old")] == [Save("old")];
    assert s6.session == Some(Session(1, Stopping, [Save("old")]));
    assert Exec(s5, [last]) == Some(s6);
    assert CROSSING[1..][1..][1..][1..][0] == SaveAction && Exec(s4, CROSSING[1..][1..][1..][1..]) == Exec(s5, [last]);
    assert CROSSING[1..][1..][1..][0] == Launched && Exec(s3, CROSSING[1..][1..][1..]) == Exec(s5, [last]);
    assert CROSSING[1..][1..][0] == Ended && Exec(s2, CROSSING[1..][1..]) == Exec(s5, [last]);
    assert CROSSING[1..][0] == SaveAction && Exec(s1, CROSSING[1..]) == Exec(s5, [last]);
    assert CROSSING[0] == Launched && Exec(START, CROSSING) == Some(s6);
  }

  // ---------- the child ----------

  datatype Call = CancelLeftover | Start | SaveCall(path: Path) | CancelCall

  /** What fails in one run of the child; `command` is None when none arrives. */
  datatype Fate = Fate(builds: bool, starts: bool, tells: bool, command: Option<Command>, finishes: bool)

  /** The recorder, as the calls leave it. */
  class Recorder {
    var calls: seq<Call>

    constructor ()
      ensures calls == []
    {
      calls := [];
    }

    method Do(call: Call, works: bool) returns (ok: bool)
      modifies this
      ensures calls == old(calls) + [call] && ok == works
    {
      calls := calls + [call];
      ok := works;
    }
  }

  /** The calls of one run, by what fails in it. */
  function CallsOf(f: Fate): seq<Call> {
    if !f.builds then []
    else if !f.starts then [CancelLeftover, Start]
    else if !f.tells || f.command.None? then [CancelLeftover, Start, CancelCall]
    else
      var call := if f.command.value.Cancel? then CancelCall else SaveCall(f.command.value.path);
      [CancelLeftover, Start, call] + if f.finishes then [] else [CancelCall]
  }

  /** The recording runs, and this command arrives. */
  predicate IsTold(f: Fate, command: Command) {
    f.builds && f.starts && f.tells && f.command == Some(command)
  }

  /** What the calls of a run must be: the leftover is cancelled directly before the
      one Start; it saves exactly what it is told to save; and it cancels what has
      started and is not saved, once more where the told cancelling fails. */
  ghost predicate FollowsCommand(calls: seq<Call>, f: Fate) {
    && |calls| == (if !f.builds then 0 else if !f.starts then 2
                   else if f.tells && f.command.Some? && !f.finishes then 4 else 3)
    && (forall i | 0 <= i < |calls| ::
          && (calls[i] == CancelLeftover <==> i == 0)
          && (calls[i] == Start <==> i == 1)
          && (forall path | calls[i] == SaveCall(path) :: i == 2 && IsTold(f, Save(path))))
    && (forall path | IsTold(f, Save(path)) :: calls[2] == SaveCall(path))
  }

  /** The body of the child under its guard: whenever it returns with the guard
      still armed, the recording is cancelled. */
  method RecordTrace(recorder: Recorder, f: Fate) returns (ok: bool)
    requires recorder.calls == []
    modifies recorder
    ensures recorder.calls == CallsOf(f) && FollowsCommand(recorder.calls, f)
    ensures ok <==> f.finishes && exists command :: IsTold(f, command)
  {
    if !f.builds {
      return false;
    }
    var leftover := recorder.Do(CancelLeftover, true);
    var started := recorder.Do(Start, f.starts);
    if !started {
      return false;
    }
    var armed := true;
    ok := false;
    if f.tells && f.command.Some? {
      match f.command.value {
        case Cancel => ok := recorder.Do(CancelCall, f.finishes);
        case Save(path) => ok := recorder.Do(SaveCall(path), f.finishes);
      }
      armed := !ok;
    }
    if armed {
      var cancelled := recorder.Do(CancelCall, true);
    }
    assert f.command.Some? && f.tells ==> IsTold(f, f.command.value);
  }

  predicate Releases(c: Call) {
    c.SaveCall? || c.CancelCall?
  }

  /** A run saves a path exactly when it is told to; one that succeeds in that ends
      with it and cancels nothing, one that succeeds in cancelling has cancelled
      once, and any other run that has started ends with a cancelling. */
  lemma {:induction false} SavesWhatItIsTold(calls: seq<Call>, f: Fate, path: Path)
    requires FollowsCommand(calls, f)
    ensures SaveCall(path) in calls <==> IsTold(f, Save(path))
    ensures IsTold(f, Save(path)) && f.finishes ==> calls[|calls| - 1] == SaveCall(path) && CancelCall !in calls
    ensures IsTold(f, Cancel) && f.finishes ==> calls == [CancelLeftover, Start, CancelCall]
    ensures f.builds && f.starts && (forall p | IsTold(f, Save(p)) :: !f.finishes) ==> calls[|calls| - 1] == CancelCall
    ensures forall i | 0 <= i < |calls| && calls[i] == Start :: i > 0 && calls[i - 1] == CancelLeftover
    ensures forall i | 0 <= i < |calls| && calls[i] == CancelCall :: f.builds && f.starts && i >= 2
  {
    if IsTold(f, Save(path)) {
      assert calls[2] in calls;
    }
    assert f.builds && f.starts ==> calls[|calls| - 1] in calls;
  }

  /** Every run that gets past Start ends with Save or Cancel; it saves exactly on
      the command to save, to the path of the command, and once; and a recording
      that was saved is not cancelled. */
  lemma {:induction false} StartedIsReleased(f: Fate)
    requires f.builds && f.starts
    ensures Start in CallsOf(f) && Releases(CallsOf(f)[|CallsOf(f)| - 1])
    ensures forall i, path | 0 <= i < |CallsOf(f)| && CallsOf(f)[i] == SaveCall(path) ::
              i == 2 && f.command == Some(Save(path)) && (f.finishes <==> |CallsOf(f)| == 3)
    ensures forall path :: SaveCall(path) in CallsOf(f) <==> f.tells && f.command == Some(Save(path))
  {
    var calls := CallsOf(f);
    assert calls[1] == Start && forall i | 0 <= i < |calls| && calls[i].SaveCall? :: i == 2;
    forall path | f.tells && f.command == Some(Save(path)) ensures SaveCall(path) in calls {
      assert calls[2] == SaveCall(path);
    }
  }
}
