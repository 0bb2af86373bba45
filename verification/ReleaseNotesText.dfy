/** What release notes say after the conversion: nothing visible is lost, added or
    moved, and code spans are found where the notes have them. */
module ReleaseNotesText {
  import opened Wrappers
  import opened Texts
  import opened ReleaseNotes

  // ---------- code spans ----------

  /** The characters, with a backtick for every tag. */
  function Ticked(text: Text): string {
    if text == [] then ""
    else [if text[0].Char? then text[0].c else '`'] + Ticked(text[1..])
  }

  lemma {:induction false} TickedFirst(t: Token, rest: Text)
    ensures Ticked([t] + rest) == [if t.Char? then t.c else '`'] + Ticked(rest)
  {
    assert ([t] + rest)[1..] == rest;
  }

  lemma {:induction false} TickedAppend(a: Text, b: Text)
    ensures Ticked(a + b) == Ticked(a) + Ticked(b)
  {
    if a == [] {
      assert a + b == b;
    } else {
      TickedAppend(a[1..], b);
      assert (a + b)[1..] == a[1..] + b;
    }
  }

  lemma {:induction false} TickedChars(s: string)
    ensures Ticked(Chars(s)) == s
  {
    if s != "" {
      TickedChars(s[1..]);
      TickedFirst(Char(s[0]), Chars(s[1..]));
      assert s == [s[0]] + s[1..];
    }
  }

  lemma {:induction false} TickedSpan(s: string)
    ensures Ticked(Wrapped("code", Chars(s))) == "`" + s + "`"
  {
    TickedAppend([Opening("code")] + Chars(s), [Closing("code")]);
    TickedFirst(Opening("code"), Chars(s));
    TickedFirst(Closing("code"), []);
    TickedChars(s);
  }

  lemma {:induction false} SpanSlices(s: string, i: nat, j: nat)
    requires i < j < |s| && s[i] == '`' && s[j] == '`'
    ensures s[i..] == "`" + s[i + 1..j] + "`" + s[j + 1..]
  {
    assert s[i..] == [s[i]] + s[i + 1..];
    assert s[i + 1..] == s[i + 1..j] + s[j..];
    assert s[j..] == [s[j]] + s[j + 1..];
  }

  lemma {:induction false} SpanTicked(s: string, i: nat, j: nat, rest: Text)
    requires i < j < |s| && s[i] == '`' && s[j] == '`' && Ticked(rest) == s[j + 1..]
    ensures Ticked(Wrapped("code", Chars(s[i + 1..j])) + rest) == s[i..]
  {
    TickedSpan(s[i + 1..j]);
    TickedAppend(Wrapped("code", Chars(s[i + 1..j])), rest);
    SpanSlices(s, i, j);
  }

  lemma {:induction false} CharTicked(s: string, i: nat, rest: Text)
    requires i < |s| && Ticked(rest) == s[i + 1..]
    ensures Ticked([Char(s[i])] + rest) == s[i..]
  {
    TickedFirst(Char(s[i]), rest);
    assert s[i..] == [s[i]] + s[i + 1..];
  }

  /** The tags stand for backticks of the line, and all else is as it was. */
  lemma {:induction false} SpansReadBack(s: string, i: nat)
    requires i <= |s|
    ensures Ticked(Spans(s, i)) == s[i..]
    decreases |s| - i
  {
    if i < |s| {
      var end := SpanEnd(s, i);
      if end.None? {
        SpansReadBack(s, i + 1);
        CharTicked(s, i, Spans(s, i + 1));
      } else {
        SpansReadBack(s, end.value + 1);
        SpanTicked(s, i, end.value, Spans(s, end.value + 1));
      }
    }
  }

  /** Two lone backticks with something between them, on one line and without
      another backtick. */
  ghost predicate SpansFrom(s: string, i: nat, j: nat) {
    && i + 1 < j < |s| && s[i] == '`' && s[j] == '`'
    && (i == 0 || s[i - 1] != '`') && (j + 1 == |s| || s[j + 1] != '`')
    && forall k | i < k < j :: s[k] != '`' && s[k] != '\n'
  }

  lemma {:induction false} NextTickIs(s: string, i: nat)
    requires i <= |s|
    ensures var j := NextTick(s, i);
            (forall k | i <= k < j :: s[k] != '`' && s[k] != '\n') && (j < |s| ==> s[j] == '`' || s[j] == '\n')
    decreases |s| - i
  {
    if !(i == |s| || s[i] == '`' || s[i] == '\n') {
      NextTickIs(s, i + 1);
    }
  }

  lemma {:induction false} SpanEndIff(s: string, i: nat, j: nat)
    requires i < |s|
    ensures SpanEnd(s, i) == Some(j) <==> SpansFrom(s, i, j)
  {
    NextTickIs(s, i + 1);
  }

  ghost predicate HasSpan(s: string, from: nat) {
    exists i: nat, j: nat {:trigger SpansFrom(s, i, j)} :: from <= i && SpansFrom(s, i, j)
  }

  lemma {:induction false} HasSpanStep(s: string, from: nat)
    requires from < |s|
    ensures HasSpan(s, from) <==> SpanEnd(s, from).Some? || HasSpan(s, from + 1)
  {
    if SpanEnd(s, from).Some? {
      SpanEndIff(s, from, SpanEnd(s, from).value);
    }
    if i: nat, j: nat :| from <= i && SpansFrom(s, i, j) {
      SpanEndIff(s, i, j);
    }
  }

  /** A line has a code tag exactly when it has such a pair of backticks. */
  lemma {:induction false} TaggedIff(s: string, from: nat)
    requires from <= |s|
    ensures Opening("code") in Spans(s, from) <==> HasSpan(s, from)
    decreases |s| - from
  {
    if from < |s| {
      HasSpanStep(s, from);
      var end := SpanEnd(s, from);
      if end.Some? {
        assert Spans(s, from)[0] == Opening("code");
      } else {
        TaggedIff(s, from + 1);
        OneMoreChar(s[from], Spans(s, from + 1));
      }
    }
  }

  lemma {:induction false} OneMoreChar(c: char, rest: Text)
    ensures Opening("code") in [Char(c)] + rest <==> Opening("code") in rest
  {
  }

  // ---------- which lines are kept ----------

  function Fences(lines: seq<Line>, n: nat): nat
    requires n <= |lines|
  {
    if n == 0 then 0 else Fences(lines, n - 1) + if lines[n - 1].hasFence then 1 else 0
  }

  lemma {:induction false} OpenIff(lines: seq<Line>, n: nat)
    requires n <= |lines|
    ensures Open(lines, n) <==> Fences(lines, n) % 2 == 1
  {
    if n > 0 {
      OpenIff(lines, n - 1);
    }
  }

  lemma {:induction false} EscapedEmptyIff(s: string)
    ensures Escape(s) == "" <==> s == ""
  {
    if s != "" {
      assert EscapeChar(s[|s| - 1]) != "";
    }
  }

  /** A line is kept unless it is empty, which outside a fence means blank, or one of
      those to be dropped; behind an odd number of fence lines it is in a fence. */
  lemma {:induction false} KeptLine(p: Patterns, lines: seq<string>, n: nat)
    requires n < |lines|
    ensures var before := Kept(p, lines, n);
            var fenced := Fences(before, |before|) % 2 == 1;
            var line := if fenced then p.shorten(lines[n]) else Trim(p.shorten(lines[n]));
            Kept(p, lines, n + 1)
            == before + if line == "" || p.dropped(Escape(line)) then [] else [LineOf(Spans(Escape(line), 0))]
  {
    var before := Kept(p, lines, n);
    OpenIff(before, |before|);
    var line := if Open(before, |before|) then p.shorten(lines[n]) else Trim(p.shorten(lines[n]));
    EscapedEmptyIff(line);
    assert before + [] == before;
  }

  // ---------- what is visible ----------

  /** The characters that are no white space, without the tags. */
  function Visible(text: Text): string {
    if text == [] then ""
    else VisibleOne(text[0]) + Visible(text[1..])
  }

  function VisibleOne(t: Token): string {
    if t.Char? && !IsSpace(t.c) then [t.c] else ""
  }

  lemma {:induction false} VisibleFirst(t: Token, rest: Text)
    ensures Visible([t] + rest) == VisibleOne(t) + Visible(rest)
  {
    assert ([t] + rest)[1..] == rest;
  }

  lemma {:induction false} VisibleAppend(a: Text, b: Text)
    ensures Visible(a + b) == Visible(a) + Visible(b)
  {
    if a == [] {
      assert a + b == b;
    } else {
      VisibleAppend(a[1..], b);
      VisibleMore(a[0], a[1..], b);
      assert a == [a[0]] + a[1..];
    }
  }

  lemma {:induction false} VisibleMore(first: Token, rest: Text, b: Text)
    requires Visible(rest + b) == Visible(rest) + Visible(b)
    ensures Visible([first] + rest + b) == Visible([first] + rest) + Visible(b)
  {
    Prepend(first, rest, b);
    VisibleFirst(first, rest + b);
    ReleaseNotes.Join(VisibleOne(first), Visible(rest), Visible(b));
    VisibleFirst(first, rest);
  }

  ghost predicate IsBlank(s: string) {
    forall i | 0 <= i < |s| :: IsSpace(s[i])
  }

  lemma {:induction false} BlankIsInvisible(s: string)
    requires IsBlank(s)
    ensures Visible(Chars(s)) == ""
  {
    if s != "" {
      BlankIsInvisible(s[1..]);
      assert Chars(s)[0] == Char(s[0]) && Chars(s)[1..] == Chars(s[1..]);
    }
  }

  lemma {:induction false} TagIsInvisible(t: Token)
    requires !t.Char?
    ensures Visible([t]) == ""
  {
    assert [t][1..] == [];
  }

  lemma {:induction false} WrappedVisible(tag: string, text: Text)
    ensures Visible(Wrapped(tag, text)) == Visible(text)
  {
    VisibleAppend([Opening(tag)] + text, [Closing(tag)]);
    VisibleAppend([Opening(tag)], text);
    TagIsInvisible(Opening(tag));
    TagIsInvisible(Closing(tag));
  }

  /** Text between blanks. */
  lemma {:induction false} BetweenBlanks(before: string, text: Text, after: string)
    requires IsBlank(before) && IsBlank(after)
    ensures Visible(Chars(before) + text + Chars(after)) == Visible(text)
  {
    VisibleAppend(Chars(before) + text, Chars(after));
    VisibleAppend(Chars(before), text);
    BlankIsInvisible(before);
    BlankIsInvisible(after);
  }

  lemma {:induction false} SkippedIsInvisible(text: Text)
    ensures Visible(SkipSpaces(text)) == Visible(text)
  {
    if text != [] && text[0].Char? && IsSpace(text[0].c) {
      SkippedIsInvisible(text[1..]);
    }
  }

  /** What a piece shows. */
  function Shown(p: Piece): string {
    match p
    case OpenList => ""
    case CloseList => ""
    case Item(text) => Visible(text)
    case CodeItem(text) => Visible(text)
    case Paragraph(text) => Visible(text)
  }

  lemma {:induction false} PieceShows(p: Piece)
    ensures Visible(TokensOf(p)) == Shown(p)
  {
    assert IsBlank("    ") && IsBlank("\n") && IsBlank("");
    match p
    case OpenList =>
      VisibleAppend([Opening("ul")], Chars("\n"));
      TagIsInvisible(Opening("ul"));
      BlankIsInvisible("\n");
    case CloseList =>
      VisibleAppend([Closing("ul")], Chars("\n"));
      TagIsInvisible(Closing("ul"));
      BlankIsInvisible("\n");
    case Item(text) =>
      BetweenBlanks("    ", Wrapped("li", text), "\n");
      WrappedVisible("li", text);
    case CodeItem(text) =>
      BetweenBlanks("    ", Wrapped("li", Wrapped("code", Chars("    ") + text)), "\n");
      WrappedVisible("li", Wrapped("code", Chars("    ") + text));
      WrappedVisible("code", Chars("    ") + text);
      VisibleAppend(Chars("    "), text);
      BlankIsInvisible("    ");
    case Paragraph(text) =>
      VisibleAppend(Wrapped("p", text), Chars("\n"));
      WrappedVisible("p", text);
      BlankIsInvisible("\n");
  }

  function AllShown(ps: seq<Piece>): string {
    if ps == [] then "" else AllShown(ps[..|ps| - 1]) + Shown(ps[|ps| - 1])
  }

  lemma {:induction false} PiecesShow(ps: seq<Piece>)
    ensures Visible(Tokens(ps)) == AllShown(ps)
  {
    if ps != [] {
      PiecesShow(ps[..|ps| - 1]);
      VisibleAppend(Tokens(ps[..|ps| - 1]), TokensOf(ps[|ps| - 1]));
      PieceShows(ps[|ps| - 1]);
    }
  }

  lemma {:induction false} EmitShows(ps: seq<Piece>, p: Piece, when: bool)
    ensures AllShown(Emit(ps, p, when)) == AllShown(ps) + if when then Shown(p) else ""
  {
    if when {
      assert (ps + [p])[..|ps|] == ps;
    }
  }

  lemma {:induction false} ListShowsNothing(ps: seq<Piece>, p: Piece, when: bool)
    requires p.OpenList? || p.CloseList?
    ensures AllShown(Emit(ps, p, when)) == AllShown(ps)
  {
    EmitShows(ps, p, when);
    assert AllShown(ps) + "" == AllShown(ps);
  }

  /** What the notes show in a line: all of it, but for the bullet of an item. */
  function LineShows(line: Line): string {
    if line.isItem && line.text != [] then Visible(line.text[1..]) else Visible(line.text)
  }

  function LinesShow(lines: seq<Line>, n: nat): string
    requires n <= |lines|
  {
    if n == 0 then "" else LinesShow(lines, n - 1) + LineShows(lines[n - 1])
  }

  lemma {:induction false} ContentsShow(line: Line, fenced: bool)
    ensures Shown(Contents(line, fenced)) == LineShows(line)
  {
    if line.isItem && line.text != [] {
      SkippedIsInvisible(line.text[1..]);
    }
  }

  lemma {:induction false} StepShows(s: State, line: Line, t: State)
    requires t == Step(s, line)
    ensures AllShown(t.pieces) == AllShown(s.pieces) + LineShows(line)
  {
    var item, fence := line.isItem, line.hasFence;
    var inFence := fence != s.inFence;
    var closed := Emit(s.pieces, CloseList, s.inList && !item);
    var started := Emit(closed, OpenList, (!s.inFence && fence) || (!s.inList && item));
    var filled := Emit(started, Contents(line, inFence || fence), true);
    ListShowsNothing(s.pieces, CloseList, s.inList && !item);
    ListShowsNothing(closed, OpenList, (!s.inFence && fence) || (!s.inList && item));
    EmitShows(started, Contents(line, inFence || fence), true);
    ListShowsNothing(filled, CloseList, !inFence && fence);
    ContentsShow(line, inFence || fence);
  }

  lemma {:induction false} AfterShows(lines: seq<Line>, n: nat, t: State)
    requires n <= |lines| && t == After(lines, n)
    ensures AllShown(t.pieces) == LinesShow(lines, n)
  {
    if n > 0 {
      var s := After(lines, n - 1);
      AfterShows(lines, n - 1, s);
      StepShows(s, lines[n - 1], t);
    }
  }

  /** The description shows exactly what the kept lines show, in their order. */
  lemma {:induction false} NothingLost(lines: seq<Line>)
    ensures Visible(Tokens(Convert(lines))) == LinesShow(lines, |lines|)
  {
    var s := After(lines, |lines|);
    AfterShows(lines, |lines|, s);
    ListShowsNothing(s.pieces, CloseList, s.inFence || s.inList);
    PiecesShow(Convert(lines));
  }
}
