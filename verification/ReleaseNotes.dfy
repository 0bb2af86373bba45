/** Release notes from Markdown to the description markup of the package: lists,
    code fences shown as lists, and paragraphs. The converter goes through the
    lines once and remembers whether a list and a code fence are open, so the
    question is for which notes its tags balance and nest, and that no text of
    the notes becomes a tag. */
module ReleaseNotes {
  import opened Wrappers
  import opened Texts

  // ---------- lines ----------

  /** `html.escape`. */
  function EscapeChar(c: char): string {
    if c == '&' then "&amp;"
    else if c == '<' then "&lt;"
    else if c == '>' then "&gt;"
    else if c == '"' then "&quot;"
    else if c == '\'' then "&#x27;"
    else [c]
  }

  function Escape(s: string): string {
    if s == "" then "" else Escape(s[..|s| - 1]) + EscapeChar(s[|s| - 1])
  }

  /** No tag can begin or end in an escaped line. */
  lemma {:induction false} EscapedHasNoTags(s: string)
    ensures '<' !in Escape(s) && '>' !in Escape(s)
  {
    if s != "" {
      EscapedHasNoTags(s[..|s| - 1]);
      var e := EscapeChar(s[|s| - 1]);
      assert '<' !in e && '>' !in e;
    }
  }

  /** Reading the entities back. */
  function Unescape(s: string): string {
    if s == "" then ""
    else if ['&', 'a', 'm', 'p', ';'] <= s then ['&'] + Unescape(s[5..])
    else if ['&', 'l', 't', ';'] <= s then ['<'] + Unescape(s[4..])
    else if ['&', 'g', 't', ';'] <= s then ['>'] + Unescape(s[4..])
    else if ['&', 'q', 'u', 'o', 't', ';'] <= s then ['"'] + Unescape(s[6..])
    else if ['&', '#', 'x', '2', '7', ';'] <= s then ['\''] + Unescape(s[6..])
    else [s[0]] + Unescape(s[1..])
  }

  lemma {:induction false} EscapeFirst(first: char, rest: string)
    ensures Escape([first] + rest) == EscapeChar(first) + Escape(rest)
  {
    var s := [first] + rest;
    if rest == "" {
      assert s[..0] == "" && s[0] == first;
    } else {
      var init, last := rest[..|rest| - 1], rest[|rest| - 1];
      EscapeFirst(first, init);
      assert s[..|s| - 1] == [first] + init && s[|s| - 1] == last;
      assert EscapeChar(first) + Escape(init) + EscapeChar(last)
          == EscapeChar(first) + (Escape(init) + EscapeChar(last));
    }
  }

  lemma {:induction false} UnescapePlain(c: char, rest: string)
    requires c != '&'
    ensures Unescape([c] + rest) == [c] + Unescape(rest)
  {
    var s := [c] + rest;
    assert s[0] == c && s[1..] == rest;
  }

  lemma {:induction false} UnescapeEntity(c: char, rest: string)
    requires |EscapeChar(c)| > 1
    ensures Unescape(EscapeChar(c) + rest) == [c] + Unescape(rest)
  {
    var e := EscapeChar(c);
    var s := e + rest;
    assert e <= s && s[|e|..] == rest && s[1] == e[1];
    if c == '&' || c == '<' || c == '>' {
    } else {
      assert c == '"' || c == '\'';
    }
  }

  lemma {:induction false} UnescapeFirst(c: char, rest: string)
    ensures Unescape(EscapeChar(c) + rest) == [c] + Unescape(rest)
  {
    if |EscapeChar(c)| > 1 {
      UnescapeEntity(c, rest);
    } else {
      UnescapePlain(c, rest);
    }
  }

  /** Unescaping gives back the text. */
  lemma {:induction false} EscapedReadsBack(s: string)
    ensures Unescape(Escape(s)) == s
  {
    if s != "" {
      assert s == [s[0]] + s[1..];
      EscapeFirst(s[0], s[1..]);
      EscapedReadsBack(s[1..]);
      UnescapeFirst(s[0], Escape(s[1..]));
    }
  }

  // ---------- lines with tags ----------

  /** What a line consists of: its characters, and the tags the converter has put
      in. */
  datatype Token = Char(c: char) | Opening(tag: string) | Closing(tag: string)

  type Text = seq<Token>

  function SpellToken(t: Token): string {
    match t
    case Char(c) => [c]
    case Opening(tag) => "<" + tag + ">"
    case Closing(tag) => "</" + tag + ">"
  }

  function Spell(line: Text): string {
    if line == [] then "" else SpellToken(line[0]) + Spell(line[1..])
  }

  function Chars(s: string): Text {
    if s == "" then [] else [Char(s[0])] + Chars(s[1..])
  }

  lemma {:induction false} SpellFirst(t: Token, rest: Text)
    ensures Spell([t] + rest) == SpellToken(t) + Spell(rest)
  {
    assert ([t] + rest)[1..] == rest;
  }

  lemma {:induction false} Join(a: string, b: string, c: string)
    ensures (a + b) + c == a + (b + c)
  {
  }

  lemma {:induction false} SpellAppend(a: Text, b: Text)
    ensures Spell(a + b) == Spell(a) + Spell(b)
  {
    if a == [] {
      assert a + b == b;
    } else {
      SpellAppend(a[1..], b);
      SpellMore(a[0], a[1..], b);
      assert a == [a[0]] + a[1..];
    }
  }

  lemma {:induction false} SpellMore(first: Token, rest: Text, b: Text)
    requires Spell(rest + b) == Spell(rest) + Spell(b)
    ensures Spell([first] + rest + b) == Spell([first] + rest) + Spell(b)
  {
    Prepend(first, rest, b);
    SpellFirst(first, rest + b);
    Join(SpellToken(first), Spell(rest), Spell(b));
    SpellFirst(first, rest);
  }

  lemma {:induction false} Prepend(first: Token, rest: Text, b: Text)
    ensures [first] + rest + b == [first] + (rest + b)
  {
  }

  lemma {:induction false} SpellChars(s: string)
    ensures Spell(Chars(s)) == s
  {
    if s != "" {
      SpellChars(s[1..]);
      SpellFirst(Char(s[0]), Chars(s[1..]));
      assert s == [s[0]] + s[1..];
    }
  }

  /** The tags a description may hold. */
  predicate IsTag(tag: string) {
    tag in {"ul", "li", "p", "code"}
  }

  /** What the converter may write: its own tags, and characters that cannot begin
      or end one. */
  predicate IsWritten(t: Token) {
    match t
    case Char(c) => c != '<' && c != '>'
    case Opening(tag) => IsTag(tag)
    case Closing(tag) => IsTag(tag)
  }

  predicate AreWritten(line: Text) {
    forall t <- line :: IsWritten(t)
  }

  /** How a reader of the file splits it into characters and tags. */
  function Read(s: string): Text {
    if s == "" then []
    else
      var end := Find(s, ">", 1);
      if s[0] != '<' || end.None? then [Char(s[0])] + Read(s[1..])
      else [TagOf(s[1..end.value])] + Read(s[end.value + 1..])
  }

  function TagOf(s: string): Token {
    if s != "" && s[0] == '/' then Closing(s[1..]) else Opening(s)
  }

  /** A reader finds the tags that were written and no others. */
  lemma {:induction false} ReadWritten(line: Text)
    requires AreWritten(line)
    ensures Read(Spell(line)) == line
  {
    if line != [] {
      ReadWritten(line[1..]);
      ReadToken(line[0], Spell(line[1..]));
      assert line == [line[0]] + line[1..];
    }
  }

  lemma {:induction false} ReadToken(t: Token, rest: string)
    requires IsWritten(t)
    ensures Read(SpellToken(t) + rest) == [t] + Read(rest)
  {
    match t
    case Char(c) =>
      assert ([c] + rest)[1..] == rest;
    case Opening(tag) =>
      ReadTag(tag, rest);
    case Closing(tag) =>
      ReadClosing(tag, rest);
  }

  lemma {:induction false} ReadClosing(tag: string, rest: string)
    requires '>' !in tag
    ensures Read("</" + tag + ">" + rest) == [Closing(tag)] + Read(rest)
  {
    ReadTag("/" + tag, rest);
    assert "</" + tag + ">" == "<" + ("/" + tag) + ">";
    assert ("/" + tag)[1..] == tag;
  }

  lemma {:induction false} ReadTag(inner: string, rest: string)
    requires '>' !in inner
    ensures Read("<" + inner + ">" + rest) == [TagOf(inner)] + Read(rest)
  {
    var s := "<" + inner + ">" + rest;
    var n := |inner| + 1;
    FirstAngle(s, inner, n);
    assert s[1..n] == inner && s[n + 1..] == rest;
  }

  lemma {:induction false} FirstAngle(s: string, inner: string, n: nat)
    requires '>' !in inner && n == |inner| + 1 && n < |s| && s[1..n] == inner && s[n] == '>'
    ensures Find(s, ">", 1) == Some(n)
  {
    assert OccursAt(s, ">", n);
    forall k | 1 <= k < n ensures !OccursAt(s, ">", k) {
      assert s[k + 0] == inner[k - 1] != ">"[0];
    }
  }

  // ---------- code spans ----------

  function Wrapped(tag: string, text: Text): Text {
    [Opening(tag)] + text + [Closing(tag)]
  }

  /** The first backtick or line feed from the i-th character on. */
  function NextTick(s: string, i: nat): (j: nat)
    requires i <= |s|
    ensures i <= j <= |s|
    decreases |s| - i
  {
    if i == |s| || s[i] == '`' || s[i] == '\n' then i else NextTick(s, i + 1)
  }

  /** Where the code span ends that begins with the i-th character, if one does:
      it is delimited by lone backticks and not empty. */
  function SpanEnd(s: string, i: nat): (r: Option<nat>)
    requires i < |s|
    ensures r.Some? ==> i + 1 < r.value < |s|
  {
    var j := NextTick(s, i + 1);
    if s[i] == '`' && (i == 0 || s[i - 1] != '`')
       && i + 1 < j < |s| && s[j] == '`' && (j + 1 == |s| || s[j + 1] != '`') then Some(j)
    else None
  }

  /** From the i-th character on, with code spans in tags. */
  function Spans(s: string, i: nat): Text
    requires i <= |s|
    decreases |s| - i
  {
    if i == |s| then []
    else
      var end := SpanEnd(s, i);
      if end.None? then [Char(s[i])] + Spans(s, i + 1)
      else Wrapped("code", Chars(s[i + 1..end.value])) + Spans(s, end.value + 1)
  }

  /** A kept line: its text, whether it is a list item, and whether it holds a
      code fence. */
  datatype Line = Line(text: Text, isItem: bool, hasFence: bool)

  function LineOf(text: Text): Line {
    Line(text, OccursAt(Spell(text), "-", 0), Find(Spell(text), "```", 0).Some?)
  }

  /** An odd number of fence lines is before the n-th line. */
  predicate Open(lines: seq<Line>, n: nat)
    requires n <= |lines|
  {
    n > 0 && (Open(lines, n - 1) != lines[n - 1].hasFence)
  }

  /** The regular expressions: issue links made short, and lines that are dropped
      for the link in them. */
  datatype Patterns = Patterns(shorten: string -> string, dropped: string -> bool)

  /** Outside a fence, lines are trimmed. */
  function Clean(p: Patterns, line: string, fenced: bool): string {
    var short := p.shorten(line);
    Escape(if fenced then short else Trim(short))
  }

  /** A line is kept unless nothing is left of it, or it is dropped. */
  function Keep(p: Patterns, kept: seq<Line>, raw: string): seq<Line> {
    var line := Clean(p, raw, Open(kept, |kept|));
    if line == "" || p.dropped(line) then kept else kept + [LineOf(Spans(line, 0))]
  }

  /** What the first `n` lines contribute. */
  function Kept(p: Patterns, lines: seq<string>, n: nat): seq<Line>
    requires n <= |lines|
  {
    if n == 0 then [] else Keep(p, Kept(p, lines, n - 1), lines[n - 1])
  }

  // ---------- conversion ----------

  datatype Piece = OpenList | CloseList | Item(text: Text) | CodeItem(text: Text) | Paragraph(text: Text)

  datatype State = State(pieces: seq<Piece>, inFence: bool, inList: bool)

  /** The piece as it is written. */
  function TokensOf(p: Piece): Text {
    match p
    case OpenList => [Opening("ul")] + Chars("\n")
    case CloseList => [Closing("ul")] + Chars("\n")
    case Item(text) => Chars("    ") + Wrapped("li", text) + Chars("\n")
    case CodeItem(text) => Chars("    ") + Wrapped("li", Wrapped("code", Chars("    ") + text)) + Chars("\n")
    case Paragraph(text) => Wrapped("p", text) + Chars("\n")
  }

  function Tokens(ps: seq<Piece>): Text {
    if ps == [] then [] else Tokens(ps[..|ps| - 1]) + TokensOf(ps[|ps| - 1])
  }

  /** `re.sub(r"^-\s*", "", line)`. */
  function WithoutBullet(line: string): string
    requires line != ""
  {
    TrimLeft(line[1..])
  }

  function SkipSpaces(text: Text): Text {
    if text != [] && text[0].Char? && IsSpace(text[0].c) then SkipSpaces(text[1..]) else text
  }

  /** An item loses its bullet. */
  function Contents(line: Line, fenced: bool): Piece {
    if line.isItem then Item(if line.text != [] then SkipSpaces(line.text[1..]) else [])
    else if fenced then CodeItem(line.text)
    else Paragraph(line.text)
  }

  function Emit(ps: seq<Piece>, p: Piece, when: bool): seq<Piece> {
    if when then ps + [p] else ps
  }

  function Step(s: State, line: Line): State {
    var item, fence := line.isItem, line.hasFence;
    var inFence := fence != s.inFence;
    var closed := Emit(s.pieces, CloseList, s.inList && !item);
    var started := Emit(closed, OpenList, (!s.inFence && fence) || (!s.inList && item));
    var filled := Emit(started, Contents(line, inFence || fence), true);
    State(Emit(filled, CloseList, !inFence && fence), inFence, item)
  }

  function After(lines: seq<Line>, n: nat): State
    requires n <= |lines|
  {
    if n == 0 then State([], false, false) else Step(After(lines, n - 1), lines[n - 1])
  }

  function Convert(lines: seq<Line>): seq<Piece> {
    var s := After(lines, |lines|);
    Emit(s.pieces, CloseList, s.inFence || s.inList)
  }

  /** The file, as far as it is written. */
  function Written(ps: seq<Piece>): string {
    Spell(Tokens(ps))
  }

  /** The loop's variables after the kept lines. */
  ghost predicate InStep(kept: seq<Line>, formatted: string, inFence: bool, inList: bool) {
    var s := After(kept, |kept|);
    && formatted == Written(s.pieces) && inFence == s.inFence && inList == s.inList
    && inFence == Open(kept, |kept|)
  }

  /** `convert_body`: the loop of the script over the lines of a body. */
  method ConvertBody(p: Patterns, lines: seq<string>) returns (formatted: string)
    ensures formatted == Written(Convert(Kept(p, lines, |lines|)))
  {
    formatted := "";
    var inFence, inList := false, false;
    ghost var kept: seq<Line> := [];
    for n := 0 to |lines|
      invariant kept == Kept(p, lines, n) && InStep(kept, formatted, inFence, inList)
    {
      formatted, inFence, inList, kept := ConvertLine(p, lines[n], formatted, inFence, inList, kept);
    }
    SpellLists();
    MoreWritten(After(kept, |kept|).pieces, CloseList, inFence || inList);
    if inFence || inList {
      formatted := formatted + "</ul>\n";
    }
  }

  method ConvertLine(p: Patterns, raw: string, before: string, wasInFence: bool, wasInList: bool,
                     ghost kept: seq<Line>)
    returns (formatted: string, inFence: bool, inList: bool, ghost more: seq<Line>)
    requires InStep(kept, before, wasInFence, wasInList)
    ensures more == Keep(p, kept, raw) && InStep(more, formatted, inFence, inList)
  {
    var line := Clean(p, raw, wasInFence);
    if line == "" || p.dropped(line) {
      return before, wasInFence, wasInList, kept;
    }
    var text := Spans(line, 0);
    var l := LineOf(text);
    AfterAppend(kept, l);
    more := kept + [l];
    if l.isItem {
      ItemStarts(text);
    }
    var content := FormatLine(Spell(text), l, l.isItem, wasInFence || l.hasFence);
    formatted, inFence, inList := EmitLine(content, l, After(kept, |kept|), before, wasInFence, wasInList);
  }

  /** What a line adds, `content` being the line in its tags. */
  method EmitLine(content: string, line: Line, ghost s: State, before: string, wasInFence: bool, wasInList: bool)
    returns (formatted: string, inFence: bool, inList: bool)
    requires before == Written(s.pieces) && wasInFence == s.inFence && wasInList == s.inList
    requires content + "\n" == Spell(TokensOf(Contents(line, wasInFence || line.hasFence)))
    ensures var t := Step(s, line);
            formatted == Written(t.pieces) && inFence == t.inFence && inList == t.inList
  {
    SpellLists();
    formatted, inFence, inList := before, wasInFence, wasInList;
    var item, fence := line.isItem, line.hasFence;
    ghost var ps := s.pieces;
    MoreWritten(ps, CloseList, inList && !item);
    ps := Emit(ps, CloseList, inList && !item);
    if inList && !item {
      formatted := formatted + "</ul>\n";
    }
    MoreWritten(ps, OpenList, (!inFence && fence) || (!inList && item));
    ps := Emit(ps, OpenList, (!inFence && fence) || (!inList && item));
    if (!inFence && fence) || (!inList && item) {
      formatted := formatted + "<ul>\n";
    }
    inList := item;
    inFence := fence != inFence;
    MoreWritten(ps, Contents(line, inFence || fence), true);
    ps := Emit(ps, Contents(line, inFence || fence), true);
    formatted := formatted + (content + "\n");
    MoreWritten(ps, CloseList, !inFence && fence);
    if !inFence && fence {
      formatted := formatted + "</ul>\n";
    }
  }

  method FormatLine(text: string, ghost line: Line, item: bool, fenced: bool) returns (content: string)
    requires text == Spell(line.text) && item == line.isItem && (item ==> StartsWithDash(line.text))
    ensures content + "\n" == Spell(TokensOf(Contents(line, fenced)))
  {
    if item {
      SpellItem(line.text);
      SpellListItem(SkipSpaces(line.text[1..]));
      content := "    <li>" + WithoutBullet(text) + "</li>";
    } else if fenced {
      SpellCodeItem(line.text);
      content := "    <li><code>    " + text + "</code></li>";
    } else {
      SpellParagraph(line.text);
      content := "<p>" + text + "</p>";
    }
  }

  lemma {:induction false} SpellWrapped(tag: string, text: Text, open: string, close: string)
    requires open == SpellToken(Opening(tag)) && close == SpellToken(Closing(tag))
    ensures Spell(Wrapped(tag, text)) == open + Spell(text) + close
  {
    SpellAppend([Opening(tag)] + text, [Closing(tag)]);
    SpellAppend([Opening(tag)], text);
    SpellFirst(Opening(tag), []);
    SpellFirst(Closing(tag), []);
  }

  /** A piece ends with a line feed. */
  lemma {:induction false} SpellLine(text: Text, line: string)
    requires Spell(text) == line
    ensures Spell(text + Chars("\n")) == line + "\n"
  {
    SpellAppend(text, Chars("\n"));
    SpellChars("\n");
  }

  lemma {:induction false} SpellParagraph(text: Text)
    ensures Spell(TokensOf(Paragraph(text))) == "<p>" + Spell(text) + "</p>" + "\n"
  {
    SpellWrapped("p", text, "<p>", "</p>");
    SpellLine(Wrapped("p", text), "<p>" + Spell(text) + "</p>");
  }

  lemma {:induction false} SpellListItem(text: Text)
    ensures Spell(TokensOf(Item(text))) == "    <li>" + Spell(text) + "</li>" + "\n"
  {
    SpellWrapped("li", text, "<li>", "</li>");
    SpellIndented(Wrapped("li", text), "<li>", Spell(text), "</li>", "    <li>");
    SpellLine(Chars("    ") + Wrapped("li", text), "    <li>" + Spell(text) + "</li>");
  }

  lemma {:induction false} SpellIndented(text: Text, open: string, inner: string, close: string, indented: string)
    requires Spell(text) == open + inner + close && indented == "    " + open
    ensures Spell(Chars("    ") + text) == indented + inner + close
  {
    SpellAppend(Chars("    "), text);
    SpellChars("    ");
    Join("    ", open + inner, close);
    Join("    ", open, inner);
  }

  lemma {:induction false} SpellCodeItem(text: Text)
    ensures Spell(TokensOf(CodeItem(text))) == "    <li><code>    " + Spell(text) + "</code></li>" + "\n"
  {
    var indented := Chars("    ") + text;
    SpellAppend(Chars("    "), text);
    SpellChars("    ");
    SpellWrapped("code", indented, "<code>", "</code>");
    SpellCode(Wrapped("code", indented), Spell(text));
  }

  lemma {:induction false} SpellCode(code: Text, t: string)
    requires Spell(code) == "<code>" + ("    " + t) + "</code>"
    ensures Spell(Chars("    ") + Wrapped("li", code) + Chars("\n")) == "    <li><code>    " + t + "</code></li>" + "\n"
  {
    SpellListCode(code, t);
    SpellIndented(Wrapped("li", code), "<li><code>    ", t, "</code></li>", "    <li><code>    ");
    SpellLine(Chars("    ") + Wrapped("li", code), "    <li><code>    " + t + "</code></li>");
  }

  lemma {:induction false} SpellListCode(code: Text, t: string)
    requires Spell(code) == "<code>" + ("    " + t) + "</code>"
    ensures Spell(Wrapped("li", code)) == "<li><code>    " + t + "</code></li>"
  {
    SpellWrapped("li", code, "<li>", "</li>");
    Literals();
    Regroup("<li>", "<code>", "    ", t, "</code>", "</li>");
  }

  lemma {:induction false} Literals()
    ensures "<li>" + "<code>" + "    " == "<li><code>    " && "</code>" + "</li>" == "</code></li>"
  {
  }

  lemma {:induction false} Regroup(a: string, b: string, c: string, t: string, d: string, e: string)
    ensures a + (b + (c + t) + d) + e == (a + b + c) + t + (d + e)
  {
    Join(b, c, t);
    Join(a, b + c + t, d);
    Join(a, b + c, t);
    Join(a, b, c);
    Join(a + b + c + t, d, e);
  }

  lemma {:induction false} SpellLists()
    ensures Spell(TokensOf(OpenList)) == "<ul>\n" && Spell(TokensOf(CloseList)) == "</ul>\n"
  {
    SpellFirst(Opening("ul"), []);
    SpellLine([Opening("ul")], "<ul>");
    SpellFirst(Closing("ul"), []);
    SpellLine([Closing("ul")], "</ul>");
  }

  lemma {:induction false} MoreWritten(ps: seq<Piece>, p: Piece, when: bool)
    ensures Written(Emit(ps, p, when)) == Written(ps) + if when then Spell(TokensOf(p)) else ""
  {
    if when {
      assert (ps + [p])[..|ps|] == ps;
      SpellAppend(Tokens(ps), TokensOf(p));
    }
  }

  predicate StartsWithDash(text: Text) {
    text != [] && text[0] == Char('-')
  }

  /** An item's dash is a character of its own. */
  lemma {:induction false} ItemStarts(text: Text)
    requires LineOf(text).isItem
    ensures StartsWithDash(text)
  {
    assert Spell(text)[0 + 0] == "-"[0];
    assert Spell(text) == SpellToken(text[0]) + Spell(text[1..]);
    assert Spell(text)[0] == SpellToken(text[0])[0];
  }

  lemma {:induction false} SpellItem(text: Text)
    requires StartsWithDash(text)
    ensures Spell(text) != "" && WithoutBullet(Spell(text)) == Spell(SkipSpaces(text[1..]))
  {
    assert Spell(text) == SpellToken(text[0]) + Spell(text[1..]);
    assert Spell(text)[1..] == Spell(text[1..]);
    SpellSkip(text[1..]);
  }

  lemma {:induction false} SpellSkip(line: Text)
    ensures TrimLeft(Spell(line)) == Spell(SkipSpaces(line))
  {
    if line != [] {
      assert Spell(line) == SpellToken(line[0]) + Spell(line[1..]);
      assert Spell(line)[0] == SpellToken(line[0])[0];
      if line[0].Char? {
        assert Spell(line)[1..] == Spell(line[1..]);
        SpellSkip(line[1..]);
      }
    }
  }

  lemma {:induction false} AfterPrefix(a: seq<Line>, b: seq<Line>, n: nat)
    requires n <= |a| && a <= b
    ensures After(a, n) == After(b, n) && Open(a, n) == Open(b, n)
  {
    if n > 0 {
      AfterPrefix(a, b, n - 1);
    }
  }

  lemma {:induction false} AfterAppend(lines: seq<Line>, line: Line)
    ensures After(lines + [line], |lines| + 1) == Step(After(lines, |lines|), line)
    ensures Open(lines + [line], |lines| + 1) == (Open(lines, |lines|) != line.hasFence)
  {
    AfterPrefix(lines, lines + [line], |lines|);
  }

  // ---------- balance ----------

  function Change(p: Piece): int {
    match p
    case OpenList => 1
    case CloseList => -1
    case _ => 0
  }

  /** Lists open before the n-th piece. */
  function Depth(ps: seq<Piece>, n: nat): int
    requires n <= |ps|
  {
    if n == 0 then 0 else Depth(ps, n - 1) + Change(ps[n - 1])
  }

  /** The piece may stand at the depth. */
  predicate Fits(p: Piece, depth: int) {
    match p
    case OpenList => depth == 0
    case CloseList => depth == 1
    case Item(_) => depth == 1
    case CodeItem(_) => depth == 1
    case Paragraph(_) => depth == 0
  }

  /** Of the first `n` pieces: lists are not nested, items stand inside and
      paragraphs outside of them. */
  predicate Nests(ps: seq<Piece>, n: nat)
    requires n <= |ps|
  {
    n > 0 ==> Nests(ps, n - 1) && Fits(ps[n - 1], Depth(ps, n - 1))
  }

  predicate WellFormed(ps: seq<Piece>) {
    Nests(ps, |ps|) && Depth(ps, |ps|) == 0
  }

  lemma {:induction false} SamePrefix(a: seq<Piece>, b: seq<Piece>, n: nat)
    requires n <= |a| && a <= b
    ensures Depth(a, n) == Depth(b, n) && Nests(a, n) == Nests(b, n)
  {
    if n > 0 {
      SamePrefix(a, b, n - 1);
    }
  }

  /** One more piece, or none. */
  lemma {:induction false} OneMore(ps: seq<Piece>, p: Piece, when: bool)
    ensures var more := Emit(ps, p, when);
            && Depth(more, |more|) == Depth(ps, |ps|) + (if when then Change(p) else 0)
            && (Nests(more, |more|) <==> Nests(ps, |ps|) && (when ==> Fits(p, Depth(ps, |ps|))))
  {
    SamePrefix(ps, ps + [p], |ps|);
  }

  // ---------- exactly when the output is well formed ----------

  /** The first `n` lines hold no item with a fence. */
  predicate NoBoth(lines: seq<Line>, n: nat)
    requires n <= |lines|
  {
    forall i | 0 <= i < n :: !(lines[i].isItem && lines[i].hasFence)
  }

  /** No item stands inside an open fence. */
  predicate NoItemFenced(lines: seq<Line>, n: nat)
    requires n <= |lines|
  {
    forall i | 0 <= i < n :: !(lines[i].isItem && Open(lines, i))
  }

  /** What the state is after lines without items that are fences or fenced. */
  lemma {:induction false} PlainLines(lines: seq<Line>, n: nat)
    requires n <= |lines| && NoBoth(lines, n)
    ensures var s := After(lines, n);
            && s.inFence == Open(lines, n) && s.inList == (n > 0 && lines[n - 1].isItem)
            && (Nests(s.pieces, |s.pieces|) <==> NoItemFenced(lines, n))
            && (Nests(s.pieces, |s.pieces|) ==>
                  !(s.inFence && s.inList) && Depth(s.pieces, |s.pieces|) == if s.inFence || s.inList then 1 else 0)
  {
    if n > 0 {
      PlainLines(lines, n - 1);
      StepPieces(After(lines, n - 1), lines[n - 1]);
    }
  }

  /** A step, piece by piece. */
  lemma {:induction false} StepPieces(s: State, line: Line)
    ensures var item, fence := line.isItem, line.hasFence;
            var d0 := Depth(s.pieces, |s.pieces|);
            var closes, opens := s.inList && !item, (!s.inFence && fence) || (!s.inList && item);
            var d1 := d0 - if closes then 1 else 0;
            var d2 := d1 + if opens then 1 else 0;
            var ends := s.inFence && fence;
            var t := Step(s, line);
            && Depth(t.pieces, |t.pieces|) == d2 - (if ends then 1 else 0)
            && (Nests(t.pieces, |t.pieces|) <==>
                  && Nests(s.pieces, |s.pieces|) && (closes ==> d0 == 1) && (opens ==> d1 == 0)
                  && d2 == (if item || fence || s.inFence then 1 else 0) && (ends ==> d2 == 1))
  {
    var item, fence := line.isItem, line.hasFence;
    var inFence, opens := fence != s.inFence, (!s.inFence && fence) || (!s.inList && item);
    var closed := Emit(s.pieces, CloseList, s.inList && !item);
    OneMore(s.pieces, CloseList, s.inList && !item);
    var started := Emit(closed, OpenList, opens);
    OneMore(closed, OpenList, opens);
    var content := Contents(line, inFence || fence);
    OneMore(started, content, true);
    OneMore(Emit(started, content, true), CloseList, !inFence && fence);
  }

  /** Without an item that is also a fence line, the output is well formed exactly
      when no item stands inside an open fence. */
  lemma {:induction false} PlainWellFormedIff(lines: seq<Line>)
    requires NoBoth(lines, |lines|)
    ensures WellFormed(Convert(lines)) <==> NoItemFenced(lines, |lines|)
  {
    PlainLines(lines, |lines|);
    EndPieces(After(lines, |lines|));
  }

  lemma {:induction false} EndPieces(s: State)
    ensures WellFormed(Emit(s.pieces, CloseList, s.inFence || s.inList)) <==>
              Nests(s.pieces, |s.pieces|) && Depth(s.pieces, |s.pieces|) == if s.inFence || s.inList then 1 else 0
  {
    OneMore(s.pieces, CloseList, s.inFence || s.inList);
  }

  /** From an item that is a fence line on, at `j`: only items may follow, those
      without a fence inside one, and the last fence must stay open. */
  predicate OnlyItems(lines: seq<Line>, j: nat, n: nat)
    requires j <= n <= |lines|
  {
    forall i | j <= i < n :: lines[i].isItem && (lines[i].hasFence || Open(lines, i))
  }

  /** The line before `j` neither is an item nor leaves a fence open. */
  predicate Clear(lines: seq<Line>, j: nat)
    requires j <= |lines|
  {
    !Open(lines, j) && (j == 0 || !lines[j - 1].isItem)
  }

  /** What the state is after the n-th line, with such an item at `j`. */
  ghost predicate Mixed(lines: seq<Line>, j: nat, n: nat, s: State)
    requires j < n <= |lines|
  {
    && s.inFence == Open(lines, n) && s.inList == lines[n - 1].isItem
    && (Nests(s.pieces, |s.pieces|) <==> NoItemFenced(lines, j) && Clear(lines, j) && OnlyItems(lines, j, n))
    && (Nests(s.pieces, |s.pieces|) ==> Depth(s.pieces, |s.pieces|) == if s.inFence then 1 else 0)
  }

  lemma {:induction false} MixedFirst(lines: seq<Line>, j: nat)
    requires j < |lines| && NoBoth(lines, j) && lines[j].isItem && lines[j].hasFence
    ensures Mixed(lines, j, j + 1, After(lines, j + 1))
  {
    PlainLines(lines, j);
    StepPieces(After(lines, j), lines[j]);
  }

  lemma {:induction false} MixedNext(lines: seq<Line>, j: nat, n: nat, s: State)
    requires j < n < |lines| && Mixed(lines, j, n, s) && (OnlyItems(lines, j, n) ==> lines[n - 1].isItem)
    ensures Mixed(lines, j, n + 1, Step(s, lines[n]))
  {
    StepPieces(s, lines[n]);
    assert OnlyItems(lines, j, n + 1) <==>
        OnlyItems(lines, j, n) && lines[n].isItem && (lines[n].hasFence || Open(lines, n));
  }

  lemma {:induction false} MixedLines(lines: seq<Line>, j: nat, n: nat)
    requires j < n <= |lines| && NoBoth(lines, j) && lines[j].isItem && lines[j].hasFence
    ensures Mixed(lines, j, n, After(lines, n))
  {
    if n == j + 1 {
      MixedFirst(lines, j);
    } else {
      MixedLines(lines, j, n - 1);
      MixedNext(lines, j, n - 1, After(lines, n - 1));
    }
  }

  /** Where the first item that is a fence line is. */
  function FirstBoth(lines: seq<Line>, n: nat): (j: nat)
    requires n <= |lines|
    ensures j <= n && NoBoth(lines, j)
    ensures j < n ==> lines[j].isItem && lines[j].hasFence
  {
    if n == 0 then 0
    else
      var before := FirstBoth(lines, n - 1);
      if before < n - 1 || (lines[n - 1].isItem && lines[n - 1].hasFence) then before else n
  }

  /** What a body must be like: no item inside an open fence; and after an item
      that is a fence line, which must not follow another item, only such items
      and items inside their fences, the last of which stays open. */
  predicate IsFine(lines: seq<Line>) {
    var j := FirstBoth(lines, |lines|);
    && NoItemFenced(lines, j)
    && (j < |lines| ==> Clear(lines, j) && OnlyItems(lines, j, |lines|) && Open(lines, |lines|))
  }

  /** For every body: the lists of the output balance and do not nest, items stand
      inside and paragraphs outside of them, exactly when the body is fine. */
  lemma {:induction false} WellFormedIff(lines: seq<Line>)
    ensures WellFormed(Convert(lines)) <==> IsFine(lines)
  {
    var j := FirstBoth(lines, |lines|);
    if j == |lines| {
      PlainWellFormedIff(lines);
    } else {
      MixedLines(lines, j, |lines|);
      EndPieces(After(lines, |lines|));
    }
  }

  // ---------- the tags of the file ----------

  /** The tag may stand inside the open ones: lists and paragraphs at the top, items
      in a list, code in text. */
  predicate MayOpen(tag: string, open: seq<string>) {
    if tag == "ul" || tag == "p" then open == []
    else if tag == "li" then open == ["ul"]
    else tag == "code" && InText(open)
  }

  predicate InText(open: seq<string>) {
    open != [] && open[|open| - 1] in {"li", "p", "code"}
  }

  /** The tags open after a token; none, if it may not stand there. */
  function OpenNext(t: Token, open: seq<string>): Option<seq<string>> {
    match t
    case Char(_) => Some(open)
    case Opening(tag) => if MayOpen(tag, open) then Some(open + [tag]) else None
    case Closing(tag) => if open != [] && open[|open| - 1] == tag then Some(open[..|open| - 1]) else None
  }

  function OpenAfter(text: Text, open: seq<string>): Option<seq<string>> {
    if text == [] then Some(open)
    else
      var next := OpenNext(text[0], open);
      if next.None? then None else OpenAfter(text[1..], next.value)
  }

  /** Every tag stands where it may, and is closed. */
  predicate IsMarkup(text: Text) {
    OpenAfter(text, []) == Some([])
  }

  lemma {:induction false} OpenAppend(a: Text, b: Text, open: seq<string>)
    ensures var between := OpenAfter(a, open);
            OpenAfter(a + b, open) == if between.None? then None else OpenAfter(b, between.value)
  {
    if a == [] {
      assert a + b == b;
    } else {
      assert (a + b)[0] == a[0] && (a + b)[1..] == a[1..] + b;
      var next := OpenNext(a[0], open);
      if next.Some? {
        OpenAppend(a[1..], b, next.value);
      }
    }
  }

  lemma {:induction false} CharsOpen(s: string, open: seq<string>)
    ensures OpenAfter(Chars(s), open) == Some(open)
  {
    if s != "" {
      CharsOpen(s[1..], open);
      assert Chars(s)[1..] == Chars(s[1..]);
    }
  }

  predicate NoAngles(s: string) {
    '<' !in s && '>' !in s
  }

  lemma {:induction false} CharsWritten(s: string)
    requires NoAngles(s)
    ensures AreWritten(Chars(s))
  {
    if s != "" {
      assert s == [s[0]] + s[1..];
      CharsWritten(s[1..]);
    }
  }

  /** Text whose tags, if it has any, close one another. */
  ghost predicate Closed(text: Text) {
    AreWritten(text) && forall open | InText(open) :: OpenAfter(text, open) == Some(open)
  }

  lemma {:induction false} ClosedAppend(a: Text, b: Text)
    requires Closed(a) && Closed(b)
    ensures Closed(a + b)
  {
    forall open | InText(open) ensures OpenAfter(a + b, open) == Some(open) {
      OpenAppend(a, b, open);
    }
  }

  lemma {:induction false} WrappedOpen(tag: string, text: Text, open: seq<string>)
    requires IsTag(tag) && tag != "ul" && Closed(text)
    ensures OpenAfter(Wrapped(tag, text), open) == if MayOpen(tag, open) then Some(open) else None
  {
    var inner := open + [tag];
    OpenAppend([Opening(tag)] + text, [Closing(tag)], open);
    OpenAppend([Opening(tag)], text, open);
    TokenOpen(Opening(tag), open);
    if MayOpen(tag, open) {
      assert InText(inner) && inner[..|inner| - 1] == open;
      TokenOpen(Closing(tag), inner);
    }
  }

  lemma {:induction false} TokenOpen(t: Token, open: seq<string>)
    ensures OpenAfter([t], open) == OpenNext(t, open)
  {
    assert [t][1..] == [];
  }

  lemma {:induction false} CharsClosed(s: string)
    requires NoAngles(s)
    ensures Closed(Chars(s))
  {
    CharsWritten(s);
    forall open | InText(open) ensures OpenAfter(Chars(s), open) == Some(open) {
      CharsOpen(s, open);
    }
  }

  lemma {:induction false} CodeClosed(text: Text)
    requires Closed(text)
    ensures Closed(Wrapped("code", text))
  {
    forall open | InText(open) ensures OpenAfter(Wrapped("code", text), open) == Some(open) {
      WrappedOpen("code", text, open);
    }
  }

  /** Code spans put in tags that close, and nothing else. */
  lemma {:induction false} SpansClosed(s: string, i: nat)
    requires i <= |s| && NoAngles(s)
    ensures Closed(Spans(s, i))
    decreases |s| - i
  {
    if i < |s| {
      var end := SpanEnd(s, i);
      if end.None? {
        SpansClosed(s, i + 1);
        CharFirst(s[i], Spans(s, i + 1));
      } else {
        SpansClosed(s, end.value + 1);
        SpanFirst(s[i + 1..end.value], Spans(s, end.value + 1));
      }
    }
  }

  lemma {:induction false} CharFirst(c: char, rest: Text)
    requires c != '<' && c != '>' && Closed(rest)
    ensures Closed([Char(c)] + rest)
  {
    CharsClosed([c]);
    assert Chars([c]) == [Char(c)];
    ClosedAppend([Char(c)], rest);
  }

  lemma {:induction false} SpanFirst(s: string, rest: Text)
    requires NoAngles(s) && Closed(rest)
    ensures Closed(Wrapped("code", Chars(s)) + rest)
  {
    CharsClosed(s);
    CodeClosed(Chars(s));
    ClosedAppend(Wrapped("code", Chars(s)), rest);
  }

  lemma {:induction false} SkipClosed(text: Text)
    requires Closed(text)
    ensures Closed(SkipSpaces(text))
  {
    if text != [] && text[0].Char? && IsSpace(text[0].c) {
      TailClosed(text);
      SkipClosed(text[1..]);
    }
  }

  lemma {:induction false} TailClosed(text: Text)
    requires Closed(text) && text != [] && text[0].Char?
    ensures Closed(text[1..])
  {
    forall open | InText(open) ensures OpenAfter(text[1..], open) == Some(open) {
      assert OpenAfter(text, open) == Some(open);
    }
  }

  // ---------- the tags of the pieces ----------

  ghost predicate PieceClosed(p: Piece) {
    match p
    case OpenList => true
    case CloseList => true
    case Item(text) => Closed(text)
    case CodeItem(text) => Closed(text)
    case Paragraph(text) => Closed(text)
  }

  function List(depth: int): seq<string> {
    if depth == 0 then [] else ["ul"]
  }

  /** A line feed after a piece, and the indentation before it, open nothing. */
  lemma {:induction false} LineOpens(text: Text, open: seq<string>)
    ensures OpenAfter(text + Chars("\n"), open) == OpenAfter(text, open)
    ensures OpenAfter(Chars("    ") + text, open) == OpenAfter(text, open)
  {
    OpenAppend(text, Chars("\n"), open);
    OpenAppend(Chars("    "), text, open);
    CharsOpen("    ", open);
    var after := OpenAfter(text, open);
    if after.Some? {
      CharsOpen("\n", after.value);
    }
  }

  /** The tags of a piece may stand at the depth exactly when the piece may. */
  lemma {:induction false} PieceOpens(p: Piece, depth: int)
    requires PieceClosed(p) && 0 <= depth <= 1
    ensures OpenAfter(TokensOf(p), List(depth)) == if Fits(p, depth) then Some(List(depth + Change(p))) else None
  {
    var open := List(depth);
    match p
    case OpenList =>
      LineOpens([Opening("ul")], open);
      assert [] + ["ul"] == ["ul"];
      TokenOpen(Opening("ul"), open);
    case CloseList =>
      LineOpens([Closing("ul")], open);
      TokenOpen(Closing("ul"), open);
    case Item(text) =>
      ItemOpens(text, open);
    case CodeItem(text) =>
      CharsClosed("    ");
      ClosedAppend(Chars("    "), text);
      CodeClosed(Chars("    ") + text);
      ItemOpens(Wrapped("code", Chars("    ") + text), open);
    case Paragraph(text) =>
      LineOpens(Wrapped("p", text), open);
      WrappedOpen("p", text, open);
  }

  lemma {:induction false} ItemOpens(text: Text, open: seq<string>)
    requires Closed(text)
    ensures OpenAfter(Chars("    ") + Wrapped("li", text) + Chars("\n"), open)
            == if open == ["ul"] then Some(open) else None
  {
    LineOpens(Chars("    ") + Wrapped("li", text), open);
    LineOpens(Wrapped("li", text), open);
    WrappedOpen("li", text, open);
  }

  lemma {:induction false} PiecesOpen(ps: seq<Piece>)
    requires forall p <- ps :: PieceClosed(p)
    ensures var depth := Depth(ps, |ps|);
            && (Nests(ps, |ps|) ==> 0 <= depth <= 1)
            && OpenAfter(Tokens(ps), []) == if Nests(ps, |ps|) then Some(List(depth)) else None
  {
    if ps != [] {
      var before, p := ps[..|ps| - 1], ps[|ps| - 1];
      PiecesOpen(before);
      SamePrefix(before, ps, |before|);
      OpenAppend(Tokens(before), TokensOf(p), []);
      if Nests(before, |before|) {
        PieceOpens(p, Depth(before, |before|));
      }
    }
  }

  lemma {:induction false} PiecesWritten(ps: seq<Piece>)
    requires forall p <- ps :: PieceClosed(p)
    ensures AreWritten(Tokens(ps))
  {
    if ps != [] {
      PiecesWritten(ps[..|ps| - 1]);
      PieceWritten(ps[|ps| - 1]);
    }
  }

  lemma {:induction false} PieceWritten(p: Piece)
    requires PieceClosed(p)
    ensures AreWritten(TokensOf(p))
  {
    CharsWritten("\n");
    CharsWritten("    ");
  }

  /** What the kept lines are like. */
  ghost predicate IsClosed(line: Line) {
    Closed(line.text) && (line.isItem ==> StartsWithDash(line.text))
  }

  ghost predicate AreClosed(lines: seq<Line>) {
    forall line <- lines :: IsClosed(line)
  }

  lemma {:induction false} KeptClosed(p: Patterns, lines: seq<string>, n: nat)
    requires n <= |lines|
    ensures AreClosed(Kept(p, lines, n))
  {
    if n > 0 {
      KeptClosed(p, lines, n - 1);
      KeepClosed(p, Kept(p, lines, n - 1), lines[n - 1]);
    }
  }

  lemma {:induction false} KeepClosed(p: Patterns, kept: seq<Line>, raw: string)
    requires AreClosed(kept)
    ensures AreClosed(Keep(p, kept, raw))
  {
    var line := Clean(p, raw, Open(kept, |kept|));
    EscapedLine(p, raw, Open(kept, |kept|));
    SpanLine(line);
    OneMoreClosed(kept, LineOf(Spans(line, 0)));
  }

  lemma {:induction false} OneMoreClosed(kept: seq<Line>, line: Line)
    requires AreClosed(kept) && IsClosed(line)
    ensures AreClosed(kept + [line])
  {
  }

  lemma {:induction false} SpanLine(line: string)
    requires NoAngles(line)
    ensures IsClosed(LineOf(Spans(line, 0)))
  {
    SpansClosed(line, 0);
    if LineOf(Spans(line, 0)).isItem {
      ItemStarts(Spans(line, 0));
    }
  }

  lemma {:induction false} EscapedLine(p: Patterns, line: string, fenced: bool)
    ensures NoAngles(Clean(p, line, fenced))
  {
    EscapedHasNoTags(if fenced then p.shorten(line) else Trim(p.shorten(line)));
  }

  lemma {:induction false} ContentsClosed(line: Line, fenced: bool)
    requires IsClosed(line)
    ensures PieceClosed(Contents(line, fenced))
  {
    if line.isItem {
      TailClosed(line.text);
      SkipClosed(line.text[1..]);
    }
  }

  lemma {:induction false} AfterClosed(lines: seq<Line>, n: nat)
    requires n <= |lines| && AreClosed(lines)
    ensures forall p <- After(lines, n).pieces :: PieceClosed(p)
  {
    if n > 0 {
      AfterClosed(lines, n - 1);
      ContentsClosed(lines[n - 1], After(lines, n - 1).inFence || lines[n - 1].hasFence);
    }
  }

  /** For every body: a reader of what `ConvertBody` writes finds the converter's
      tags only, no `<` or `>` besides them, and they are well-formed markup
      exactly when the kept lines are fine. */
  lemma {:induction false} MarkupIff(p: Patterns, lines: seq<string>)
    ensures var kept := Kept(p, lines, |lines|);
            var file := Written(Convert(kept));
            && AreWritten(Read(file)) && Spell(Read(file)) == file
            && (IsMarkup(Read(file)) <==> IsFine(kept))
  {
    var kept := Kept(p, lines, |lines|);
    var ps := Convert(kept);
    KeptClosed(p, lines, |lines|);
    AfterClosed(kept, |kept|);
    assert forall p <- ps :: PieceClosed(p);
    PiecesWritten(ps);
    ReadWritten(Tokens(ps));
    PiecesOpen(ps);
    WellFormedIff(kept);
  }

  /** A list item after a code fence that is still open: two lists open, one is
      closed. */
  lemma {:induction false} ItemInFence()
    ensures var kept := Kept(Patterns(s => s, s => false), ["```", "- x"], 2);
            !IsFine(kept) && !IsMarkup(Read(Written(Convert(kept))))
  {
    var p := Patterns(s => s, s => false);
    var raws := ["```", "- x"];
    FenceKept(p, raws[0]);
    var kept := Kept(p, raws, 1);
    assert kept[0].hasFence && !kept[0].isItem && Open(kept, 1);
    ItemKept(p, raws[1], kept);
    assert Kept(p, raws, 2) == kept + [LineOf(Spans("- x", 0))];
    assert Kept(p, raws, 2)[1].isItem && Open(Kept(p, raws, 2), 1);
    MarkupIff(p, raws);
  }

  /** Most characters stand for themselves. */
  lemma {:induction false} NothingEscaped(s: string)
    requires forall c <- s :: EscapeChar(c) == [c]
    ensures Escape(s) == s
  {
    if s != "" {
      var front, c := s[..|s| - 1], s[|s| - 1];
      NothingEscaped(front);
      assert EscapeChar(c) == [c] && s == front + [c];
    }
  }

  lemma {:induction false} FenceKept(p: Patterns, raw: string)
    requires raw == "```" && p.shorten(raw) == raw && !p.dropped(raw)
    ensures Keep(p, [], raw) == [LineOf(Spans("```", 0))]
    ensures LineOf(Spans("```", 0)).hasFence && !LineOf(Spans("```", 0)).isItem
  {
    NothingEscaped("```");
    assert TrimLeft("```") == "```";
    FenceLine();
  }

  lemma {:induction false} FenceLine()
    ensures LineOf(Spans("```", 0)).hasFence && !LineOf(Spans("```", 0)).isItem
  {
    assert SpanEnd("```", 0).None?;
    NoItem(Spans("```", 0));
  }

  lemma {:induction false} NoItem(text: Text)
    requires text != [] && text[0].Char? && text[0].c != '-'
    ensures !LineOf(text).isItem
  {
    assert Spell(text) == SpellToken(text[0]) + Spell(text[1..]);
    assert Spell(text)[0 + 0] != "-"[0];
  }

  lemma {:induction false} ItemKept(p: Patterns, raw: string, kept: seq<Line>)
    requires raw == "- x" && p.shorten(raw) == raw && !p.dropped(raw) && Open(kept, |kept|)
    ensures Keep(p, kept, raw) == kept + [LineOf(Spans("- x", 0))]
    ensures LineOf(Spans("- x", 0)).isItem
  {
    NothingEscaped("- x");
  }
}
