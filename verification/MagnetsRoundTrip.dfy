/** Parsing the printed tracking issue recovers every magnet, once, with its count and
    all of its areas, whatever the order in which they were printed. */
module MagnetsRoundTrip {
  import opened Wrappers
  import opened Texts
  import opened Magnets

  // ---------- one issue line ----------

  function Url(number: nat): string {
    HOST + "/" + OWNER + "/" + REPO + "/issues/" + Dec(number)
  }

  /** No slash is followed by the first letter of "issues". */
  predicate NoSlashI(s: string) {
    forall k | 0 <= k < |s| - 1 :: !(s[k] == '/' && s[k + 1] == 'i')
  }

  /** The line in pieces: bullet, count, words, address, number. */
  function Bullet(): string { "-   " }

  function DupesWord(): string { " dupes] " }

  function Address(): string { HOST + "/" + OWNER + "/" + REPO }

  function Tail(number: nat): string {
    DupesWord() + Address() + "/issues/" + Dec(number)
  }

  function Front(count: nat): string {
    Bullet() + "[" + Pad2(Dec(count)) + DupesWord() + Address()
  }

  lemma {:induction false} LineByCount(info: Info)
    requires info.url == Url(info.number)
    ensures IssueLine(info) == Bullet() + "[" + (Pad2(Dec(info.count)) + Tail(info.number))
  {
  }

  lemma {:induction false} LineByNumber(info: Info)
    requires info.url == Url(info.number)
    ensures IssueLine(info) == Front(info.count) + "/issues/" + Dec(info.number)
  {
  }

  lemma {:induction false} PadPlain(n: nat, c: char)
    requires !IsDigit(c) && c != ' '
    ensures c !in Pad2(Dec(n))
  {
  }

  lemma {:induction false} OneChar(s: string, c: char)
    requires c !in s
    ensures forall k | 0 <= k :: !OccursAt(s, [c], k)
  {
    forall k | 0 <= k ensures !OccursAt(s, [c], k) {
      if k + 1 <= |s| {
        assert s[k + 0] in s && [c][0] == c;
      }
    }
  }

  lemma {:induction false} BracketPiece(rest: string)
    requires '[' !in rest
    ensures SecondPiece(Bullet() + "[" + rest, "[") == Some(rest)
  {
    OneChar(rest, '[');
    var line := Bullet() + "[" + rest;
    forall k | 0 <= k < |Bullet()| ensures !OccursAt(line, "[", k) {
      assert line[k + 0] == Bullet()[k] && Bullet()[k] != '[' && "["[0] == '[';
    }
    PieceIs(Bullet(), "[", rest);
  }

  lemma {:induction false} PaddedToken(count: nat, tail: string)
    requires tail != "" && tail[0] == ' '
    ensures FirstToken(Pad2(Dec(count)) + tail) == Some(Dec(count))
  {
    var digits := Dec(count);
    var spaces := if |digits| < 2 then " " else "";
    assert Pad2(digits) + tail == spaces + digits + tail;
    TokenIs(spaces, digits, tail);
  }

  lemma {:induction false} CountParsed(info: Info)
    requires info.url == Url(info.number)
    ensures SecondPiece(IssueLine(info), "[").Some?
    ensures FirstToken(SecondPiece(IssueLine(info), "[").value) == Some(Dec(info.count))
  {
    var p, tail := Pad2(Dec(info.count)), Tail(info.number);
    LineByCount(info);
    PadPlain(info.count, '[');
    BracketPiece(p + tail);
    PaddedToken(info.count, tail);
  }

  /** The first slash before an "i" is the one before "issues". */
  lemma {:induction false} IssuesPiece(before: string, digits: string)
    requires NoSlashI(before) && AllDigits(digits)
    ensures SecondPiece(before + "/issues/" + digits, "/issues/") == Some(digits)
  {
    var sep := "/issues/";
    var line := before + sep + digits;
    assert sep[0] == '/' && sep[1] == 'i' && |sep| == 8;
    forall k | 0 <= k < |before| ensures !OccursAt(line, sep, k) {
      assert line[k] == before[k];
      assert line[k + 1] == if k + 1 < |before| then before[k + 1] else sep[0];
      assert !(line[k + 0] == sep[0] && line[k + 1] == sep[1]);
    }
    forall k | 0 <= k ensures !OccursAt(digits, sep, k) {
      if k < |digits| {
        assert IsDigit(digits[k + 0]) && digits[k + 0] != sep[0];
      }
    }
    PieceIs(before, sep, digits);
  }

  lemma {:induction false} NumberParsed(info: Info)
    requires info.url == Url(info.number)
    ensures SecondPiece(IssueLine(info), "/issues/") == Some(Dec(info.number))
  {
    LineByNumber(info);
    BeforeNumber(info.count);
    IssuesPiece(Front(info.count), Dec(info.number));
  }

  lemma {:induction false} NumberToken(number: nat)
    ensures FirstToken(Dec(number)) == Some(Dec(number)) && StripParens(Dec(number)) == Dec(number)
  {
    var digits := Dec(number);
    assert "" + digits + "" == digits;
    TokenIs("", digits, "");
    assert IsDigit(digits[|digits| - 1]);
  }

  lemma {:induction false} BeforeNumber(count: nat)
    ensures NoSlashI(Front(count))
  {
    PadPlain(count, '/');
    assert '/' !in Bullet() + "[" && '/' !in DupesWord();
  }

  /** Whatever the numbers, the line parses back, despite the padding. */
  lemma {:induction false} IssueLineParsed(info: Info)
    requires info.url == Url(info.number)
    ensures ParseIssueLine(IssueLine(info)) == Some((info.count, info.number))
    ensures HasIssues(IssueLine(info))
  {
    CountParsed(info);
    NumberParsed(info);
    NumberToken(info.number);
    ParseIntDec(info.count);
    ParseIntDec(info.number);
  }

  lemma {:induction false} IssueLineShape(info: Info)
    requires info.url == Url(info.number)
    ensures StartsWith(IssueLine(info), "-") && !StartsWith(IssueLine(info), "## ") && IsLine(IssueLine(info))
  {
    IssueLineIsLine(info);
    var line := IssueLine(info);
    assert line[0] == '-' && line[0 + 0] == '-';
    assert "-"[0] == '-' && "## "[0] == '#';
  }

  lemma {:induction false} IssueLineIsLine(info: Info)
    requires info.url == Url(info.number)
    ensures IsLine(IssueLine(info))
  {
    LineByNumber(info);
    PadPlain(info.count, '\n');
    assert '\n' !in Bullet() + "[" && '\n' !in DupesWord() && '\n' !in "/issues/";
  }

  // ---------- lines ----------

  lemma {:induction false} ParseAppend(p: Parser, a: seq<string>, b: seq<string>)
    ensures ParseLines(p, a + b) == ParseLines(ParseLines(p, a), b)
  {
    if b == [] {
      assert a + b == a;
    } else {
      ParseAppend(p, a, b[..|b| - 1]);
      assert (a + b)[..|a + b| - 1] == a + b[..|b| - 1];
    }
  }

  /** The lines before the first issue of a section only set its area. */
  lemma {:induction false} HeadParsed(p: Parser, area: string)
    requires IsTrimmed(area)
    ensures ParseLines(p, ["", "## " + area, ""]) == p.(area := area)
  {
    var head := "## " + area;
    assert "## "[0] == '#' && "-"[0] == '-';
    assert forall k | 0 <= k < 3 :: head[0 + k] == "## "[k];
    assert StartsWith(head, "## ") && head[3..] == area;
    assert ["", head, ""] == [""] + [head] + [""];
    ParseAppend(p, [""], [head]);
    ParseAppend(p, [""] + [head], [""]);
  }

  /** Listed infos, noted one after the other. */
  function NoteAll(ms: seq<Magnet>, area: string, infos: seq<Info>): seq<Magnet> {
    if infos == [] then ms
    else
      var last := infos[|infos| - 1];
      Note(NoteAll(ms, area, infos[..|infos| - 1]), last.number, area, last.count)
  }

  lemma {:induction false} IssuesParsed(p: Parser, infos: seq<Info>)
    requires p.area != "" && forall i | 0 <= i < |infos| :: infos[i].url == Url(infos[i].number)
    ensures ParseLines(p, IssueLines(infos)) == p.(magnets := NoteAll(p.magnets, p.area, infos))
  {
    if infos != [] {
      var rest, last := infos[..|infos| - 1], infos[|infos| - 1];
      IssuesParsed(p, rest);
      var lines := IssueLines(infos);
      assert lines[..|lines| - 1] == IssueLines(rest);
      IssueLineParsed(last);
      IssueLineShape(last);
    }
  }

  lemma {:induction false} SectionParsed(p: Parser, area: string, infos: seq<Info>)
    requires IsTrimmed(area) && forall i | 0 <= i < |infos| :: infos[i].url == Url(infos[i].number)
    ensures ParseLines(p, Section(area, infos)) == Parser(NoteAll(p.magnets, area, infos), area)
  {
    ParseAppend(p, ["", "## " + area, ""], IssueLines(infos));
    HeadParsed(p, area);
    IssuesParsed(p.(area := area), infos);
  }

  // ---------- what the parser has noted ----------

  ghost predicate HasNumber(noted: set<Entry>, number: int) {
    exists e :: e in noted && e.info.number == number
  }

  ghost predicate HasArea(noted: set<Entry>, number: int, area: string) {
    exists e :: e in noted && e.info.number == number && e.area == area
  }

  ghost predicate HasCount(noted: set<Entry>, number: int, count: int) {
    exists e :: e in noted && e.info.number == number && e.info.count == count
  }

  ghost predicate KnownNumber(ms: seq<Magnet>, number: int) {
    exists i :: 0 <= i < |ms| && ms[i].number == number
  }

  /** The magnet stands for what was noted of its number. */
  ghost predicate Stands(m: Magnet, noted: set<Entry>) {
    && HasCount(noted, m.number, m.count)
    && forall area :: area in m.areas <==> area != UNLABELED && HasArea(noted, m.number, area)
  }

  /** One magnet for each number that was noted. */
  ghost predicate Represents(ms: seq<Magnet>, noted: set<Entry>) {
    && (forall i, j | 0 <= i < j < |ms| :: ms[i].number != ms[j].number)
    && (forall number :: KnownNumber(ms, number) <==> HasNumber(noted, number))
    && (forall i {:trigger Stands(ms[i], noted)} | 0 <= i < |ms| :: Stands(ms[i], noted))
  }

  lemma {:induction false} StandsForMore(m: Magnet, noted: set<Entry>, e: Entry, more: Magnet)
    requires Stands(m, noted) && m.number == e.info.number
    requires more == m.(areas := m.areas + if e.area == UNLABELED then [] else [e.area])
    ensures Stands(more, noted + {e})
  {
    forall area ensures HasArea(noted + {e}, m.number, area) <==> HasArea(noted, m.number, area) || area == e.area {
      if HasArea(noted, m.number, area) {
        var d :| d in noted && d.info.number == m.number && d.area == area;
        assert d in noted + {e};
      }
      assert e in noted + {e};
    }
    var d :| d in noted && d.info.number == m.number && d.info.count == m.count;
    assert d in noted + {e};
  }

  /** The index of every magnet, before and after noting, is the same. */
  lemma {:induction false} NotedAt(ms: seq<Magnet>, noted: set<Entry>, e: Entry, i: nat)
    requires Represents(ms, noted)
    requires i < |Note(ms, e.info.number, e.area, e.info.count)|
    ensures Stands(Note(ms, e.info.number, e.area, e.info.count)[i], noted + {e})
  {
    var after := Note(ms, e.info.number, e.area, e.info.count);
    if i < |ms| {
      assert Stands(ms[i], noted);
      if ms[i].number == e.info.number {
        StandsForMore(ms[i], noted, e, after[i]);
      }
    } else {
      assert !KnownNumber(ms, e.info.number);
    }
  }

  lemma {:induction false} NoteNumbers(ms: seq<Magnet>, number: int, area: string, count: int)
    requires forall i, j | 0 <= i < j < |ms| :: ms[i].number != ms[j].number
    ensures var after := Note(ms, number, area, count);
            && (forall i, j | 0 <= i < j < |after| :: after[i].number != after[j].number)
            && (forall n :: KnownNumber(after, n) <==> KnownNumber(ms, n) || n == number)
  {
    var after := Note(ms, number, area, count);
    forall n ensures KnownNumber(after, n) <==> KnownNumber(ms, n) || n == number {
      if KnownNumber(ms, n) {
        var i :| 0 <= i < |ms| && ms[i].number == n;
        assert after[i].number == n;
      }
      if n == number && !KnownNumber(ms, n) {
        assert after[|ms|].number == n;
      }
      if KnownNumber(after, n) {
        var i :| 0 <= i < |after| && after[i].number == n;
        assert i < |ms| ==> ms[i].number == n;
      }
    }
  }

  lemma {:induction false} NoteRepresents(ms: seq<Magnet>, noted: set<Entry>, e: Entry)
    requires Represents(ms, noted)
    ensures Represents(Note(ms, e.info.number, e.area, e.info.count), noted + {e})
  {
    var after := Note(ms, e.info.number, e.area, e.info.count);
    NoteNumbers(ms, e.info.number, e.area, e.info.count);
    forall number ensures KnownNumber(after, number) <==> HasNumber(noted + {e}, number) {
    }
    forall i | 0 <= i < |after| ensures Stands(after[i], noted + {e}) {
      NotedAt(ms, noted, e, i);
    }
  }

  ghost function Tagged(area: string, infos: seq<Info>): set<Entry> {
    set info | info in infos :: Entry(area, info)
  }

  lemma {:induction false} NoteAllRepresents(ms: seq<Magnet>, noted: set<Entry>, area: string, infos: seq<Info>)
    requires Represents(ms, noted)
    ensures Represents(NoteAll(ms, area, infos), noted + Tagged(area, infos))
  {
    if infos == [] {
      assert Tagged(area, infos) == {};
      assert noted + {} == noted;
    } else {
      var rest, last := infos[..|infos| - 1], infos[|infos| - 1];
      NoteAllRepresents(ms, noted, area, rest);
      NoteRepresents(NoteAll(ms, area, rest), noted + Tagged(area, rest), Entry(area, last));
      assert infos == rest + [last];
      assert noted + Tagged(area, rest) + {Entry(area, last)} == noted + Tagged(area, infos);
    }
  }

  // ---------- the printed entries ----------

  /** What the sections of the first `k` areas list. */
  ghost function Listed(es: seq<Entry>, areas: seq<string>, k: nat): set<Entry>
    requires k <= |areas|
  {
    if k == 0 then {} else Listed(es, areas, k - 1) + Tagged(areas[k - 1], ByCount(Members(es, areas[k - 1])))
  }

  lemma {:induction false} MembersAre(es: seq<Entry>, area: string, info: Info)
    ensures info in Members(es, area) <==> Entry(area, info) in es
  {
    if es != [] {
      MembersAre(es[..|es| - 1], area, info);
      assert es == es[..|es| - 1] + [es[|es| - 1]];
    }
  }

  lemma {:induction false} AreasAre(es: seq<Entry>, e: Entry)
    requires e in es
    ensures e.area in Areas(es)
  {
    var last := es[|es| - 1];
    assert es == es[..|es| - 1] + [last];
    if e != last {
      AreasAre(es[..|es| - 1], e);
    }
  }

  lemma {:induction false} TaggedMembers(es: seq<Entry>, area: string, e: Entry)
    ensures e in Tagged(area, ByCount(Members(es, area))) <==> e.area == area && e in es
  {
    var infos := Members(es, area);
    SortKeeps(infos, CountOf(), e.info);
    MembersAre(es, area, e.info);
    assert Entry(e.area, e.info) == e;
  }

  lemma {:induction false} ListedAre(es: seq<Entry>, areas: seq<string>, k: nat, e: Entry)
    requires k <= |areas|
    ensures e in Listed(es, areas, k) <==> e in es && e.area in areas[..k]
  {
    if k > 0 {
      ListedAre(es, areas, k - 1, e);
      TaggedMembers(es, areas[k - 1], e);
      assert forall a :: a in areas[..k] <==> a in areas[..k - 1] || a == areas[k - 1];
    }
  }

  lemma {:induction false} AllListed(es: seq<Entry>, e: Entry)
    ensures e in Listed(es, MostCommon(es), |MostCommon(es)|) <==> e in es
  {
    var areas := MostCommon(es);
    ListedAre(es, areas, |areas|, e);
    if e in es {
      AreasAre(es, e);
      SortKeeps(Areas(es), TotalOf(es), e.area);
      var i :| 0 <= i < |areas| && areas[i] == e.area;
    }
  }

  lemma {:induction false} EntriesAre(infos: seq<Info>, e: Entry)
    ensures e in Entries(infos) <==> e.info in infos && e.area in e.info.areas
  {
    if infos != [] {
      var rest, last := infos[..|infos| - 1], infos[|infos| - 1];
      EntriesAre(rest, e);
      assert infos == rest + [last];
      assert e in EntriesOf(last) <==> e.info == last && e.area in last.areas by {
        if e.info == last && e.area in last.areas {
          var i :| 0 <= i < |last.areas| && last.areas[i] == e.area;
          assert EntriesOf(last)[i] == e;
        }
      }
    }
  }

  // ---------- the tracking issue ----------

  /** Distinct issues of this repository, under areas that are trimmed single
      lines, or under the unlabeled heading alone. */
  ghost predicate Printable(infos: seq<Info>) {
    && (forall i, j | 0 <= i < j < |infos| :: infos[i].number != infos[j].number)
    && (forall info | info in infos :: PrintableInfo(info))
  }

  ghost predicate PrintableInfo(info: Info) {
    && info.url == Url(info.number) && info.areas != []
    && (forall area | area in info.areas :: IsTrimmed(area) && IsLine(area))
    && (info.areas == [UNLABELED] || UNLABELED !in info.areas)
  }

  ghost predicate PrintableEntries(es: seq<Entry>) {
    forall e | e in es :: e.info.url == Url(e.info.number) && IsTrimmed(e.area) && IsLine(e.area)
  }

  /** The issues of an area, as they are printed. */
  lemma {:induction false} MembersPrintable(es: seq<Entry>, area: string)
    requires PrintableEntries(es)
    ensures forall i | 0 <= i < |ByCount(Members(es, area))| ::
              ByCount(Members(es, area))[i].url == Url(ByCount(Members(es, area))[i].number)
  {
    var infos := ByCount(Members(es, area));
    forall i | 0 <= i < |infos| ensures infos[i].url == Url(infos[i].number) {
      SortKeeps(Members(es, area), CountOf(), infos[i]);
      MembersAre(es, area, infos[i]);
    }
  }

  lemma {:induction false} AreasInEntries(es: seq<Entry>, area: string)
    requires area in Areas(es)
    ensures exists e :: e in es && e.area == area
  {
    var last := es[|es| - 1];
    assert es == es[..|es| - 1] + [last];
    if area == last.area {
      assert last in es;
    } else {
      AreasInEntries(es[..|es| - 1], area);
      var e :| e in es[..|es| - 1] && e.area == area;
      assert e in es;
    }
  }

  ghost predicate PrintableAreas(areas: seq<string>) {
    forall area | area in areas :: IsTrimmed(area) && IsLine(area)
  }

  lemma {:induction false} AreasPrintable(es: seq<Entry>)
    requires PrintableEntries(es)
    ensures PrintableAreas(MostCommon(es))
  {
    forall area | area in MostCommon(es) ensures IsTrimmed(area) && IsLine(area) {
      SortKeeps(Areas(es), TotalOf(es), area);
      AreasInEntries(es, area);
    }
  }

  lemma {:induction false} SectionIsLines(area: string, infos: seq<Info>)
    requires IsLine(area) && forall i | 0 <= i < |infos| :: infos[i].url == Url(infos[i].number)
    ensures forall l | l in Section(area, infos) :: IsLine(l)
  {
    var section := Section(area, infos);
    forall i | 0 <= i < |section| ensures IsLine(section[i]) {
      if i >= 3 {
        IssueLineShape(infos[i - 3]);
        assert section[i] == IssueLine(infos[i - 3]);
      } else {
        assert '\n' !in "## ";
        assert section[i] == ["", "## " + area, ""][i];
      }
    }
  }

  lemma {:induction false} SectionsAreLines(first: seq<string>, es: seq<Entry>, areas: seq<string>, k: nat)
    requires k <= |areas| && PrintableEntries(es) && PrintableAreas(areas)
    requires first != [] && forall l | l in first :: IsLine(l)
    ensures Sections(first, es, areas, k) != []
    ensures forall l | l in Sections(first, es, areas, k) :: IsLine(l)
  {
    if k > 0 {
      SectionsAreLines(first, es, areas, k - 1);
      MembersPrintable(es, areas[k - 1]);
      SectionIsLines(areas[k - 1], ByCount(Members(es, areas[k - 1])));
    }
  }

  lemma {:induction false} SectionsParsed(first: seq<string>, es: seq<Entry>, areas: seq<string>, k: nat)
    requires k <= |areas| && PrintableEntries(es) && PrintableAreas(areas)
    requires ParseLines(Parser([], ""), first) == Parser([], "")
    ensures Represents(ParseLines(Parser([], ""), Sections(first, es, areas, k)).magnets, Listed(es, areas, k))
  {
    if k > 0 {
      SectionsParsed(first, es, areas, k - 1);
      var before, infos := Sections(first, es, areas, k - 1), ByCount(Members(es, areas[k - 1]));
      MembersPrintable(es, areas[k - 1]);
      ParseAppend(Parser([], ""), before, Section(areas[k - 1], infos));
      var p := ParseLines(Parser([], ""), before);
      SectionParsed(p, areas[k - 1], infos);
      NoteAllRepresents(p.magnets, Listed(es, areas, k - 1), areas[k - 1], infos);
    }
  }

  lemma {:induction false} WordsAreLine(words: seq<string>, n: nat)
    requires n <= |words| && forall i | 0 <= i < |words| :: IsLine(words[i])
    ensures IsLine(Words(words, n))
  {
    if n > 0 {
      WordsAreLine(words, n - 1);
    }
  }

  lemma {:induction false} FirstWord(words: seq<string>, n: nat)
    requires 0 < n <= |words| && words[0] != ""
    ensures Words(words, n) != "" && Words(words, n)[0] == words[0][0]
  {
    if n > 1 {
      FirstWord(words, n - 1);
    } else {
      assert Words(words, 0) == "";
    }
  }

  lemma {:induction false} IntroParsed()
    ensures IsLine(INTRO) && ParseLines(Parser([], ""), [INTRO]) == Parser([], "")
  {
    forall i | 0 <= i < |INTRO_WORDS| ensures IsLine(INTRO_WORDS[i]) {
      assert IsLine("These are ") && IsLine("the issues ") && IsLine("that are ") && IsLine("frequently ");
      assert IsLine("re-reported. ") && IsLine("The list is ") && IsLine("generated ") && IsLine("regularly ");
      assert IsLine("by running ") && IsLine("a script.");
    }
    WordsAreLine(INTRO_WORDS, |INTRO_WORDS|);
    FirstWord(INTRO_WORDS, |INTRO_WORDS|);
    assert INTRO[0] == 'T' && "## "[0] == '#';
    assert INTRO[0 + 0] != "## "[0];
  }

  ghost function Noted(infos: seq<Info>): set<Entry> {
    var es := Entries(infos);
    set e | e in es
  }

  /** What the parser makes of the body, before it sorts. */
  lemma {:induction false} BodyParsed(infos: seq<Info>)
    requires PrintableEntries(Entries(infos))
    ensures Represents(ParseLines(Parser([], ""), Split(Body(infos))).magnets, Noted(infos))
  {
    var es := Entries(infos);
    var areas := MostCommon(es);
    IntroParsed();
    AreasPrintable(es);
    SectionsAreLines([INTRO], es, areas, |areas|);
    SplitJoin(Lines(infos));
    SectionsParsed([INTRO], es, areas, |areas|);
    assert Listed(es, areas, |areas|) == Noted(infos) by {
      forall e ensures e in Listed(es, areas, |areas|) <==> e in es {
        AllListed(es, e);
      }
    }
  }

  lemma {:induction false} EntriesPrintable(infos: seq<Info>)
    requires Printable(infos)
    ensures PrintableEntries(Entries(infos))
  {
    forall e | e in Entries(infos) ensures e.info.url == Url(e.info.number) && IsTrimmed(e.area) && IsLine(e.area) {
      EntriesAre(infos, e);
      assert PrintableInfo(e.info);
    }
  }

  /** The magnet has the number, the count and the areas of the info; none of
      them is the unlabeled heading. */
  ghost predicate IsMagnetOf(m: Magnet, info: Info) {
    && m.number == info.number && m.count == info.count
    && forall area :: area in m.areas <==> area in info.areas && area != UNLABELED
  }

  lemma {:induction false} StandsForInfo(m: Magnet, infos: seq<Info>) returns (info: Info)
    requires Printable(infos) && Stands(m, Noted(infos))
    ensures info in infos && IsMagnetOf(m, info)
  {
    var noted := Noted(infos);
    var e :| e in noted && e.info.number == m.number && e.info.count == m.count;
    EntriesAre(infos, e);
    info := e.info;
    forall area ensures HasArea(noted, m.number, area) <==> area in info.areas {
      if HasArea(noted, m.number, area) {
        var d :| d in noted && d.info.number == m.number && d.area == area;
        EntriesAre(infos, d);
      }
      if area in info.areas {
        EntriesAre(infos, Entry(area, info));
        assert Entry(area, info) in noted;
      }
    }
  }

  /** Sorting the magnets changes their order only. */
  lemma {:induction false} SortedNumbers(ms: seq<Magnet>)
    requires forall i, j | 0 <= i < j < |ms| :: ms[i].number != ms[j].number
    ensures var sorted := SortDesc(ms, DupeCount());
            forall i, j | 0 <= i < j < |sorted| :: sorted[i].number != sorted[j].number
  {
    var sorted := SortDesc(ms, DupeCount());
    SortSorts(ms, DupeCount());
    forall i, j | 0 <= i < j < |sorted| ensures sorted[i].number != sorted[j].number {
      if sorted[i].number == sorted[j].number {
        SortKeeps(ms, DupeCount(), sorted[i]);
        SortKeeps(ms, DupeCount(), sorted[j]);
        assert sorted[i] == sorted[j];
        Twice(sorted, i, j);
        Once(ms, sorted[i]);
      }
    }
  }

  lemma {:induction false} Twice(s: seq<Magnet>, i: nat, j: nat)
    requires i < j < |s| && s[i] == s[j]
    ensures multiset(s)[s[i]] >= 2
  {
    assert s == s[..j] + [s[j]] + s[j + 1..];
    assert s[i] in s[..j];
  }

  lemma {:induction false} Once(ms: seq<Magnet>, m: Magnet)
    requires forall i, j | 0 <= i < j < |ms| :: ms[i].number != ms[j].number
    ensures multiset(ms)[m] <= 1
  {
    if ms != [] {
      Once(ms[..|ms| - 1], m);
      assert ms == ms[..|ms| - 1] + [ms[|ms| - 1]];
    }
  }

  /** Parsing what was printed recovers every magnet once, with its count and its
      areas, sorted by count. */
  lemma {:induction false} MagnetsRecovered(infos: seq<Info>)
    requires Printable(infos)
    ensures var ms := Parse(Body(infos));
            && Descends(ms, DupeCount())
            && (forall i, j | 0 <= i < j < |ms| :: ms[i].number != ms[j].number)
            && (forall m | m in ms :: exists info :: info in infos && IsMagnetOf(m, info))
            && (forall info | info in infos :: exists m :: m in ms && IsMagnetOf(m, info))
  {
    EntriesPrintable(infos);
    BodyParsed(infos);
    var parsed := ParseLines(Parser([], ""), Split(Body(infos))).magnets;
    SortSorts(parsed, DupeCount());
    SortedNumbers(parsed);
    forall m | m in Parse(Body(infos)) ensures exists info :: info in infos && IsMagnetOf(m, info) {
      SortKeeps(parsed, DupeCount(), m);
      MagnetHasInfo(infos, parsed, m);
    }
    forall info | info in infos ensures exists m :: m in Parse(Body(infos)) && IsMagnetOf(m, info) {
      var m := InfoHasMagnet(infos, parsed, info);
      SortKeeps(parsed, DupeCount(), m);
    }
  }

  lemma {:induction false} MagnetHasInfo(infos: seq<Info>, parsed: seq<Magnet>, m: Magnet)
    requires Printable(infos) && Represents(parsed, Noted(infos)) && m in parsed
    ensures exists info :: info in infos && IsMagnetOf(m, info)
  {
    var i :| 0 <= i < |parsed| && parsed[i] == m;
    assert Stands(parsed[i], Noted(infos));
    var info := StandsForInfo(m, infos);
  }

  lemma {:induction false} InfoHasMagnet(infos: seq<Info>, parsed: seq<Magnet>, info: Info) returns (m: Magnet)
    requires Printable(infos) && Represents(parsed, Noted(infos)) && info in infos
    ensures m in parsed && IsMagnetOf(m, info)
  {
    var e := Entry(info.areas[0], info);
    assert PrintableInfo(info);
    EntriesAre(infos, e);
    assert HasNumber(Noted(infos), info.number);
    assert KnownNumber(parsed, info.number);
    var i :| 0 <= i < |parsed| && parsed[i].number == info.number;
    m := parsed[i];
    assert Stands(parsed[i], Noted(infos));
    var found := StandsForInfo(m, infos);
  }

  // ---------- from the issues as they are fetched ----------

  /** Distinct issues of this repository whose area labels name trimmed single lines
      other than the unlabeled heading. */
  ghost predicate Fetched(issues: seq<Issue>) {
    && (forall i, j | 0 <= i < j < |issues| :: issues[i].number != issues[j].number)
    && (forall issue | issue in issues :: IsFetched(issue))
  }

  ghost predicate IsFetched(issue: Issue) {
    && issue.url == Url(issue.number)
    && forall area | area in AreasOf(issue.labels) :: IsTrimmed(area) && IsLine(area) && area != UNLABELED
  }

  lemma {:induction false} UnlabeledIsLine()
    ensures IsTrimmed(UNLABELED) && IsLine(UNLABELED)
  {
  }

  lemma {:induction false} ExtractPrintable(issue: Issue)
    requires IsFetched(issue) && Extract(issue).Some?
    ensures PrintableInfo(Extract(issue).value) && Extract(issue).value.number == issue.number
  {
    UnlabeledIsLine();
  }

  /** What is extracted comes from the issues with two duplicates or more. */
  lemma {:induction false} ExtractedAre(issues: seq<Issue>, info: Info)
    ensures info in ExtractAll(issues) <==> exists i :: 0 <= i < |issues| && Extract(issues[i]) == Some(info)
  {
    if issues != [] {
      var before, last := issues[..|issues| - 1], issues[|issues| - 1];
      ExtractedAre(before, info);
      if info in ExtractAll(before) {
        var i :| 0 <= i < |before| && Extract(before[i]) == Some(info);
        assert issues[i] == before[i];
      }
      if i :| 0 <= i < |issues| && Extract(issues[i]) == Some(info) && i < |before| {
        assert before[i] == issues[i];
      }
    }
  }

  lemma {:induction false} ExtractedDistinct(issues: seq<Issue>)
    requires Fetched(issues)
    ensures forall i, j | 0 <= i < j < |ExtractAll(issues)| ::
              ExtractAll(issues)[i].number != ExtractAll(issues)[j].number
  {
    if issues != [] {
      var before, last := issues[..|issues| - 1], issues[|issues| - 1];
      assert Fetched(before) by {
        assert forall i | 0 <= i < |before| :: before[i] == issues[i];
      }
      ExtractedDistinct(before);
      forall info | info in ExtractAll(before) ensures info.number != last.number {
        ExtractedAre(before, info);
        var i :| 0 <= i < |before| && Extract(before[i]) == Some(info);
        assert issues[i] == before[i];
      }
    }
  }

  lemma {:induction false} ExtractedPrintable(issues: seq<Issue>)
    requires Fetched(issues)
    ensures Printable(ExtractAll(issues))
  {
    ExtractedDistinct(issues);
    forall info | info in ExtractAll(issues) ensures PrintableInfo(info) {
      ExtractedAre(issues, info);
      var i :| 0 <= i < |issues| && Extract(issues[i]) == Some(info);
      assert issues[i] in issues;
      ExtractPrintable(issues[i]);
    }
  }

  /** The magnet is the issue, with the number of its closed duplicates and its
      areas. */
  ghost predicate IsMagnetOfIssue(m: Magnet, issue: Issue) {
    && m.number == issue.number && m.count == |ClosedDuplicates(issue.events)| >= 2
    && forall area :: area in m.areas <==> area in AreasOf(issue.labels)
  }

  lemma {:induction false} OfInfoOfIssue(m: Magnet, issue: Issue, info: Info)
    requires IsFetched(issue) && Extract(issue) == Some(info) && IsMagnetOf(m, info)
    ensures IsMagnetOfIssue(m, issue)
  {
  }

  /** From the fetched issues to what the other script reads: every issue with two
      closed duplicates or more comes back as one magnet with its number, count and
      areas, nothing else does, and the magnets are sorted by count. */
  lemma {:induction false} IssuesRecovered(issues: seq<Issue>)
    requires Fetched(issues)
    ensures var ms := Parse(Body(ExtractAll(issues)));
            && Descends(ms, DupeCount())
            && (forall i, j | 0 <= i < j < |ms| :: ms[i].number != ms[j].number)
            && (forall m | m in ms :: exists issue :: issue in issues && IsMagnetOfIssue(m, issue))
            && (forall issue | issue in issues && |ClosedDuplicates(issue.events)| >= 2 ::
                  exists m :: m in ms && IsMagnetOfIssue(m, issue))
  {
    ExtractedPrintable(issues);
    MagnetsRecovered(ExtractAll(issues));
    OfInfosOfIssues(issues, Parse(Body(ExtractAll(issues))));
  }

  lemma {:induction false} OfInfosOfIssues(issues: seq<Issue>, ms: seq<Magnet>)
    requires Fetched(issues)
    requires forall m | m in ms :: exists info :: info in ExtractAll(issues) && IsMagnetOf(m, info)
    requires forall info | info in ExtractAll(issues) :: exists m :: m in ms && IsMagnetOf(m, info)
    ensures forall m | m in ms :: exists issue :: issue in issues && IsMagnetOfIssue(m, issue)
    ensures forall issue | issue in issues && |ClosedDuplicates(issue.events)| >= 2 ::
              exists m :: m in ms && IsMagnetOfIssue(m, issue)
  {
    forall m | m in ms ensures exists issue :: issue in issues && IsMagnetOfIssue(m, issue) {
      var info :| info in ExtractAll(issues) && IsMagnetOf(m, info);
      MagnetHasIssue(issues, m, info);
    }
    forall issue | issue in issues && |ClosedDuplicates(issue.events)| >= 2
      ensures exists m :: m in ms && IsMagnetOfIssue(m, issue)
    {
      var info := Extract(issue).value;
      var i :| 0 <= i < |issues| && issues[i] == issue;
      ExtractedAre(issues, info);
      var m :| m in ms && IsMagnetOf(m, info);
      OfInfoOfIssue(m, issue, info);
    }
  }

  lemma {:induction false} MagnetHasIssue(issues: seq<Issue>, m: Magnet, info: Info)
    requires Fetched(issues) && info in ExtractAll(issues) && IsMagnetOf(m, info)
    ensures exists issue :: issue in issues && IsMagnetOfIssue(m, issue)
  {
    ExtractedAre(issues, info);
    var i :| 0 <= i < |issues| && Extract(issues[i]) == Some(info);
    assert issues[i] in issues;
    OfInfoOfIssue(m, issues[i], info);
  }
}
