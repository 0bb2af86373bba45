/** The list of duplicate magnets: one script prints it into a tracking issue,
    and another parses it back. An entry is an area with an issue; the printer
    groups the entries by area, the most duplicated first, and the parser gathers
    the areas of an issue again. The two scripts share nothing but the text, and
    the printed count is padded to two places. */
module Magnets {
  import opened Wrappers
  import opened Texts

  const UNLABELED := "(unlabeled)"
  const INTRO_WORDS := [
    "These are ", "the issues ", "that are ", "frequently ", "re-reported. ",
    "The list is ", "generated ", "regularly ", "by running ", "a script."]
  const INTRO := Words(INTRO_WORDS, |INTRO_WORDS|)
  const HOST := "https://github.com"
  const OWNER := "zed-industries"
  const REPO := "zed"

  function Words(words: seq<string>, n: nat): string
    requires n <= |words|
  {
    if n == 0 then "" else Words(words, n - 1) + words[n - 1]
  }

  // ---------- sorting ----------

  /** `sorted(s, key=key, reverse=True)`: descending, equals in their order. */
  function SortDesc<T>(s: seq<T>, key: T -> int): (r: seq<T>)
    ensures |r| == |s|
  {
    if s == [] then [] else InsertDesc(SortDesc(s[..|s| - 1], key), s[|s| - 1], key)
  }

  function InsertDesc<T>(s: seq<T>, x: T, key: T -> int): (r: seq<T>)
    ensures |r| == |s| + 1
  {
    if s == [] || key(s[|s| - 1]) >= key(x) then s + [x]
    else InsertDesc(s[..|s| - 1], x, key) + [s[|s| - 1]]
  }

  ghost predicate Descends<T>(s: seq<T>, key: T -> int) {
    forall i, j | 0 <= i < j < |s| :: key(s[i]) >= key(s[j])
  }

  lemma {:induction false} InsertAdds<T>(s: seq<T>, x: T, key: T -> int)
    ensures multiset(InsertDesc(s, x, key)) == multiset(s) + multiset{x}
  {
    if !(s == [] || key(s[|s| - 1]) >= key(x)) {
      InsertAdds(s[..|s| - 1], x, key);
      assert s == s[..|s| - 1] + [s[|s| - 1]];
    }
  }

  lemma {:induction false} InsertBound<T>(s: seq<T>, x: T, key: T -> int, bound: int)
    requires key(x) >= bound && forall i | 0 <= i < |s| :: key(s[i]) >= bound
    ensures forall i | 0 <= i < |s| + 1 :: key(InsertDesc(s, x, key)[i]) >= bound
  {
    if !(s == [] || key(s[|s| - 1]) >= key(x)) {
      InsertBound(s[..|s| - 1], x, key, bound);
    }
  }

  lemma {:induction false} InsertDescends<T>(s: seq<T>, x: T, key: T -> int)
    requires Descends(s, key)
    ensures Descends(InsertDesc(s, x, key), key)
  {
    if !(s == [] || key(s[|s| - 1]) >= key(x)) {
      InsertDescends(s[..|s| - 1], x, key);
      InsertBound(s[..|s| - 1], x, key, key(s[|s| - 1]));
    }
  }

  /** Sorting orders, and neither loses nor adds. */
  lemma {:induction false} SortSorts<T>(s: seq<T>, key: T -> int)
    ensures Descends(SortDesc(s, key), key) && multiset(SortDesc(s, key)) == multiset(s)
  {
    if s != [] {
      var rest := s[..|s| - 1];
      SortSorts(rest, key);
      InsertDescends(SortDesc(rest, key), s[|s| - 1], key);
      InsertAdds(SortDesc(rest, key), s[|s| - 1], key);
      assert s == rest + [s[|s| - 1]];
    }
  }

  lemma {:induction false} SortKeeps<T>(s: seq<T>, key: T -> int, x: T)
    ensures x in SortDesc(s, key) <==> x in s
  {
    SortSorts(s, key);
    assert x in SortDesc(s, key) <==> x in multiset(SortDesc(s, key));
    assert x in s <==> x in multiset(s);
  }

  // ---------- printing ----------

  datatype Info = Info(number: nat, url: string, areas: seq<string>, count: nat)

  /** One issue listed under one of its areas. */
  datatype Entry = Entry(area: string, info: Info)

  /** An issue marked as a duplicate; None where the event names no issue. */
  datatype Duplicate = Duplicate(number: nat, closed: bool)

  datatype Issue = Issue(number: nat, url: string, labels: seq<string>, events: seq<Option<Duplicate>>)

  const AREA := "area:"

  /** `l.replace(sub, "")`. */
  function WithoutAll(s: string, sub: string): string
    requires sub != ""
    decreases |s|
  {
    if s == "" then ""
    else if OccursAt(s, sub, 0) then WithoutAll(s[|sub|..], sub)
    else [s[0]] + WithoutAll(s[1..], sub)
  }

  function AreasOf(labels: seq<string>): seq<string> {
    if labels == [] then []
    else
      var before, last := AreasOf(labels[..|labels| - 1]), labels[|labels| - 1];
      if OccursAt(last, AREA, 0) then before + [WithoutAll(last, AREA)] else before
  }

  /** The duplicates that count: each closed one once. */
  function ClosedDuplicates(events: seq<Option<Duplicate>>): set<nat> {
    set i | 0 <= i < |events| && events[i].Some? && events[i].value.closed :: events[i].value.number
  }

  /** An issue with fewer than two duplicates is no magnet; one without an area is
      listed as unlabeled. */
  function Extract(issue: Issue): Option<Info> {
    var duplicates, areas := ClosedDuplicates(issue.events), AreasOf(issue.labels);
    if |duplicates| < 2 then None
    else Some(Info(issue.number, issue.url, if areas == [] then [UNLABELED] else areas, |duplicates|))
  }

  /** `extract_duplicate_info`, with its set of numbers and its list of areas. */
  method ExtractLoop(issue: Issue) returns (info: Option<Info>)
    ensures info == Extract(issue)
  {
    var seen: set<nat> := {};
    for i := 0 to |issue.events|
      invariant seen == ClosedDuplicates(issue.events[..i])
    {
      assert issue.events[..i + 1] == issue.events[..i] + [issue.events[i]];
      MoreDuplicates(issue.events[..i], issue.events[i]);
      if issue.events[i].Some? && issue.events[i].value.closed {
        seen := seen + {issue.events[i].value.number};
      }
    }
    assert issue.events[..|issue.events|] == issue.events;
    if |seen| < 2 {
      return None;
    }
    var areas: seq<string> := [];
    for i := 0 to |issue.labels|
      invariant areas == AreasOf(issue.labels[..i])
    {
      assert issue.labels[..i + 1][..i] == issue.labels[..i];
      if OccursAt(issue.labels[i], AREA, 0) {
        areas := areas + [WithoutAll(issue.labels[i], AREA)];
      }
    }
    assert issue.labels[..|issue.labels|] == issue.labels;
    info := Some(Info(issue.number, issue.url, if areas == [] then [UNLABELED] else areas, |seen|));
  }

  lemma {:induction false} MoreDuplicates(events: seq<Option<Duplicate>>, e: Option<Duplicate>)
    ensures ClosedDuplicates(events + [e])
            == ClosedDuplicates(events) + if e.Some? && e.value.closed then {e.value.number} else {}
  {
    var more := events + [e];
    assert more[|events|] == e;
    forall d ensures d in ClosedDuplicates(more) <==>
                       d in ClosedDuplicates(events) || (e.Some? && e.value.closed && e.value.number == d)
    {
      if d in ClosedDuplicates(events) {
        var i :| 0 <= i < |events| && events[i].Some? && events[i].value.closed && events[i].value.number == d;
        assert more[i] == events[i];
      }
    }
  }

  /** The issues that are magnets, in their order. */
  function ExtractAll(issues: seq<Issue>): seq<Info> {
    if issues == [] then []
    else
      var before, info := ExtractAll(issues[..|issues| - 1]), Extract(issues[|issues| - 1]);
      if info.None? then before else before + [info.value]
  }

  function EntriesOf(info: Info): seq<Entry> {
    seq(|info.areas|, i requires 0 <= i < |info.areas| => Entry(info.areas[i], info))
  }

  /** The entries in the order the script meets them. */
  function Entries(infos: seq<Info>): seq<Entry> {
    if infos == [] then [] else Entries(infos[..|infos| - 1]) + EntriesOf(infos[|infos| - 1])
  }

  /** The areas in the order they first appear. */
  function Areas(es: seq<Entry>): seq<string> {
    if es == [] then []
    else
      var before, area := Areas(es[..|es| - 1]), es[|es| - 1].area;
      if area in before then before else before + [area]
  }

  function Members(es: seq<Entry>, area: string): seq<Info> {
    if es == [] then []
    else
      var last := es[|es| - 1];
      Members(es[..|es| - 1], area) + if last.area == area then [last.info] else []
  }

  function Total(es: seq<Entry>, area: string): nat {
    if es == [] then 0
    else
      var last := es[|es| - 1];
      Total(es[..|es| - 1], area) + if last.area == area then last.info.count else 0
  }

  /** Right-aligned in two columns. */
  function Pad2(s: string): string {
    if |s| < 2 then " " + s else s
  }

  function IssueLine(info: Info): string {
    "-   [" + Pad2(Dec(info.count)) + " dupes] " + info.url
  }

  function IssueLines(infos: seq<Info>): seq<string> {
    seq(|infos|, i requires 0 <= i < |infos| => IssueLine(infos[i]))
  }

  function Section(area: string, infos: seq<Info>): seq<string> {
    ["", "## " + area, ""] + IssueLines(infos)
  }

  function CountOf(): Info -> int {
    (i: Info) => i.count
  }

  function ByCount(infos: seq<Info>): seq<Info> {
    SortDesc(infos, CountOf())
  }

  /** The first lines, and the sections of the first `k` areas. */
  function Sections(first: seq<string>, es: seq<Entry>, areas: seq<string>, k: nat): seq<string>
    requires k <= |areas|
  {
    if k == 0 then first
    else Sections(first, es, areas, k - 1) + Section(areas[k - 1], ByCount(Members(es, areas[k - 1])))
  }

  function TotalOf(es: seq<Entry>): string -> int {
    (area: string) => Total(es, area)
  }

  /** The areas with the most duplicates first. */
  function MostCommon(es: seq<Entry>): seq<string> {
    SortDesc(Areas(es), TotalOf(es))
  }

  function Lines(infos: seq<Info>): seq<string> {
    Sections([INTRO], Entries(infos), MostCommon(Entries(infos)), |MostCommon(Entries(infos))|)
  }

  function Body(infos: seq<Info>): string {
    Join(Lines(infos))
  }

  // ---------- parsing ----------

  datatype Magnet = Magnet(number: int, areas: seq<string>, count: int)

  /** What an issue line says: how many duplicates, of which issue. */
  function ParseIssueLine(line: string): Option<(int, int)> {
    var piece, link := SecondPiece(line, "["), SecondPiece(line, "/issues/");
    if piece.None? || link.None? then None
    else
      var count, number := FirstToken(piece.value), FirstToken(link.value);
      if count.None? || number.None? then None
      else
        var c, n := ParseInt(count.value), ParseInt(StripParens(number.value));
        if c.None? || n.None? then None else Some((c.value, n.value))
  }

  /** `rstrip(")")`. */
  function StripParens(s: string): string {
    if s != "" && s[|s| - 1] == ')' then StripParens(s[..|s| - 1]) else s
  }

  predicate HasIssues(line: string) {
    Find(line, "/issues/", 0).Some?
  }

  predicate StartsWith(s: string, prefix: string) {
    OccursAt(s, prefix, 0)
  }

  /** A known magnet gains the area; a new one is appended. Under the unlabeled
      heading there is no area to gain. */
  function Note(ms: seq<Magnet>, number: int, area: string, count: int): seq<Magnet> {
    var areas := if area == UNLABELED then [] else [area];
    if exists i :: 0 <= i < |ms| && ms[i].number == number then
      seq(|ms|, i requires 0 <= i < |ms| =>
        if ms[i].number == number then ms[i].(areas := ms[i].areas + areas) else ms[i])
    else ms + [Magnet(number, areas, count)]
  }

  /** `area` is empty before the first heading. */
  datatype Parser = Parser(magnets: seq<Magnet>, area: string)

  function ParseLine(p: Parser, line: string): Parser {
    if StartsWith(line, "## ") then p.(area := Trim(line[3..]))
    else if p.area == "" || !StartsWith(line, "-") || !HasIssues(line) then p
    else
      var parsed := ParseIssueLine(line);
      if parsed.None? then p
      else p.(magnets := Note(p.magnets, parsed.value.1, p.area, parsed.value.0))
  }

  function ParseLines(p: Parser, lines: seq<string>): Parser {
    if lines == [] then p else ParseLine(ParseLines(p, lines[..|lines| - 1]), lines[|lines| - 1])
  }

  function DupeCount(): Magnet -> int {
    (m: Magnet) => m.count
  }

  function Parse(body: string): seq<Magnet> {
    SortDesc(ParseLines(Parser([], ""), Split(body)).magnets, DupeCount())
  }

  // ---------- the loops of the scripts ----------

  method ParseLoop(body: string) returns (magnets: seq<Magnet>)
    ensures magnets == Parse(body)
  {
    var lines := Split(body);
    var p := Parser([], "");
    for i := 0 to |lines|
      invariant p == ParseLines(Parser([], ""), lines[..i])
    {
      assert lines[..i + 1][..i] == lines[..i];
      p := ParseLine(p, lines[i]);
    }
    assert lines[..|lines|] == lines;
    return SortDesc(p.magnets, DupeCount());
  }

  /** The maps the script fills, entry by entry. */
  ghost predicate Grouped(es: seq<Entry>, order: seq<string>, groups: map<string, seq<Info>>,
                          totals: map<string, nat>)
  {
    && order == Areas(es)
    && groups.Keys == totals.Keys && (forall area :: area in order <==> area in groups)
    && (forall area {:trigger Members(es, area)} :: Members(es, area) == if area in groups then groups[area] else [])
    && (forall area {:trigger Total(es, area)} :: Total(es, area) == if area in totals then totals[area] else 0)
  }

  method Group(es: seq<Entry>) returns (order: seq<string>, groups: map<string, seq<Info>>, totals: map<string, nat>)
    ensures Grouped(es, order, groups, totals)
  {
    order, groups, totals := [], map[], map[];
    for i := 0 to |es|
      invariant Grouped(es[..i], order, groups, totals)
    {
      order, groups, totals := GroupOne(es[..i], order, groups, totals, es[i]);
      assert es[..i + 1] == es[..i] + [es[i]];
    }
    assert es[..|es|] == es;
  }

  method GroupOne(ghost es: seq<Entry>, order: seq<string>, groups: map<string, seq<Info>>, totals: map<string, nat>,
                  e: Entry)
    returns (order': seq<string>, groups': map<string, seq<Info>>, totals': map<string, nat>)
    requires Grouped(es, order, groups, totals)
    ensures Grouped(es + [e], order', groups', totals')
  {
    order', groups', totals' := order, groups, totals;
    var area, info := e.area, e.info;
    if area !in groups {
      order' := order + [area];
      groups' := groups[area := []];
      totals' := totals[area := 0];
    }
    groups' := groups'[area := groups'[area] + [info]];
    totals' := totals'[area := totals'[area] + info.count];
    OneMore(es, e);
  }

  lemma {:induction false} OneMore(es: seq<Entry>, e: Entry)
    ensures Areas(es + [e]) == if e.area in Areas(es) then Areas(es) else Areas(es) + [e.area]
    ensures forall area :: Members(es + [e], area) == Members(es, area) + if e.area == area then [e.info] else []
    ensures forall area :: Total(es + [e], area) == Total(es, area) + if e.area == area then e.info.count else 0
  {
    assert (es + [e])[..|es|] == es;
  }

  method BuildLines(infos: seq<Info>) returns (lines: seq<string>)
    ensures lines == Lines(infos)
  {
    var es := CollectEntries(infos);
    var order, groups, totals := Group(es);
    lines := PrintSections([INTRO], es, SortDesc(order, TotalOf(es)), groups);
  }

  method PrintSections(first: seq<string>, ghost es: seq<Entry>, areas: seq<string>, groups: map<string, seq<Info>>)
    returns (lines: seq<string>)
    requires forall area {:trigger Members(es, area)} ::
               Members(es, area) == if area in groups then groups[area] else []
    ensures lines == Sections(first, es, areas, |areas|)
  {
    lines := first;
    for k := 0 to |areas|
      invariant lines == Sections(first, es, areas, k)
    {
      var issues := if areas[k] in groups then groups[areas[k]] else [];
      assert issues == Members(es, areas[k]);
      var section := Section(areas[k], ByCount(issues));
      lines := lines + section;
    }
  }

  method CollectEntries(infos: seq<Info>) returns (es: seq<Entry>)
    ensures es == Entries(infos)
  {
    es := [];
    for i := 0 to |infos|
      invariant es == Entries(infos[..i])
    {
      assert infos[..i + 1][..i] == infos[..i];
      es := es + EntriesOf(infos[i]);
    }
    assert infos[..|infos|] == infos;
  }
}
