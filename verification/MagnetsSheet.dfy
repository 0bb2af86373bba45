/** What the tracking issue of the magnets looks like: its sections and their order,
    and from which labels the areas come. */
module MagnetsSheet {
  import opened Wrappers
  import opened Texts
  import opened Magnets
  import opened MagnetsRoundTrip

  // ---------- sections in order ----------

  /** The introduction, and under each area a heading and its issues. */
  function Sheet(areas: seq<string>, groups: seq<seq<Info>>, n: nat): seq<string>
    requires n <= |areas| == |groups|
  {
    if n == 0 then [INTRO] else Sheet(areas, groups, n - 1) + Under(areas[n - 1], groups[n - 1])
  }

  function Under(area: string, infos: seq<Info>): seq<string> {
    ["", "## " + area, ""] + IssueLines(infos)
  }

  function Sum(infos: seq<Info>): nat {
    if infos == [] then 0 else Sum(infos[..|infos| - 1]) + infos[|infos| - 1].count
  }

  ghost predicate Distinct(areas: seq<string>) {
    forall i, j | 0 <= i < j < |areas| :: areas[i] != areas[j]
  }

  lemma {:induction false} AreasDistinct(es: seq<Entry>)
    ensures Distinct(Areas(es))
  {
    if es != [] {
      AreasDistinct(es[..|es| - 1]);
    }
  }

  lemma {:induction false} InsertDistinct(areas: seq<string>, area: string, key: string -> int)
    requires Distinct(areas) && area !in areas
    ensures Distinct(InsertDesc(areas, area, key))
    ensures forall a :: a in InsertDesc(areas, area, key) <==> a in areas || a == area
  {
    if !(areas == [] || key(areas[|areas| - 1]) >= key(area)) {
      var rest, last := areas[..|areas| - 1], areas[|areas| - 1];
      InsertDistinct(rest, area, key);
      assert areas == rest + [last] && last !in rest;
      assert last !in InsertDesc(rest, area, key);
    }
  }

  lemma {:induction false} SortDistinct(areas: seq<string>, key: string -> int)
    requires Distinct(areas)
    ensures Distinct(SortDesc(areas, key)) && forall a :: a in SortDesc(areas, key) <==> a in areas
  {
    if areas != [] {
      var rest, last := areas[..|areas| - 1], areas[|areas| - 1];
      SortDistinct(rest, key);
      assert areas == rest + [last] && last !in rest;
      InsertDistinct(SortDesc(rest, key), last, key);
    }
  }

  lemma {:induction false} InsertSum(infos: seq<Info>, info: Info)
    ensures Sum(InsertDesc(infos, info, CountOf())) == Sum(infos) + info.count
  {
    if infos == [] || CountOf()(infos[|infos| - 1]) >= CountOf()(info) {
      assert (infos + [info])[..|infos|] == infos;
    } else {
      var rest, last := infos[..|infos| - 1], infos[|infos| - 1];
      InsertSum(rest, info);
      var inserted := InsertDesc(rest, info, CountOf());
      assert (inserted + [last])[..|inserted|] == inserted;
    }
  }

  lemma {:induction false} SortSum(infos: seq<Info>)
    ensures Sum(ByCount(infos)) == Sum(infos)
  {
    if infos != [] {
      SortSum(infos[..|infos| - 1]);
      InsertSum(ByCount(infos[..|infos| - 1]), infos[|infos| - 1]);
    }
  }

  lemma {:induction false} TotalIsSum(es: seq<Entry>, area: string)
    ensures Total(es, area) == Sum(Members(es, area))
  {
    if es != [] {
      TotalIsSum(es[..|es| - 1], area);
      var before, last := Members(es[..|es| - 1], area), es[|es| - 1];
      if last.area == area {
        assert (before + [last.info])[..|before|] == before;
      } else {
        assert before + [] == before;
      }
    }
  }

  /** What belongs under the area: the infos that name it, the most duplicated
      first. */
  ghost predicate IsGroup(group: seq<Info>, area: string, infos: seq<Info>) {
    && (forall info :: info in group <==> info in infos && area in info.areas)
    && (forall i, j | 0 <= i < j < |group| :: group[i].count >= group[j].count)
  }

  ghost function GroupsOf(es: seq<Entry>, areas: seq<string>): (groups: seq<seq<Info>>)
    ensures |groups| == |areas|
  {
    seq(|areas|, k requires 0 <= k < |areas| => ByCount(Members(es, areas[k])))
  }

  lemma {:induction false} GroupIs(infos: seq<Info>, area: string)
    ensures IsGroup(ByCount(Members(Entries(infos), area)), area, infos)
    ensures Sum(ByCount(Members(Entries(infos), area))) == Total(Entries(infos), area)
  {
    var members := Members(Entries(infos), area);
    SortSorts(members, CountOf());
    forall info ensures info in ByCount(members) <==> info in infos && area in info.areas {
      SortKeeps(members, CountOf(), info);
      MembersAre(Entries(infos), area, info);
      EntriesAre(infos, Entry(area, info));
    }
    var group := ByCount(members);
    assert forall i | 0 <= i < |group| :: CountOf()(group[i]) == group[i].count;
    TotalIsSum(Entries(infos), area);
    SortSum(members);
  }

  lemma {:induction false} SheetIs(es: seq<Entry>, areas: seq<string>, groups: seq<seq<Info>>, k: nat)
    requires k <= |areas| && groups == GroupsOf(es, areas)
    ensures Sections([INTRO], es, areas, k) == Sheet(areas, groups, k)
  {
    if k > 0 {
      SheetIs(es, areas, groups, k - 1);
      UnderIs(areas[k - 1], groups[k - 1]);
    }
  }

  lemma {:induction false} UnderIs(area: string, infos: seq<Info>)
    ensures Section(area, infos) == Under(area, infos)
  {
  }

  lemma {:induction false} AreaIff(infos: seq<Info>, area: string)
    ensures area in Areas(Entries(infos)) <==> exists info :: info in infos && area in info.areas
  {
    var es := Entries(infos);
    if area in Areas(es) {
      AreasInEntries(es, area);
      var e :| e in es && e.area == area;
      EntriesAre(infos, e);
    }
    if info :| info in infos && area in info.areas {
      EntriesAre(infos, Entry(area, info));
      AreasAre(es, Entry(area, info));
    }
  }

  /** The issue is the introduction and a section for each area, once; the areas
      with the most duplicates in all come first, and so do the issues of an area. */
  lemma {:induction false} SheetOrder(infos: seq<Info>) returns (areas: seq<string>, groups: seq<seq<Info>>)
    ensures |areas| == |groups| && Lines(infos) == Sheet(areas, groups, |areas|)
    ensures Distinct(areas) && forall area :: area in areas <==> exists info :: info in infos && area in info.areas
    ensures forall k | 0 <= k < |areas| :: IsGroup(groups[k], areas[k], infos)
    ensures forall j, k | 0 <= j < k < |areas| :: Sum(groups[j]) >= Sum(groups[k])
  {
    var es := Entries(infos);
    areas := MostCommon(es);
    groups := GroupsOf(es, areas);
    SheetIs(es, areas, groups, |areas|);
    AreasDistinct(es);
    SortDistinct(Areas(es), TotalOf(es));
    forall area ensures area in areas <==> exists info :: info in infos && area in info.areas {
      AreaIff(infos, area);
    }
    SortSorts(Areas(es), TotalOf(es));
    forall k | 0 <= k < |areas|
      ensures IsGroup(groups[k], areas[k], infos) && Sum(groups[k]) == TotalOf(es)(areas[k])
    {
      GroupIs(infos, areas[k]);
    }
  }

  /** A printed line: the count right-aligned in two columns. */
  lemma {:induction false} PrintedLine(info: Info, digit: char)
    requires info.count < 10 && digit as int == 48 + info.count
    ensures IssueLine(info) == "-   [ " + [digit] + " dupes] " + info.url
  {
    assert Dec(info.count) == [digit] && Pad2([digit]) == " " + [digit];
    assert "-   [" + (" " + [digit]) == "-   [ " + [digit];
  }

  // ---------- areas ----------

  lemma {:induction false} NothingRemoved(s: string, sub: string)
    requires sub != "" && forall i | 0 <= i < |s| :: !OccursAt(s, sub, i)
    ensures WithoutAll(s, sub) == s
  {
    if s != "" {
      var rest := s[1..];
      assert s == [s[0]] + rest;
      forall i | 0 <= i < |rest| ensures !OccursAt(rest, sub, i) {
        assert !OccursAt(s, sub, i + 1);
        if i + |sub| <= |rest| {
          var k :| 0 <= k < |sub| && s[i + 1 + k] != sub[k];
          assert rest[i + k] == s[i + 1 + k];
        }
      }
      NothingRemoved(rest, sub);
    }
  }

  /** The label names an area: "area:" and the name, in which that does not occur
      again. */
  ghost predicate NamesArea(tag: string, area: string) {
    tag == "area:" + area && forall i | 0 <= i < |area| :: !OccursAt(area, "area:", i)
  }

  lemma {:induction false} AreaOfLabel(tag: string, area: string)
    requires NamesArea(tag, area)
    ensures AreasOf([tag]) == [area]
  {
    assert OccursAt(tag, AREA, 0) && tag[5..] == area;
    NothingRemoved(area, AREA);
    assert WithoutAll(tag, AREA) == area;
    assert [tag][..0] == [] && [] + [area] == [area];
  }

  /** Other labels name none. */
  lemma {:induction false} AreasOfLabels(labels: seq<string>, tag: string)
    ensures AreasOf(labels + [tag]) == AreasOf(labels) + AreasOf([tag])
    ensures !("area:" <= tag) ==> AreasOf([tag]) == []
  {
    assert (labels + [tag])[..|labels|] == labels && [tag][..0] == [];
    if OccursAt(tag, AREA, 0) {
      assert tag[..5] == AREA;
    }
  }
}
