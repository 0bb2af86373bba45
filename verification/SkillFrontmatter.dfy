/** Finding the end of a skill's YAML frontmatter. The scan collects every line
    that is `---` alone and takes the first candidate whose prefix parses, since
    a YAML value may itself hold such a line. The YAML parser is an arbitrary
    function of the prefix it is given, so nothing here depends on how it reads
    its text. */
module SkillFrontmatter {
  import opened Wrappers

  /** What the YAML parser makes of a prefix. */
  datatype Metadata = Metadata(name: string, description: string, disableModelInvocation: bool)

  datatype Parsed = NoDocument | Rejected | Accepted(metadata: Metadata)

  /** Rust's `char::is_whitespace`. */
  predicate IsWhitespace(c: char) {
    var n := c as int;
    || 9 <= n <= 13 || n == 32 || n == 133 || n == 160 || n == 5760 || 8192 <= n <= 8202
    || n == 8232 || n == 8233 || n == 8239 || n == 8287 || n == 12288
  }

  function TrimStart(s: string): string
    decreases |s|
  {
    if s != "" && IsWhitespace(s[0]) then TrimStart(s[1..]) else s
  }

  predicate DashesAt(s: string, i: nat) {
    i + 3 <= |s| && s[i] == '-' && s[i + 1] == '-' && s[i + 2] == '-'
  }

  /** Where the line that begins at `start` ends, if it is three dashes alone:
      before the end of the text, a line feed, or a carriage return and line feed. */
  function CloserEnd(s: string, start: nat): Option<nat> {
    if !DashesAt(s, start) then None
    else if start + 3 == |s| then Some(start + 3)
    else if s[start + 3] == '\n' then Some(start + 4)
    else if start + 4 < |s| && s[start + 3] == '\r' && s[start + 4] == '\n' then Some(start + 5)
    else None
  }

  /** `end` ends a closing line: one that follows a line feed. */
  predicate IsCandidate(s: string, end: nat) {
    exists i :: 0 <= i < |s| && s[i] == '\n' && CloserEnd(s, i + 1) == Some(end)
  }

  /** The scan over the first `n` characters. */
  function Candidates(s: string, n: nat): seq<nat>
    requires n <= |s|
  {
    if n == 0 then []
    else if s[n - 1] == '\n' && CloserEnd(s, n).Some? then Candidates(s, n - 1) + [CloserEnd(s, n).value]
    else Candidates(s, n - 1)
  }

  /** The first candidate among the first `n` whose prefix is accepted. */
  function FirstAccepted(s: string, ends: seq<nat>, yaml: string -> Parsed, n: nat): Option<nat>
    requires n <= |ends| && forall k | 0 <= k < |ends| :: ends[k] <= |s|
  {
    if n == 0 then None
    else
      var before := FirstAccepted(s, ends, yaml, n - 1);
      if before.Some? then before
      else if yaml(s[..ends[n - 1]]).Accepted? then Some(ends[n - 1])
      else None
  }

  datatype Split = Split(metadata: Metadata, body: string)

  /** Metadata and body; None for the errors. */
  function Extract(content: string, yaml: string -> Parsed): Option<Split> {
    var s := TrimStart(content);
    if !DashesAt(s, 0) then None
    else
      CandidatesAre(s, |s|);
      var end := FirstAccepted(s, Candidates(s, |s|), yaml, |Candidates(s, |s|)|);
      if end.None? then None
      else
        FirstIsFirst(s, Candidates(s, |s|), yaml, |Candidates(s, |s|)|);
        Some(Split(yaml(s[..end.value]).metadata, s[end.value..]))
  }

  // ---------- the loops of the crate ----------

  method Scan(s: string) returns (ends: seq<nat>)
    ensures ends == Candidates(s, |s|)
  {
    ends := [];
    for i := 0 to |s|
      invariant ends == Candidates(s, i)
    {
      if s[i] != '\n' {
        continue;
      }
      var start := i + 1;
      if start + 3 > |s| || !DashesAt(s, start) {
        continue;
      }
      var after := start + 3;
      if after == |s| {
        ends := ends + [after];
      } else if s[after] == '\n' {
        ends := ends + [after + 1];
      } else if after + 1 < |s| && s[after] == '\r' && s[after + 1] == '\n' {
        ends := ends + [after + 2];
      }
    }
  }

  method ExtractLoop(content: string, yaml: string -> Parsed) returns (r: Option<Split>)
    ensures r == Extract(content, yaml)
  {
    var s := TrimStart(content);
    if !DashesAt(s, 0) {
      return None;
    }
    var ends := Scan(s);
    CandidatesAre(s, |s|);
    for k := 0 to |ends|
      invariant FirstAccepted(s, ends, yaml, k) == None
    {
      var doc := yaml(s[..ends[k]]);
      if doc.Accepted? {
        AcceptedStays(s, ends, yaml, k + 1, |ends|);
        return Some(Split(doc.metadata, s[ends[k]..]));
      }
    }
    return None;
  }

  lemma {:induction false} AcceptedStays(s: string, ends: seq<nat>, yaml: string -> Parsed, k: nat, n: nat)
    requires k <= n <= |ends| && forall i | 0 <= i < |ends| :: ends[i] <= |s|
    requires FirstAccepted(s, ends, yaml, k).Some?
    ensures FirstAccepted(s, ends, yaml, n) == FirstAccepted(s, ends, yaml, k)
  {
    if k < n {
      AcceptedStays(s, ends, yaml, k, n - 1);
    }
  }

  // ---------- what the scan collects ----------

  ghost predicate Increasing(ends: seq<nat>) {
    forall i, j | 0 <= i < j < |ends| :: ends[i] < ends[j]
  }

  /** Found at a line feed among the first `n` characters. */
  ghost predicate FoundBefore(s: string, n: nat, end: nat)
    requires n <= |s|
  {
    exists i :: 0 <= i < n && s[i] == '\n' && CloserEnd(s, i + 1) == Some(end)
  }

  /** Every end found is in the list, and only those, in order. */
  lemma {:induction false} CandidatesAre(s: string, n: nat)
    requires n <= |s|
    ensures forall end: nat :: end in Candidates(s, n) <==> FoundBefore(s, n, end)
    ensures Increasing(Candidates(s, n))
    ensures forall k | 0 <= k < |Candidates(s, n)| :: Candidates(s, n)[k] <= |s|
  {
    if n > 0 {
      CandidatesAre(s, n - 1);
      var before := Candidates(s, n - 1);
      if s[n - 1] == '\n' && CloserEnd(s, n).Some? {
        var end := CloserEnd(s, n).value;
        forall k | 0 <= k < |before| ensures before[k] < end {
          assert before[k] in before;
          var i :| 0 <= i < n - 1 && s[i] == '\n' && CloserEnd(s, i + 1) == Some(before[k]);
        }
        assert FoundBefore(s, n, end);
      }
      forall end: nat ensures FoundBefore(s, n, end) <==>
          FoundBefore(s, n - 1, end) || (s[n - 1] == '\n' && CloserEnd(s, n) == Some(end)) {
      }
    }
  }

  /** The scan collects exactly the ends of the closing lines, in increasing order. */
  lemma {:induction false} ScanIsExact(s: string)
    ensures Increasing(Candidates(s, |s|))
    ensures forall end: nat :: end in Candidates(s, |s|) <==> IsCandidate(s, end)
  {
    CandidatesAre(s, |s|);
    forall end: nat ensures FoundBefore(s, |s|, end) <==> IsCandidate(s, end) {
    }
  }

  /** A line feed and three dashes. */
  predicate DashLineAt(s: string, i: int) {
    0 <= i && i + 4 <= |s| && s[i] == '\n' && s[i + 1] == '-' && s[i + 2] == '-' && s[i + 3] == '-'
  }

  /** A line feed, three dashes, and then the end of the text, a line feed, or a
      carriage return with a line feed. */
  lemma {:induction false} CandidateIff(s: string, end: nat)
    ensures IsCandidate(s, end)
            <==> || (end == |s| && DashLineAt(s, end - 4))
                 || (end <= |s| && DashLineAt(s, end - 5) && s[end - 1] == '\n')
                 || (end <= |s| && DashLineAt(s, end - 6) && s[end - 2] == '\r' && s[end - 1] == '\n')
  {
    if end <= |s| {
      assert end == |s| && DashLineAt(s, end - 4) ==> s[end - 4] == '\n' && CloserEnd(s, end - 4 + 1) == Some(end);
      assert DashLineAt(s, end - 5) && s[end - 1] == '\n' ==>
          s[end - 5] == '\n' && CloserEnd(s, end - 5 + 1) == Some(end);
      assert DashLineAt(s, end - 6) && s[end - 2] == '\r' && s[end - 1] == '\n' ==>
          s[end - 6] == '\n' && CloserEnd(s, end - 6 + 1) == Some(end);
    }
  }

  // ---------- which candidate wins ----------

  /** No accepted candidate comes before the first accepted one. */
  lemma {:induction false} FirstIsFirst(s: string, ends: seq<nat>, yaml: string -> Parsed, n: nat)
    requires n <= |ends| && forall k | 0 <= k < |ends| :: ends[k] <= |s|
    ensures var r := FirstAccepted(s, ends, yaml, n);
            && (r.None? <==> forall k | 0 <= k < n :: !yaml(s[..ends[k]]).Accepted?)
            && (r.Some? ==> exists k :: 0 <= k < n && ends[k] == r.value && yaml(s[..ends[k]]).Accepted?
                                        && forall j | 0 <= j < k :: !yaml(s[..ends[j]]).Accepted?)
  {
    if n > 0 {
      FirstIsFirst(s, ends, yaml, n - 1);
      if FirstAccepted(s, ends, yaml, n - 1).None? && yaml(s[..ends[n - 1]]).Accepted? {
        assert ends[n - 1] == FirstAccepted(s, ends, yaml, n).value;
      }
    }
  }

  /** `end` is the closer: an accepted candidate, and the first one. */
  ghost predicate IsCloser(s: string, yaml: string -> Parsed, end: nat) {
    && end <= |s| && IsCandidate(s, end) && yaml(s[..end]).Accepted?
    && forall other: nat | other < end && IsCandidate(s, other) :: !yaml(s[..other]).Accepted?
  }

  /** Extraction splits at the closer, and fails exactly when the text does not
      open with dashes or has no closer. */
  lemma {:induction false} SplitsAtCloser(content: string, yaml: string -> Parsed)
    ensures var s := TrimStart(content);
            Extract(content, yaml).None? <==> !DashesAt(s, 0) || forall end: nat :: !IsCloser(s, yaml, end)
    ensures var s := TrimStart(content);
            forall end: nat | IsCloser(s, yaml, end) && DashesAt(s, 0) ::
              Extract(content, yaml) == Some(Split(yaml(s[..end]).metadata, s[end..]))
  {
    var s := TrimStart(content);
    var ends := Candidates(s, |s|);
    CandidatesAre(s, |s|);
    ScanIsExact(s);
    FirstIsFirst(s, ends, yaml, |ends|);
    var r := FirstAccepted(s, ends, yaml, |ends|);
    if r.Some? {
      FirstIsCloser(s, ends, yaml, r.value);
    }
    forall end: nat | IsCloser(s, yaml, end) ensures r == Some(end) {
      assert end in ends;
      if r.Some? {
        FirstIsCloser(s, ends, yaml, r.value);
      }
    }
  }

  lemma {:induction false} FirstIsCloser(s: string, ends: seq<nat>, yaml: string -> Parsed, end: nat)
    requires Increasing(ends) && (forall k | 0 <= k < |ends| :: ends[k] <= |s|)
    requires forall e: nat :: e in ends <==> IsCandidate(s, e)
    requires FirstAccepted(s, ends, yaml, |ends|) == Some(end)
    ensures IsCloser(s, yaml, end)
  {
    FirstIsFirst(s, ends, yaml, |ends|);
    var k :| 0 <= k < |ends| && ends[k] == end && yaml(s[..ends[k]]).Accepted?
             && forall j | 0 <= j < k :: !yaml(s[..ends[j]]).Accepted?;
    assert end in ends;
    forall other: nat | other < end && IsCandidate(s, other) ensures !yaml(s[..other]).Accepted? {
      assert other in ends;
      var j :| 0 <= j < |ends| && ends[j] == other;
      assert j < k;
    }
  }

  // ---------- another body ----------

  predicate EndsWithLineFeed(s: string) {
    s != "" && s[|s| - 1] == '\n'
  }

  /** Within a prefix that ends a line, the closing lines do not depend on what
      follows. */
  lemma {:induction false} SameCandidates(prefix: string, a: string, b: string, end: nat)
    requires EndsWithLineFeed(prefix) && end <= |prefix| && IsCandidate(prefix + a, end)
    ensures IsCandidate(prefix + b, end)
  {
    var s, t := prefix + a, prefix + b;
    var i :| 0 <= i < |s| && s[i] == '\n' && CloserEnd(s, i + 1) == Some(end);
    assert forall k | 0 <= k < |prefix| :: s[k] == prefix[k] && t[k] == prefix[k];
    assert s[i + 3] == '-' && s[|prefix| - 1] == '\n';
    assert CloserEnd(t, i + 1) == Some(end);
  }

  /** When the closing line has a line ending, any other text after it is a body
      with the same metadata before it. */
  lemma {:induction false} BodyIsFree(prefix: string, yaml: string -> Parsed, body: string, other: string)
    requires DashesAt(prefix + body, 0) && IsCloser(prefix + body, yaml, |prefix|) && EndsWithLineFeed(prefix)
    ensures Extract(prefix + other, yaml) == Some(Split(yaml(prefix).metadata, other))
  {
    var s, t := prefix + body, prefix + other;
    SameCandidates(prefix, body, other, |prefix|);
    assert t[..|prefix|] == prefix && t[|prefix|..] == other && s[..|prefix|] == prefix;
    forall e: nat | e < |prefix| && IsCandidate(t, e) ensures !yaml(t[..e]).Accepted? {
      SameCandidates(prefix, other, body, e);
      assert t[..e] == s[..e];
    }
    SplitsAtCloser(t, yaml);
  }

  /** The body can be replaced by any text exactly when the closing line has a
      line ending. */
  lemma {:induction false} BodyIsFreeIff(prefix: string, yaml: string -> Parsed, body: string)
    requires DashesAt(prefix + body, 0) && IsCloser(prefix + body, yaml, |prefix|)
    ensures (forall other :: Extract(prefix + other, yaml) == Some(Split(yaml(prefix).metadata, other)))
            <==> EndsWithLineFeed(prefix)
  {
    if EndsWithLineFeed(prefix) {
      forall other ensures Extract(prefix + other, yaml) == Some(Split(yaml(prefix).metadata, other)) {
        BodyIsFree(prefix, yaml, body, other);
      }
    } else {
      GluedBody(prefix, yaml, body);
    }
  }

  /** Such a prefix and such a text: three dashes twice, and a letter behind them. */
  lemma {:induction false} LetterUndoesClosing(yaml: string -> Parsed)
    requires forall s :: yaml(s).Accepted?
    ensures Extract("---\n---", yaml) == Some(Split(yaml("---\n---").metadata, ""))
    ensures Extract("---\n---x", yaml).None?
  {
    var s, t := "---\n---", "---\n---x";
    assert TrimStart(s) == s && TrimStart(t) == t && s[..7] == s && s[7..] == "";
    assert s[3] == '\n' && CloserEnd(s, 4) == Some(7);
    assert IsCloser(s, yaml, 7);
    SplitsAtCloser(s, yaml);
    assert CloserEnd(t, 4).None?;
    SplitsAtCloser(t, yaml);
  }

  /** Text glued to the closing line makes it another line. */
  lemma {:induction false} GluedBody(prefix: string, yaml: string -> Parsed, body: string)
    requires DashesAt(prefix + body, 0) && IsCloser(prefix + body, yaml, |prefix|) && !EndsWithLineFeed(prefix)
    ensures Extract(prefix + "x", yaml) != Some(Split(yaml(prefix).metadata, "x"))
  {
    var t := prefix + "x";
    SplitsAtCloser(t, yaml);
    forall end: nat | IsCloser(t, yaml, end) ensures |t[end..]| != 1 {
    }
  }
}
