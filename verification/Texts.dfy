/** The string operations the scripts use: splitting, trimming, decimal numbers.
    They follow Python's own: `str.strip` with its full set of white space,
    splitting on line breaks, and `int` of a run of digits. What one script prints
    another parses, so printing a number and joining lines are stated with what
    undoes them. */
module Texts {
  import opened Wrappers

  // ---------- whitespace ----------

  /** What `str.isspace` accepts. */
  predicate IsSpace(c: char) {
    var n := c as int;
    || 9 <= n <= 13 || 28 <= n <= 32 || n == 133 || n == 160 || n == 5760 || 8192 <= n <= 8202
    || n == 8232 || n == 8233 || n == 8239 || n == 8287 || n == 12288
  }

  function TrimLeft(s: string): (r: string)
    ensures r != "" ==> !IsSpace(r[0])
    ensures |r| <= |s|
  {
    if s != "" && IsSpace(s[0]) then TrimLeft(s[1..]) else s
  }

  function TrimRight(s: string): string {
    if s != "" && IsSpace(s[|s| - 1]) then TrimRight(s[..|s| - 1]) else s
  }

  function Trim(s: string): string {
    TrimRight(TrimLeft(s))
  }

  predicate IsTrimmed(s: string) {
    s != "" && !IsSpace(s[0]) && !IsSpace(s[|s| - 1])
  }

  predicate NoSpaces(s: string) {
    forall i | 0 <= i < |s| :: !IsSpace(s[i])
  }

  /** The length of the longest prefix without spaces. */
  function TokenLength(s: string, n: nat): (r: nat)
    requires n <= |s|
    ensures n <= r <= |s| && (forall i | n <= i < r :: !IsSpace(s[i])) && (r < |s| ==> IsSpace(s[r]))
    decreases |s| - n
  {
    if n == |s| || IsSpace(s[n]) then n else TokenLength(s, n + 1)
  }

  /** `split()[0]`, if there is any token. */
  function FirstToken(s: string): Option<string> {
    var t := TrimLeft(s);
    if t == "" then None else Some(t[..TokenLength(t, 0)])
  }

  lemma {:induction false} SpacesSkipped(spaces: string, rest: string)
    requires forall i | 0 <= i < |spaces| :: IsSpace(spaces[i])
    requires rest != "" ==> !IsSpace(rest[0])
    ensures TrimLeft(spaces + rest) == rest
  {
    if spaces == "" {
      assert spaces + rest == rest;
    } else {
      SpacesSkipped(spaces[1..], rest);
      assert (spaces + rest)[1..] == spaces[1..] + rest;
    }
  }

  lemma {:induction false} TokenIs(spaces: string, token: string, rest: string)
    requires forall i | 0 <= i < |spaces| :: IsSpace(spaces[i])
    requires token != "" && NoSpaces(token) && (rest != "" ==> IsSpace(rest[0]))
    ensures FirstToken(spaces + token + rest) == Some(token)
  {
    var t := token + rest;
    assert spaces + token + rest == spaces + t && t[0] == token[0];
    SpacesSkipped(spaces, t);
    assert forall i | 0 <= i < |token| :: t[i] == token[i];
    assert rest != "" ==> t[|token|] == rest[0];
    assert TokenLength(t, 0) == |token|;
    assert t[..|token|] == token;
  }

  // ---------- splitting ----------

  predicate OccursAt(s: string, sep: string, i: nat) {
    i + |sep| <= |s| && forall k | 0 <= k < |sep| :: s[i + k] == sep[k]
  }

  /** The first occurrence from `i` on. */
  function Find(s: string, sep: string, i: nat): (r: Option<nat>)
    ensures r.Some? ==> i <= r.value && OccursAt(s, sep, r.value) && forall k | i <= k < r.value :: !OccursAt(s, sep, k)
    ensures r.None? ==> forall k | i <= k :: !OccursAt(s, sep, k)
    decreases |s| - i
  {
    if i + |sep| > |s| then None
    else if OccursAt(s, sep, i) then Some(i)
    else Find(s, sep, i + 1)
  }

  /** `split(sep)[1]`, if there is a second piece. */
  function SecondPiece(s: string, sep: string): Option<string> {
    var i := Find(s, sep, 0);
    if i.None? then None
    else
      var rest := s[i.value + |sep|..];
      var j := Find(rest, sep, 0);
      Some(if j.None? then rest else rest[..j.value])
  }

  lemma {:induction false} PieceIs(before: string, sep: string, rest: string)
    requires forall k | 0 <= k < |before| :: !OccursAt(before + sep + rest, sep, k)
    requires forall k | 0 <= k :: !OccursAt(rest, sep, k)
    ensures SecondPiece(before + sep + rest, sep) == Some(rest)
  {
    var s := before + sep + rest;
    assert OccursAt(s, sep, |before|);
    assert Find(s, sep, 0) == Some(|before|);
    assert s[|before| + |sep|..] == rest;
  }

  /** `"\\n".join(lines)`. */
  function Join(lines: seq<string>): string {
    if |lines| == 0 then ""
    else if |lines| == 1 then lines[0]
    else lines[0] + "\n" + Join(lines[1..])
  }

  /** `split("\\n")`: at least one line. */
  function Split(s: string): (lines: seq<string>)
    ensures lines != []
    decreases |s|
  {
    var i := Find(s, "\n", 0);
    if i.None? then [s] else [s[..i.value]] + Split(s[i.value + 1..])
  }

  predicate IsLine(s: string) {
    '\n' !in s
  }

  lemma {:induction false} SplitFirst(line: string, rest: string)
    requires IsLine(line)
    ensures Split(line + "\n" + rest) == [line] + Split(rest)
  {
    var s := line + "\n" + rest;
    assert OccursAt(s, "\n", |line|);
    forall k | 0 <= k < |line| ensures !OccursAt(s, "\n", k) {
      assert s[k] == line[k];
      assert s[k + 0] == line[k] && "\n"[0] == '\n';
    }
    assert Find(s, "\n", 0) == Some(|line|);
    assert s[..|line|] == line && s[|line| + 1..] == rest;
  }

  lemma {:induction false} SplitLast(line: string)
    requires IsLine(line)
    ensures Split(line) == [line]
  {
    forall k: nat | 0 <= k ensures !OccursAt(line, "\n", k) {
      if k < |line| {
        assert line[k + 0] in line && "\n"[0] == '\n';
      }
    }
  }

  lemma {:induction false} SplitJoin(lines: seq<string>)
    requires lines != [] && forall l | l in lines :: IsLine(l)
    ensures Split(Join(lines)) == lines
  {
    if |lines| == 1 {
      SplitLast(lines[0]);
    } else {
      SplitJoin(lines[1..]);
      SplitFirst(lines[0], Join(lines[1..]));
    }
  }

  // ---------- decimal numbers ----------

  function Digit(n: nat): char
    requires n < 10
  {
    '0' + n as char
  }

  predicate IsDigit(c: char) {
    '0' <= c <= '9'
  }

  predicate AllDigits(s: string) {
    forall i | 0 <= i < |s| :: IsDigit(s[i])
  }

  function Dec(n: nat): (s: string)
    ensures s != "" && AllDigits(s)
  {
    if n < 10 then [Digit(n)] else Dec(n / 10) + [Digit(n % 10)]
  }

  function ParseNat(s: string): Option<nat> {
    if s == "" then None
    else
      var last := s[|s| - 1];
      if !IsDigit(last) then None
      else if |s| == 1 then Some((last - '0') as nat)
      else
        var before := ParseNat(s[..|s| - 1]);
        if before.None? then None else Some(before.value * 10 + (last - '0') as nat)
  }

  /** `int(s)` on ASCII text without underscores: an optional sign and digits. */
  function ParseInt(s: string): Option<int> {
    if s != "" && (s[0] == '-' || s[0] == '+') then
      var n := ParseNat(s[1..]);
      if n.None? then None
      else
        var value: int := if s[0] == '-' then -(n.value as int) else n.value;
        Some(value)
    else
      var n := ParseNat(s);
      if n.None? then None else Some(n.value)
  }

  lemma {:induction false} ParseNatDec(n: nat)
    ensures ParseNat(Dec(n)) == Some(n)
  {
    var s := Dec(n);
    if n >= 10 {
      ParseNatDec(n / 10);
      assert s[..|s| - 1] == Dec(n / 10);
    }
  }

  lemma {:induction false} ParseIntDec(n: nat)
    ensures ParseInt(Dec(n)) == Some(n)
  {
    ParseNatDec(n);
    assert IsDigit(Dec(n)[0]);
  }
}
