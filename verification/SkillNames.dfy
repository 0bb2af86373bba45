/** Skill names: turning any text into one, and checking one. The slug is built in
    one pass over the characters with a buffer and a pending dash, cut to the
    greatest length and trimmed; the checks of a name know nothing of that, so what
    the two have to do with each other is stated here in both directions. */
module SkillNames {
  import opened Wrappers

  const MAX_SKILL_NAME_LEN := 64

  predicate IsAlphanumeric(c: char) {
    'a' <= c <= 'z' || 'A' <= c <= 'Z' || '0' <= c <= '9'
  }

  function Lower(c: char): char {
    if 'A' <= c <= 'Z' then c - 'A' + 'a' else c
  }

  predicate IsNameLetter(c: char) {
    'a' <= c <= 'z' || '0' <= c <= '9'
  }

  // ---------- the words of a text ----------

  /** Every ampersand among the first `n` becomes the word "and" with separators. */
  function ExpandFirst(s: string, n: nat): string
    requires n <= |s|
  {
    if n == 0 then ""
    else ExpandFirst(s, n - 1) + if s[n - 1] == '&' then ['-', 'a', 'n', 'd', '-'] else [s[n - 1]]
  }

  function Expand(s: string): string {
    ExpandFirst(s, |s|)
  }

  /** Letters and digits in lower case, separators as dashes, nothing else. */
  function MapFirst(s: string, n: nat): string
    requires n <= |s|
  {
    if n == 0 then ""
    else if IsAlphanumeric(s[n - 1]) then MapFirst(s, n - 1) + [Lower(s[n - 1])]
    else if s[n - 1] == ' ' || s[n - 1] == '-' then MapFirst(s, n - 1) + ['-']
    else MapFirst(s, n - 1)
  }

  function Mapped(s: string): string {
    MapFirst(s, |s|)
  }

  /** The runs of letters and digits between dashes, among the first `n`. */
  function WordsIn(m: string, n: nat): seq<string>
    requires n <= |m|
  {
    if n == 0 then []
    else
      var before, c := WordsIn(m, n - 1), m[n - 1];
      if c == '-' then before
      else if before != [] && m[n - 2] != '-' then before[..|before| - 1] + [before[|before| - 1] + [c]]
      else before + [[c]]
  }

  function Words(m: string): seq<string> {
    WordsIn(m, |m|)
  }

  function JoinDashes(words: seq<string>): string {
    if words == [] then ""
    else if |words| == 1 then words[0]
    else JoinDashes(words[..|words| - 1]) + "-" + words[|words| - 1]
  }

  function TrimDashes(s: string): string {
    if s != "" && s[|s| - 1] == '-' then TrimDashes(s[..|s| - 1]) else s
  }

  /** At most the first 64, without dashes at the end. */
  function Cut(s: string): string {
    if |s| > MAX_SKILL_NAME_LEN then TrimDashes(s[..MAX_SKILL_NAME_LEN]) else s
  }

  function Slug(input: string): Option<string> {
    var name := Cut(JoinDashes(Words(Mapped(Expand(input)))));
    if name == "" then None else Some(name)
  }

  predicate IsValidName(name: string) {
    && name != "" && |name| <= MAX_SKILL_NAME_LEN
    && name[0] != '-' && name[|name| - 1] != '-'
    && forall i | 0 <= i < |name| :: IsNameLetter(name[i]) || name[i] == '-'
  }

  // ---------- the loop of the crate ----------

  predicate EndsWithDash(s: string) {
    s != "" && s[|s| - 1] == '-'
  }

  /** The buffer after the first `n` mapped characters: a pending dash, if any, is
      at its end. */
  function Buffer(m: string, n: nat): string
    requires n <= |m|
  {
    if n == 0 then ""
    else
      var before := Buffer(m, n - 1);
      if m[n - 1] == '-' && (before == "" || EndsWithDash(before)) then before else before + [m[n - 1]]
  }

  method Slugify(text: string) returns (r: Option<string>)
    ensures r == Slug(text)
  {
    var input := Expand(text);
    var slug := FillBuffer(input);
    SlugOfBuffer(input);
    if EndsWithDash(slug) {
      slug := slug[..|slug| - 1];
    }
    if |slug| > MAX_SKILL_NAME_LEN {
      slug := slug[..MAX_SKILL_NAME_LEN];
      ghost var cut := TrimDashes(slug);
      while EndsWithDash(slug)
        invariant TrimDashes(slug) == cut
        decreases |slug|
      {
        slug := slug[..|slug| - 1];
      }
    }
    return if slug == "" then None else Some(slug);
  }

  /** The loop over the characters. */
  method FillBuffer(input: string) returns (slug: string)
    ensures slug == Buffer(Mapped(input), |Mapped(input)|)
  {
    slug := "";
    var lastWasDash := true;
    for i := 0 to |input|
      invariant slug == Buffer(MapFirst(input, i), |MapFirst(input, i)|)
      invariant lastWasDash <==> slug == "" || EndsWithDash(slug)
    {
      var ch := input[i];
      if IsAlphanumeric(ch) {
        BufferStep(MapFirst(input, i), Lower(ch));
        slug := slug + [Lower(ch)];
        lastWasDash := false;
      } else if ch == ' ' || ch == '-' {
        BufferStep(MapFirst(input, i), '-');
        if !lastWasDash {
          slug := slug + ['-'];
          lastWasDash := true;
        }
      }
    }
  }

  lemma {:induction false} SlugOfBuffer(input: string)
    ensures var m := Mapped(input);
            var slug := Buffer(m, |m|);
            JoinDashes(Words(m)) == if EndsWithDash(slug) then slug[..|slug| - 1] else slug
  {
    var m := Mapped(input);
    BufferIsWords(m, |m|);
    WordsEndPlain(m, |m|);
  }

  method Validate(name: string) returns (ok: bool)
    ensures ok <==> IsValidName(name)
  {
    if name == "" || |name| > MAX_SKILL_NAME_LEN || name[0] == '-' || name[|name| - 1] == '-' {
      return false;
    }
    for i := 0 to |name|
      invariant forall j | 0 <= j < i :: IsNameLetter(name[j]) || name[j] == '-'
    {
      if !(IsNameLetter(name[i]) || name[i] == '-') {
        return false;
      }
    }
    return true;
  }

  lemma {:induction false} BufferPrefix(a: string, b: string, n: nat)
    requires n <= |a| && a <= b
    ensures Buffer(a, n) == Buffer(b, n)
  {
    if n > 0 {
      BufferPrefix(a, b, n - 1);
    }
  }

  lemma {:induction false} BufferStep(m: string, c: char)
    ensures var before := Buffer(m, |m|);
            Buffer(m + [c], |m| + 1)
            == if c == '-' && (before == "" || EndsWithDash(before)) then before else before + [c]
  {
    BufferPrefix(m, m + [c], |m|);
  }

  // ---------- the buffer holds the words ----------

  predicate IsMapped(m: string) {
    forall i | 0 <= i < |m| :: IsNameLetter(m[i]) || m[i] == '-'
  }

  lemma {:induction false} MappedChars(s: string, n: nat)
    requires n <= |s|
    ensures IsMapped(MapFirst(s, n))
  {
    if n > 0 {
      MappedChars(s, n - 1);
    }
  }

  ghost predicate PlainWords(words: seq<string>) {
    forall i | 0 <= i < |words| :: words[i] != "" && forall k | 0 <= k < |words[i]| :: words[i][k] != '-'
  }

  lemma {:induction false} WordsArePlain(m: string, n: nat)
    requires n <= |m|
    ensures PlainWords(WordsIn(m, n))
    ensures n > 0 && m[n - 1] != '-' ==> WordsIn(m, n) != []
  {
    if n > 0 {
      WordsArePlain(m, n - 1);
    }
  }

  /** The last word takes one more letter. */
  lemma {:induction false} JoinGrows(words: seq<string>, c: char)
    requires words != []
    ensures JoinDashes(words[..|words| - 1] + [words[|words| - 1] + [c]]) == JoinDashes(words) + [c]
  {
    var rest, last := words[..|words| - 1], words[|words| - 1];
    assert words == rest + [last];
  }

  /** The words joined by single dashes, and a dash when one is pending. */
  ghost predicate HoldsWords(buffer: string, words: seq<string>, pending: bool) {
    buffer == if pending && words != [] then JoinDashes(words) + ['-'] else JoinDashes(words)
  }

  lemma {:induction false} BufferIsWords(m: string, n: nat)
    requires n <= |m|
    ensures HoldsWords(Buffer(m, n), WordsIn(m, n), n > 0 && m[n - 1] == '-')
  {
    if n > 0 {
      BufferIsWords(m, n - 1);
      WordsArePlain(m, n - 1);
      WordsEndPlain(m, n - 1);
      var words, c := WordsIn(m, n - 1), m[n - 1];
      if c != '-' {
        if words != [] && m[n - 2] != '-' {
          JoinGrows(words, c);
        } else {
          assert JoinDashes(words) + ['-'] + [c] == JoinDashes(words) + "-" + [c];
        }
      }
    }
  }

  lemma {:induction false} WordsEndPlain(m: string, n: nat)
    requires n <= |m|
    ensures !EndsWithDash(JoinDashes(WordsIn(m, n)))
    ensures JoinDashes(WordsIn(m, n)) == "" <==> WordsIn(m, n) == []
  {
    WordsArePlain(m, n);
  }

  // ---------- what the result is ----------

  predicate NoDoubleDash(s: string) {
    forall i | 0 <= i < |s| - 1 :: !(s[i] == '-' && s[i + 1] == '-')
  }

  lemma {:induction false} BufferShape(m: string, n: nat)
    requires n <= |m| && IsMapped(m)
    ensures IsMapped(Buffer(m, n)) && NoDoubleDash(Buffer(m, n)) && (Buffer(m, n) != "" ==> Buffer(m, n)[0] != '-')
    ensures Buffer(m, n) == "" <==> forall i | 0 <= i < n :: m[i] == '-'
  {
    if n > 0 {
      BufferShape(m, n - 1);
    }
  }

  lemma {:induction false} CutShape(s: string)
    requires IsMapped(s) && NoDoubleDash(s) && (s != "" ==> s[0] != '-' && s[|s| - 1] != '-')
    ensures IsMapped(Cut(s)) && NoDoubleDash(Cut(s)) && |Cut(s)| <= MAX_SKILL_NAME_LEN
    ensures s == "" <==> Cut(s) == ""
    ensures Cut(s) != "" ==> Cut(s)[0] != '-' && Cut(s)[|Cut(s)| - 1] != '-'
  {
    if |s| > MAX_SKILL_NAME_LEN {
      TrimShape(s[..MAX_SKILL_NAME_LEN]);
    }
  }

  lemma {:induction false} TrimShape(s: string)
    ensures TrimDashes(s) <= s
    ensures TrimDashes(s) != "" ==> TrimDashes(s)[|TrimDashes(s)| - 1] != '-'
    ensures s != "" && s[0] != '-' ==> TrimDashes(s) != ""
  {
    if s != "" && s[|s| - 1] == '-' {
      TrimShape(s[..|s| - 1]);
    }
  }

  lemma {:induction false} JoinedShape(input: string)
    ensures var s := JoinDashes(Words(Mapped(Expand(input))));
            && IsMapped(s) && NoDoubleDash(s) && (s != "" ==> s[0] != '-' && s[|s| - 1] != '-')
            && (s == "" <==> AllDashes(Mapped(Expand(input))))
  {
    var m := Mapped(Expand(input));
    MappedChars(Expand(input), |Expand(input)|);
    BufferShape(m, |m|);
    BufferIsWords(m, |m|);
    WordsEndPlain(m, |m|);
    assert JoinDashes(Words(m)) <= Buffer(m, |m|);
  }

  /** A slug is a valid name. */
  lemma {:induction false} SlugIsValid(input: string)
    ensures Slug(input).Some? ==> IsValidName(Slug(input).value) && NoDoubleDash(Slug(input).value)
  {
    JoinedShape(input);
    CutShape(JoinDashes(Words(Mapped(Expand(input)))));
  }

  predicate Speaks(input: string) {
    exists i :: 0 <= i < |input| && (IsAlphanumeric(input[i]) || input[i] == '&')
  }

  predicate AllDashes(m: string) {
    forall i | 0 <= i < |m| :: m[i] == '-'
  }

  predicate Silent(s: string, n: nat)
    requires n <= |s|
  {
    forall i | 0 <= i < n :: !IsAlphanumeric(s[i])
  }

  lemma {:induction false} OneMore(m: string, c: char)
    ensures AllDashes(m + [c]) <==> AllDashes(m) && c == '-'
  {
    assert (m + [c])[|m|] == c;
    assert forall i | 0 <= i < |m| :: (m + [c])[i] == m[i];
  }

  lemma {:induction false} MappedSpeaks(s: string, n: nat)
    requires n <= |s|
    ensures AllDashes(MapFirst(s, n)) <==> Silent(s, n)
  {
    if n > 0 {
      MappedSpeaks(s, n - 1);
      var m, c := MapFirst(s, n - 1), s[n - 1];
      assert Silent(s, n) <==> Silent(s, n - 1) && !IsAlphanumeric(c);
      OneMore(m, Lower(c));
      OneMore(m, '-');
    }
  }

  lemma {:induction false} ExpandSpeaks(s: string, n: nat)
    requires n <= |s|
    ensures (exists i :: 0 <= i < |ExpandFirst(s, n)| && IsAlphanumeric(ExpandFirst(s, n)[i]))
            <==> exists i :: 0 <= i < n && (IsAlphanumeric(s[i]) || s[i] == '&')
  {
    if n > 0 {
      ExpandSpeaks(s, n - 1);
      var e, r := ExpandFirst(s, n), ExpandFirst(s, n - 1);
      assert forall i | 0 <= i < |r| :: e[i] == r[i];
      if s[n - 1] == '&' {
        assert e[|r| + 1] == 'a';
      } else {
        assert e[|r|] == s[n - 1] && |e| == |r| + 1;
      }
    }
  }

  /** There is no slug exactly when the text has neither an ASCII letter or digit
      nor an ampersand. */
  lemma {:induction false} NoSlugIff(input: string)
    ensures Slug(input).None? <==> !Speaks(input)
  {
    var e := Expand(input);
    JoinedShape(input);
    CutShape(JoinDashes(Words(Mapped(e))));
    MappedSpeaks(e, |e|);
    ExpandSpeaks(input, |input|);
    assert Slug(input).None? <==> Silent(e, |e|);
  }

  lemma {:induction false} PlainExpand(s: string, n: nat)
    requires n <= |s| && '&' !in s
    ensures |ExpandFirst(s, n)| == n && forall i | 0 <= i < n :: ExpandFirst(s, n)[i] == s[i]
  {
    if n > 0 {
      PlainExpand(s, n - 1);
    }
  }

  lemma {:induction false} PlainMapped(s: string, n: nat)
    requires n <= |s| && IsMapped(s)
    ensures |MapFirst(s, n)| == n && forall i | 0 <= i < n :: MapFirst(s, n)[i] == s[i]
  {
    if n > 0 {
      PlainMapped(s, n - 1);
    }
  }

  lemma {:induction false} PlainBuffer(s: string, n: nat)
    requires n <= |s| && NoDoubleDash(s) && (s != "" ==> s[0] != '-')
    ensures |Buffer(s, n)| == n && forall i | 0 <= i < n :: Buffer(s, n)[i] == s[i]
  {
    if n > 0 {
      PlainBuffer(s, n - 1);
    }
  }

  /** Among valid names the slugs are those without a double dash, and exactly
      they are their own slugs. */
  lemma {:induction false} OwnSlugIff(name: string)
    requires IsValidName(name)
    ensures Slug(name) == Some(name) <==> NoDoubleDash(name)
  {
    if NoDoubleDash(name) {
      PlainExpand(name, |name|);
      PlainMapped(name, |name|);
      assert Expand(name) == name && Mapped(name) == name;
      PlainBuffer(name, |name|);
      assert Buffer(name, |name|) == name;
      BufferIsWords(name, |name|);
      WordsEndPlain(name, |name|);
    } else {
      SlugIsValid(name);
    }
  }

  /** Such a name: the second dash of its slug is gone. */
  lemma {:induction false} DoubleDashIsLost()
    ensures IsValidName("a--b") && Slug("a--b") != Some("a--b")
  {
    var name := "a--b";
    assert name[1] == name[2] == '-';
    OwnSlugIff(name);
  }

  /** Slugging a slug changes nothing. */
  lemma {:induction false} SlugTwice(input: string)
    ensures Slug(input).Some? ==> Slug(Slug(input).value) == Slug(input)
  {
    SlugIsValid(input);
    if Slug(input).Some? {
      OwnSlugIff(Slug(input).value);
    }
  }
}
