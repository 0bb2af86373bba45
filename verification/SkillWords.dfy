/** What the slug of a text is, by laws that settle it for every text: what a run of
    letters and digits gives, a separator, an ampersand and any other character,
    and where a long slug is cut. */
module SkillWords {
  import opened Wrappers
  import opened SkillNames

  function WordsOf(s: string): seq<string> {
    Words(Mapped(Expand(s)))
  }

  // ---------- one part after the other ----------

  lemma {:induction false} ExpandAppend(a: string, b: string, n: nat)
    requires n <= |b|
    ensures ExpandFirst(a + b, |a| + n) == Expand(a) + ExpandFirst(b, n)
  {
    if n == 0 {
      ExpandPrefix(a, b, |a|);
    } else {
      ExpandAppend(a, b, n - 1);
    }
  }

  lemma {:induction false} ExpandPrefix(a: string, b: string, n: nat)
    requires n <= |a|
    ensures ExpandFirst(a + b, n) == ExpandFirst(a, n)
  {
    if n > 0 {
      ExpandPrefix(a, b, n - 1);
    }
  }

  lemma {:induction false} MapAppend(a: string, b: string, n: nat)
    requires n <= |b|
    ensures MapFirst(a + b, |a| + n) == Mapped(a) + MapFirst(b, n)
  {
    if n == 0 {
      MapPrefix(a, b, |a|);
    } else {
      MapAppend(a, b, n - 1);
    }
  }

  lemma {:induction false} MapPrefix(a: string, b: string, n: nat)
    requires n <= |a|
    ensures MapFirst(a + b, n) == MapFirst(a, n)
  {
    if n > 0 {
      MapPrefix(a, b, n - 1);
    }
  }

  lemma {:induction false} MappedAppend(a: string, b: string)
    ensures Mapped(Expand(a + b)) == Mapped(Expand(a)) + Mapped(Expand(b))
  {
    ExpandAppend(a, b, |b|);
    MapAppend(Expand(a), Expand(b), |Expand(b)|);
  }

  lemma {:induction false} MappedAround(a: string, mid: string, b: string)
    ensures Mapped(Expand(a + mid + b)) == Mapped(Expand(a)) + Mapped(Expand(mid)) + Mapped(Expand(b))
  {
    MappedAppend(a + mid, b);
    MappedAppend(a, mid);
  }

  lemma {:induction false} MappedOne(c: char)
    requires c != '&'
    ensures Mapped(Expand([c])) == if IsAlphanumeric(c) then [Lower(c)] else if c == ' ' || c == '-' then "-" else ""
  {
    assert ExpandFirst([c], 0) == "" && Expand([c]) == "" + [c] == [c];
    assert MapFirst([c], 0) == "";
  }

  lemma {:induction false} WordsPrefix(a: string, s: string, n: nat)
    requires n <= |a| && a <= s
    ensures WordsIn(s, n) == WordsIn(a, n)
  {
    if n > 0 {
      WordsPrefix(a, s, n - 1);
    }
  }

  lemma {:induction false} LastGrows(before: seq<string>, words: seq<string>, c: char)
    requires words != []
    ensures var all := before + words;
            all[..|all| - 1] + [all[|all| - 1] + [c]] == before + (words[..|words| - 1] + [words[|words| - 1] + [c]])
  {
    var all := before + words;
    assert all[..|all| - 1] == before + words[..|words| - 1];
  }

  /** `b` stands in `s` behind a dash at `k`. */
  predicate Behind(s: string, k: nat, b: string) {
    k + 1 + |b| <= |s| && s[k] == '-' && forall i {:trigger b[i]} | 0 <= i < |b| :: s[k + 1 + i] == b[i]
  }

  lemma {:induction false} Neighbours(s: string, k: nat, b: string, n: nat)
    requires Behind(s, k, b) && 0 < n <= |b|
    ensures s[k + n] == b[n - 1] && s[k + n - 1] == if n == 1 then '-' else b[n - 2]
  {
  }

  lemma {:induction false} WordsBehind(s: string, k: nat, b: string, n: nat, i: nat)
    requires Behind(s, k, b) && n <= |b| && i == k + 1 + n
    ensures WordsIn(s, i) == WordsIn(s, k) + WordsIn(b, n)
  {
    if n > 0 {
      WordsBehind(s, k, b, n - 1, i - 1);
      WordsArePlain(b, n - 1);
      Neighbours(s, k, b, n);
      OneBehind(s, i - 1, b, n - 1, WordsIn(s, k));
    }
  }

  lemma {:induction false} OneBehind(s: string, i: nat, b: string, j: nat, before: seq<string>)
    requires 0 < i < |s| && j < |b| && s[i] == b[j] && s[i - 1] == if j == 0 then '-' else b[j - 1]
    requires WordsIn(s, i) == before + WordsIn(b, j)
    requires j > 0 && b[j - 1] != '-' ==> WordsIn(b, j) != []
    ensures WordsIn(s, i + 1) == before + WordsIn(b, j + 1)
  {
    var words, c := WordsIn(b, j), b[j];
    if c != '-' {
      if words != [] && b[j - 1] != '-' {
        LastGrows(before, words, c);
      } else {
        assert before + words + [[c]] == before + (words + [[c]]);
      }
    }
  }

  lemma {:induction false} IsBehind(a: string, b: string)
    ensures var s := a + "-" + b; Behind(s, |a|, b) && |s| == |a| + 1 + |b| && a <= s
  {
    var s := a + "-" + b;
    assert s[|a|] == '-';
    forall i | 0 <= i < |b| ensures s[|a| + 1 + i] == b[i] {
    }
  }

  /** A dash ends a word. */
  lemma {:induction false} WordsApart(a: string, b: string)
    ensures Words(a + "-" + b) == Words(a) + Words(b)
  {
    IsBehind(a, b);
    WordsStand(a + "-" + b, a, b);
  }

  lemma {:induction false} WordsStand(s: string, a: string, b: string)
    requires Behind(s, |a|, b) && |s| == |a| + 1 + |b| && a <= s
    ensures Words(s) == Words(a) + Words(b)
  {
    WordsPrefix(a, s, |a|);
    WordsBehind(s, |a|, b, |b|, |s|);
  }

  lemma {:induction false} OneLetter(m: string, n: nat, word: string)
    requires 0 < n < |m| && m[n - 1] != '-' && m[n] != '-' && WordsIn(m, n) == [word]
    ensures WordsIn(m, n + 1) == [word + [m[n]]]
  {
    assert [word][..0] + [word + [m[n]]] == [word + [m[n]]];
  }

  lemma {:induction false} OneWord(m: string, n: nat)
    requires 0 < n <= |m| && forall i | 0 <= i < n :: m[i] != '-'
    ensures WordsIn(m, n) == [m[..n]]
  {
    if n == 1 {
      assert WordsIn(m, 0) == [] && m[..1] == [m[0]];
    } else {
      OneWord(m, n - 1);
      OneLetter(m, n - 1, m[..n - 1]);
      assert m[..n] == m[..n - 1] + [m[n - 1]];
    }
  }

  // ---------- the laws ----------

  /** ASCII letters and digits, by their codes. */
  predicate IsLetterOrDigit(c: char) {
    48 <= c as int <= 57 || 65 <= c as int <= 90 || 97 <= c as int <= 122
  }

  /** In lower case. */
  predicate IsLowered(c: char, d: char) {
    d as int == c as int + if 65 <= c as int <= 90 then 32 else 0
  }

  /** Spaces and hyphens separate. */
  lemma {:induction false} SeparatorLaw(a: string, c: char, b: string)
    requires c == ' ' || c == '-'
    ensures WordsOf(a + [c] + b) == WordsOf(a) + WordsOf(b)
  {
    MappedAround(a, [c], b);
    MappedOne(c);
    WordsApart(Mapped(Expand(a)), Mapped(Expand(b)));
  }

  /** An ampersand is the word "and". */
  lemma {:induction false} AmpersandLaw(a: string, b: string)
    ensures WordsOf(a + "&" + b) == WordsOf(a) + ["and"] + WordsOf(b)
  {
    MappedAround(a, "&", b);
    MappedAmpersand();
    AndBetween(Mapped(Expand(a)), Mapped(Expand(b)));
  }

  lemma {:induction false} MappedAmpersand()
    ensures Mapped(Expand("&")) == "-and-"
  {
    assert ExpandFirst("&", 0) == "";
    assert Expand("&") == "-and-";
    PlainMapped("-and-", 5);
  }

  lemma {:induction false} AndBetween(m: string, n: string)
    ensures Words(m + "-and-" + n) == Words(m) + ["and"] + Words(n)
  {
    var tail := "and" + "-" + n;
    assert m + "-and-" + n == m + "-" + tail;
    WordsApart(m, tail);
    WordsApart("and", n);
    OneWord("and", 3);
    assert "and"[..3] == "and";
    assert Words(m) + (["and"] + Words(n)) == Words(m) + ["and"] + Words(n);
  }

  /** Any other character goes without a trace. */
  lemma {:induction false} DropLaw(a: string, c: char, b: string)
    requires !IsLetterOrDigit(c) && c != ' ' && c != '-' && c != '&'
    ensures WordsOf(a + [c] + b) == WordsOf(a + b)
  {
    MappedAround(a, [c], b);
    MappedOne(c);
    MappedAppend(a, b);
    assert Mapped(Expand(a)) + "" + Mapped(Expand(b)) == Mapped(Expand(a)) + Mapped(Expand(b));
  }

  lemma {:induction false} LettersMapped(s: string, n: nat)
    requires n <= |s| && forall i | 0 <= i < |s| :: IsLetterOrDigit(s[i])
    ensures |MapFirst(s, n)| == n
    ensures forall i | 0 <= i < n :: IsLowered(s[i], MapFirst(s, n)[i]) && MapFirst(s, n)[i] != '-'
  {
    if n > 0 {
      LettersMapped(s, n - 1);
      assert IsAlphanumeric(s[n - 1]);
    }
  }

  /** A run of letters and digits is a word, in lower case; no text has no words. */
  lemma {:induction false} RunLaw(s: string)
    requires forall i | 0 <= i < |s| :: IsLetterOrDigit(s[i])
    ensures s == "" ==> WordsOf(s) == []
    ensures s != "" ==>
              |WordsOf(s)| == 1 && |WordsOf(s)[0]| == |s|
              && forall i | 0 <= i < |s| :: IsLowered(s[i], WordsOf(s)[0][i])
  {
    PlainExpand(s, |s|);
    assert Expand(s) == s;
    if s != "" {
      LettersMapped(s, |s|);
      OneWord(Mapped(s), |s|);
    }
  }

  lemma {:induction false} CutIs(s: string)
    requires NoDoubleDash(s)
    ensures Cut(s) == if |s| <= 64 then s else if s[63] == '-' then s[..63] else s[..64]
  {
    if |s| > 64 {
      var t := s[..64];
      assert t[..63] == s[..63] && t[63] == s[63] && t[62] == s[62];
      assert TrimDashes(t) == if t[63] == '-' then TrimDashes(t[..63]) else t;
      assert t[62] != '-' ==> TrimDashes(t[..63]) == t[..63];
    }
  }

  /** The words are joined by dashes and cut to 64 characters, or to 63 where the
      last of them is a dash. */
  lemma {:induction false} CutLaw(s: string)
    ensures var words := WordsOf(s);
            var joined := JoinDashes(words);
            && (Slug(s).None? <==> words == [])
            && (words != [] ==>
                  Slug(s).value == if |joined| <= 64 then joined
                                   else if joined[63] == '-' then joined[..63] else joined[..64])
  {
    JoinedShape(s);
    var joined := JoinDashes(WordsOf(s));
    WordsEndPlain(Mapped(Expand(s)), |Mapped(Expand(s))|);
    CutShape(joined);
    CutIs(joined);
  }

  /** One more word, behind a dash unless it is the first. */
  lemma {:induction false} JoinLaw(words: seq<string>, word: string)
    ensures JoinDashes([word]) == word
    ensures words != [] ==> JoinDashes(words + [word]) == JoinDashes(words) + "-" + word
  {
    if words != [] {
      assert (words + [word])[..|words|] == words;
    }
  }
}
