/** The base64url layer of the consent string (alphabet of section 5 of
    RFC 4648), with the bundle's zero padding to whole groups of four. Encoding
    pads the bits to a multiple of 24, which is four letters of six bits, so
    decoding gives back the bits followed by the padding, and no string needs
    the `=` letter. */
module TcfBase64 {
  import opened Wrappers
  import opened TcfBits

  const BASIS := 6
  const LCM := 24

  function CharAt(i: nat): char
    requires i < 64
  {
    if i < 26 then 'A' + i as char
    else if i < 52 then 'a' + (i - 26) as char
    else if i < 62 then '0' + (i - 52) as char
    else if i == 62 then '-'
    else '_'
  }

  function IndexOf(c: char): (r: Option<nat>)
    ensures r.Some? ==> r.value < 64
  {
    if 'A' <= c <= 'Z' then Some((c - 'A') as nat)
    else if 'a' <= c <= 'z' then Some((c - 'a') as nat + 26)
    else if '0' <= c <= '9' then Some((c - '0') as nat + 52)
    else if c == '-' then Some(62)
    else if c == '_' then Some(63)
    else None
  }

  /** Zeros up to the next multiple of 24 bits. */
  function Padded(bits: Bits): Bits {
    var t := |bits| % LCM;
    if t == 0 then bits else bits + Zeros(LCM - t)
  }

  /** How many groups of six bits, and so characters, that makes. */
  function Groups(bits: Bits): (r: nat)
    ensures r * BASIS == |Padded(bits)|
    ensures r % 4 == 0
  {
    var t := |bits| % LCM;
    assert |Padded(bits)| == |bits| - t + if t == 0 then 0 else LCM;
    (|bits| / LCM + if t == 0 then 0 else 1) * 4
  }

  /** The group of six bits at `s`, as a number. */
  function Group(bits: Bits, s: nat): (r: nat)
    requires s + BASIS <= |bits|
    ensures r < 64
  {
    ValueBounded(bits, s, BASIS);
    assert Pow2(BASIS) == 64;
    ValueAt(bits, s, BASIS)
  }

  /** The characters of the first `n` groups. */
  function Chars(bits: Bits, n: nat): string
    requires n * BASIS <= |bits|
  {
    if n == 0 then "" else Chars(bits, n - 1) + [CharAt(Group(bits, (n - 1) * BASIS))]
  }

  /** The bundle refuses to encode nothing. */
  function Encode(bits: Bits): Coded<string> {
    if bits == [] then Err(EncodingError) else Ok(Chars(Padded(bits), Groups(bits)))
  }

  function SixBits(c: char): Coded<Bits> {
    if IndexOf(c).None? then Err(DecodingError) else EncodeInt(IndexOf(c).value, BASIS)
  }

  /** The bits of the first `n` characters. */
  function BitsOf(s: string, n: nat): Coded<Bits>
    requires n <= |s|
  {
    if n == 0 then Ok([])
    else
      var before := BitsOf(s, n - 1);
      var last := SixBits(s[n - 1]);
      if before.Err? || last.Err? then Err(DecodingError) else Ok(before.value + last.value)
  }

  function Decode(s: string): Coded<Bits> {
    if s == "" then Err(DecodingError) else BitsOf(s, |s|)
  }

  /** The encoder, group by group as the bundle runs it. */
  method EncodeLoop(bits: Bits) returns (r: Coded<string>)
    ensures r == Encode(bits)
  {
    if bits == [] {
      return Err(EncodingError);
    }
    var padded := Padded(bits);
    var chars, s := "", 0;
    ghost var n := 0;
    while s < |padded|
      invariant n <= Groups(bits) && s == n * BASIS
      invariant chars == Chars(padded, n)
      decreases |padded| - s
    {
      chars := chars + [CharAt(Group(padded, s))];
      s := s + BASIS;
      n := n + 1;
    }
    return Ok(chars);
  }

  method DecodeLoop(s: string) returns (r: Coded<Bits>)
    ensures r == Decode(s)
  {
    if s == "" {
      return Err(DecodingError);
    }
    for i := 0 to |s|
      invariant forall j | 0 <= j < i :: IndexOf(s[j]).Some?
    {
      if IndexOf(s[i]).None? {
        NotDecodable(s, i, |s|);
        return Err(DecodingError);
      }
    }
    var bits: Bits := [];
    for i := 0 to |s|
      invariant BitsOf(s, i) == Ok(bits)
    {
      KnownChar(s[i]);
      bits := bits + SixBits(s[i]).value;
    }
    return Ok(bits);
  }

  lemma {:induction false} NotDecodable(s: string, i: nat, n: nat)
    requires i < n <= |s| && IndexOf(s[i]).None?
    ensures BitsOf(s, n) == Err(DecodingError)
  {
    if i < n - 1 {
      NotDecodable(s, i, n - 1);
    }
  }

  lemma {:induction false} KnownChar(c: char)
    requires IndexOf(c).Some?
    ensures SixBits(c).Ok? && |SixBits(c).value| == BASIS
  {
    assert Pow2(BASIS) == 64;
    IntRoundTrip(IndexOf(c).value, BASIS);
  }

  /** The character of a group decodes to the group. */
  lemma {:induction false} GroupRoundTrip(bits: Bits, s: nat)
    requires s + BASIS <= |bits|
    ensures SixBits(CharAt(Group(bits, s))) == Ok(Sub(bits, s, BASIS))
  {
    ReadIsDecodeOfSub(bits, s, BASIS);
    BitsRoundTrip(Sub(bits, s, BASIS), BASIS);
  }

  /** The bits of the first `k` characters are the bits encoded so far. */
  ghost predicate Restored(bits: Bits, s: string, k: nat)
    requires k <= |s|
  {
    BitsOf(s, k).Ok? && |BitsOf(s, k).value| == k * BASIS && At(bits, 0, BitsOf(s, k).value)
  }

  lemma {:induction false} NextGroup(bits: Bits, s: string, k: nat)
    requires k < |s| && (k + 1) * BASIS <= |bits| && s[k] == CharAt(Group(bits, k * BASIS))
    requires Restored(bits, s, k)
    ensures Restored(bits, s, k + 1)
  {
    GroupRoundTrip(bits, k * BASIS);
  }

  lemma {:induction false} CharsRoundTrip(bits: Bits, n: nat, k: nat)
    requires k <= n && n * BASIS <= |bits|
    ensures |Chars(bits, n)| == n && Restored(bits, Chars(bits, n), k)
  {
    CharsLength(bits, n);
    if k > 0 {
      CharsRoundTrip(bits, n, k - 1);
      CharsAt(bits, n, k - 1);
      NextGroup(bits, Chars(bits, n), k - 1);
    }
  }

  lemma {:induction false} CharsLength(bits: Bits, n: nat)
    requires n * BASIS <= |bits|
    ensures |Chars(bits, n)| == n
  {
    if n > 0 {
      CharsLength(bits, n - 1);
    }
  }

  lemma {:induction false} CharsAt(bits: Bits, n: nat, i: nat)
    requires i < n && n * BASIS <= |bits|
    ensures |Chars(bits, n)| == n && Chars(bits, n)[i] == CharAt(Group(bits, i * BASIS))
  {
    CharsLength(bits, n);
    CharsLength(bits, n - 1);
    if i < n - 1 {
      CharsAt(bits, n - 1, i);
    }
  }

  /** Decoding gives back the bits, followed by at most 23 zeros. */
  lemma {:induction false} Base64RoundTrip(bits: Bits)
    requires bits != []
    ensures Encode(bits).Ok?
    ensures exists zeros | 0 <= zeros < LCM :: Decode(Encode(bits).value) == Ok(bits + Zeros(zeros))
  {
    var padded, n := Padded(bits), Groups(bits);
    CharsRoundTrip(padded, n, n);
    assert BitsOf(Chars(padded, n), n).value == padded;
    PaddedIs(bits);
  }

  lemma {:induction false} PaddedIs(bits: Bits)
    ensures exists zeros | 0 <= zeros < LCM :: Padded(bits) == bits + Zeros(zeros)
  {
    var t := |bits| % LCM;
    var zeros := if t == 0 then 0 else LCM - t;
    assert Padded(bits) == bits + Zeros(zeros);
  }
}
