/** Bit strings of the TCF consent string: fixed-width integers and flags. The
    bundle keeps bits in a string of '0' and '1'; here they are booleans. Every
    other part of the codec reads at a cursor, so the lemmas say what a read finds
    where a chunk was written, and where the chunks of a concatenation stand,
    whatever follows them. */
module TcfBits {
  import opened Wrappers

  type Bits = seq<bool>

  datatype CodecError = EncodingError | DecodingError | ModelError

  type Coded<T> = Result<T, CodecError>

  function Pow2(n: nat): (r: nat)
    ensures r >= 1
  {
    if n == 0 then 1 else 2 * Pow2(n - 1)
  }

  /** The `n` digits from `from` on as a numeral of base two. */
  function ValueAt(bits: Bits, from: nat, n: nat): nat
    requires from + n <= |bits|
  {
    if n == 0 then 0 else 2 * ValueAt(bits, from, n - 1) + if bits[from + n - 1] then 1 else 0
  }

  /** Writing a numeral of base two, without leading zeros; zero is one digit. */
  function Digits(n: nat): (r: Bits)
    ensures |r| > 0
  {
    if n < 2 then [n == 1] else Digits(n / 2) + [n % 2 == 1]
  }

  function Zeros(n: nat): Bits {
    seq(n, _ => false)
  }

  // ---------- integers ----------

  function EncodeInt(n: int, width: nat): Coded<Bits> {
    if n < 0 then Err(EncodingError)
    else
      var digits := Digits(n);
      if |digits| > width then Err(EncodingError) else Ok(Zeros(width - |digits|) + digits)
  }

  function DecodeInt(bits: Bits, width: nat): Coded<nat> {
    if |bits| != width then Err(DecodingError) else Ok(ValueAt(bits, 0, width))
  }

  lemma {:induction false} ValueBounded(bits: Bits, from: nat, n: nat)
    requires from + n <= |bits|
    ensures ValueAt(bits, from, n) < Pow2(n)
  {
    if n > 0 {
      ValueBounded(bits, from, n - 1);
    }
  }

  /** `chunk` stands in `bits` at the cursor. */
  ghost predicate At(bits: Bits, pos: nat, chunk: Bits) {
    && pos + |chunk| <= |bits|
    && forall i | 0 <= i < |chunk| :: chunk[i] == bits[pos + i]
  }

  /** A numeral has the same value wherever it stands. */
  lemma {:induction false} ValueMoves(bits: Bits, pos: nat, chunk: Bits, n: nat)
    requires At(bits, pos, chunk) && n <= |chunk|
    ensures ValueAt(bits, pos, n) == ValueAt(chunk, 0, n)
  {
    if n > 0 {
      ValueMoves(bits, pos, chunk, n - 1);
    }
  }

  lemma {:induction false} ValueOfDigits(n: nat)
    ensures ValueAt(Digits(n), 0, |Digits(n)|) == n
  {
    if n >= 2 {
      ValueOfDigits(n / 2);
      ValueMoves(Digits(n), 0, Digits(n / 2), |Digits(n / 2)|);
    } else {
      assert ValueAt(Digits(n), 0, 0) == 0;
    }
  }

  lemma {:induction false} LeadingZeros(bits: Bits, zeros: nat, n: nat)
    requires zeros + n <= |bits| && forall k | 0 <= k < zeros :: !bits[k]
    ensures ValueAt(bits, 0, zeros + n) == ValueAt(bits, zeros, n)
  {
    if n > 0 {
      LeadingZeros(bits, zeros, n - 1);
    } else if zeros > 0 {
      LeadingZeros(bits, zeros - 1, 0);
    }
  }

  lemma {:induction false} DigitsFit(n: nat, width: nat)
    requires width > 0
    ensures |Digits(n)| <= width <==> n < Pow2(width)
  {
    if n >= 2 {
      if width > 1 {
        DigitsFit(n / 2, width - 1);
      } else {
        assert Pow2(1) == 2 * Pow2(0);
      }
    } else {
      assert Pow2(width) == 2 * Pow2(width - 1);
    }
  }

  /** The numeral of a value is unique among numerals of the same width. */
  lemma {:induction false} ValueInjective(a: Bits, b: Bits, n: nat)
    requires n <= |a| && n <= |b| && ValueAt(a, 0, n) == ValueAt(b, 0, n)
    ensures forall i | 0 <= i < n :: a[i] == b[i]
  {
    if n > 0 {
      ValueInjective(a, b, n - 1);
    }
  }

  /** Encoding succeeds exactly on the numbers that fit, and decoding undoes it. */
  lemma {:induction false} IntRoundTrip(n: int, width: nat)
    requires width > 0
    ensures EncodeInt(n, width).Ok? <==> 0 <= n < Pow2(width)
    ensures EncodeInt(n, width).Ok? ==>
              |EncodeInt(n, width).value| == width && DecodeInt(EncodeInt(n, width).value, width) == Ok(n)
  {
    if n >= 0 {
      DigitsFit(n, width);
      ValueOfDigits(n);
      var digits := Digits(n);
      if |digits| <= width {
        var zeros := width - |digits|;
        LeadingZeros(Zeros(zeros) + digits, zeros, |digits|);
        ValueMoves(Zeros(zeros) + digits, zeros, digits, |digits|);
      }
    }
  }

  /** Encoding undoes decoding: no two bit strings stand for one number. */
  lemma {:induction false} BitsRoundTrip(bits: Bits, width: nat)
    requires width > 0 && DecodeInt(bits, width).Ok?
    ensures EncodeInt(DecodeInt(bits, width).value, width) == Ok(bits)
  {
    var n := DecodeInt(bits, width).value;
    ValueBounded(bits, 0, width);
    IntRoundTrip(n, width);
    var again := EncodeInt(n, width).value;
    ValueInjective(again, bits, width);
    assert again == bits;
  }

  // ---------- flags ----------

  function EncodeFlag(b: bool): Bits {
    [b]
  }

  /** Only a single one-bit is true; past the end of the string it is false. */
  function DecodeFlag(bits: Bits): bool {
    bits == [true]
  }

  // ---------- cursor ----------

  /** `substr`: as much of the slice as there is. */
  function Sub(bits: Bits, from: nat, count: nat): Bits {
    var n := if from >= |bits| then 0 else if from + count <= |bits| then count else |bits| - from;
    seq(n, i requires 0 <= i < n => bits[from + i])
  }

  /** Decoding the `width` bits at the cursor. */
  function ReadInt(bits: Bits, from: nat, width: nat): Coded<nat> {
    if from + width > |bits| then Err(DecodingError) else Ok(ValueAt(bits, from, width))
  }

  function ReadFlag(bits: Bits, from: nat): bool {
    from < |bits| && bits[from]
  }

  lemma {:induction false} ReadIsDecodeOfSub(bits: Bits, from: nat, width: nat)
    requires width > 0
    ensures ReadInt(bits, from, width) == DecodeInt(Sub(bits, from, width), width)
    ensures ReadFlag(bits, from) == DecodeFlag(Sub(bits, from, 1))
  {
    if from + width <= |bits| {
      ValueMoves(bits, from, Sub(bits, from, width), width);
    }
    if from < |bits| {
      assert Sub(bits, from, 1) == [bits[from]];
    }
  }

  lemma {:induction false} AtSplit(bits: Bits, pos: nat, a: Bits, b: Bits)
    requires At(bits, pos, a + b)
    ensures At(bits, pos, a) && At(bits, pos + |a|, b)
  {
    forall i | 0 <= i < |a| ensures a[i] == bits[pos + i] {
      assert (a + b)[i] == a[i];
    }
    forall i | 0 <= i < |b| ensures b[i] == bits[pos + |a| + i] {
      assert (a + b)[|a| + i] == b[i];
    }
  }

  lemma {:induction false} SubAt(bits: Bits, pos: nat, chunk: Bits)
    requires At(bits, pos, chunk)
    ensures Sub(bits, pos, |chunk|) == chunk
  {
  }

  /** Reading an integer where one was written. */
  lemma {:induction false} ReadWritten(bits: Bits, pos: nat, n: int, width: nat)
    requires width > 0 && EncodeInt(n, width).Ok? && At(bits, pos, EncodeInt(n, width).value)
    ensures |EncodeInt(n, width).value| == width && n >= 0
    ensures ReadInt(bits, pos, width) == Ok(n)
  {
    IntRoundTrip(n, width);
    ValueMoves(bits, pos, EncodeInt(n, width).value, width);
  }

  lemma {:induction false} ReadWrittenFlag(bits: Bits, pos: nat, b: bool)
    requires At(bits, pos, EncodeFlag(b))
    ensures ReadFlag(bits, pos) == b
  {
    assert EncodeFlag(b)[0] == bits[pos + 0];
  }

  // ---------- chunks in a row ----------

  /** The first `n` chunks, one after the other. */
  function Concat(chunks: seq<Coded<Bits>>, n: nat): Coded<Bits>
    requires n <= |chunks|
  {
    if n == 0 then Ok([])
    else
      var before := Concat(chunks, n - 1);
      if before.Err? || chunks[n - 1].Err? then Err(EncodingError) else Ok(before.value + chunks[n - 1].value)
  }

  /** Where the n-th chunk starts. */
  ghost function Upto(chunks: seq<Coded<Bits>>, n: nat): nat
    requires n <= |chunks|
  {
    if n == 0 then 0
    else Upto(chunks, n - 1) + if chunks[n - 1].Ok? then |chunks[n - 1].value| else 0
  }

  lemma {:induction false} ConcatLength(chunks: seq<Coded<Bits>>, n: nat)
    requires n <= |chunks| && Concat(chunks, n).Ok?
    ensures |Concat(chunks, n).value| == Upto(chunks, n)
  {
    if n > 0 {
      ConcatLength(chunks, n - 1);
    }
  }

  lemma {:induction false} ConcatAt(bits: Bits, pos: nat, chunks: seq<Coded<Bits>>, n: nat, k: nat)
    requires k < n <= |chunks|
    requires Concat(chunks, n).Ok? && At(bits, pos, Concat(chunks, n).value)
    ensures chunks[k].Ok? && At(bits, pos + Upto(chunks, k), chunks[k].value)
  {
    var before := Concat(chunks, n - 1).value;
    AtSplit(bits, pos, before, chunks[n - 1].value);
    if k < n - 1 {
      ConcatAt(bits, pos, chunks, n - 1, k);
    } else {
      ConcatLength(chunks, k);
    }
  }

  lemma {:induction false} ConcatOk(chunks: seq<Coded<Bits>>, n: nat, k: nat)
    requires k < n <= |chunks| && Concat(chunks, n).Ok?
    ensures chunks[k].Ok?
  {
    if k < n - 1 {
      ConcatOk(chunks, n - 1, k);
    }
  }

  lemma {:induction false} ConcatErrorStays(chunks: seq<Coded<Bits>>, i: nat, n: nat)
    requires i <= n <= |chunks| && Concat(chunks, i).Err?
    ensures Concat(chunks, n).Err?
  {
    if i < n {
      ConcatErrorStays(chunks, i, n - 1);
    }
  }
}
