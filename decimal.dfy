/** Decimal text for 64-bit integers: `toStr` in auth.go, which writes the token
    subject, and `strconv.Atoi`, which the middleware uses to read it back. */
module Decimal {
  import opened Text

  const MinInt64: int := -0x8000_0000_0000_0000
  const MaxInt64: int := 0x7FFF_FFFF_FFFF_FFFF

  predicate IsInt64(v: int) {
    MinInt64 <= v <= MaxInt64
  }

  /** Reduces an integer to the `int64` it becomes after two's-complement wrap-around. */
  function Wrap64(x: int): (r: int)
    ensures IsInt64(r)
    ensures IsInt64(x) ==> r == x
  {
    (x - MinInt64) % 0x1_0000_0000_0000_0000 + MinInt64
  }

  /** Go's unary minus on an `int64`. */
  function Neg64(v: int): int
    requires IsInt64(v)
  {
    Wrap64(-v)
  }

  /** Negation is exact except at the minimum, which wraps back onto itself. */
  lemma Neg64Cases(v: int)
    requires IsInt64(v)
    ensures v != MinInt64 ==> Neg64(v) == -v
    ensures Neg64(MinInt64) == MinInt64
  {
  }

  function Pow10(k: nat): (p: nat)
    ensures p >= 1
  {
    if k == 0 then 1 else 10 * Pow10(k - 1)
  }

  lemma {:induction false} Pow10Add(a: nat, b: nat)
    ensures Pow10(a + b) == Pow10(a) * Pow10(b)
    decreases a
  {
    if a > 0 {
      Pow10Add(a - 1, b);
    }
  }

  /** Every non-negative `int64` is below 10^19. */
  lemma Pow10Nineteen()
    ensures MaxInt64 < Pow10(19)
  {
    assert Pow10(3) == 1000;
    Pow10Add(3, 3);
    Pow10Add(6, 6);
    Pow10Add(12, 6);
  }

  predicate IsDigit(c: char) {
    '0' <= c <= '9'
  }

  predicate AllDigits(s: string) {
    forall i :: 0 <= i < |s| ==> IsDigit(s[i])
  }

  function DigitChar(d: int): (c: char)
    requires 0 <= d < 10
    ensures IsDigit(c)
  {
    ('0' as int + d) as char
  }

  function DigitValue(c: char): (d: int)
    requires IsDigit(c)
    ensures 0 <= d < 10 && DigitChar(d) == c
  {
    c as int - '0' as int
  }

  /** The characters the loop of `toStr` writes for a starting value `n`, least
      significant digit last; nothing at all when `n` is not positive. */
  function Digits(n: int): string
    decreases if n < 0 then 0 else n
  {
    if n <= 0 then [] else Digits(n / 10) + [DigitChar(n % 10)]
  }

  /** The value of a string of decimal digits, most significant first. */
  function DigitsValue(s: string): (n: nat)
    requires AllDigits(s)
    ensures n < Pow10(|s|)
    decreases |s|
  {
    if s == [] then 0 else DigitsValue(s[..|s| - 1]) * 10 + DigitValue(s[|s| - 1])
  }

  /** What `toStr` returns: "0" for zero, otherwise the sign followed by the digits
      of the (wrapped) magnitude. */
  function Format(v: int): string
    requires IsInt64(v)
  {
    if v == 0 then "0"
    else if v < 0 then "-" + Digits(Neg64(v))
    else Digits(v)
  }

  /** Bytes to text, one `char` per byte (the loop writes only ASCII digits). */
  function Chars(b: seq<byte>): (s: string)
    ensures |s| == |b|
  {
    seq(|b|, k requires 0 <= k < |b| => (b[k] as int) as char)
  }

  /** auth.go `toStr`: fills a 20-byte buffer from the right with the digits of the
      magnitude and prepends the sign. The loop never needs the leftmost byte,
      because an `int64` has at most 19 digits. */
  method ToStr(v: int) returns (s: string)
    requires IsInt64(v)
    ensures s == Format(v)
  {
    if v == 0 {
      return "0";
    }
    var sign := "";
    var n := v;
    if n < 0 {
      sign := "-";
      n := Neg64(n);
    }
    ghost var m := n;
    if m > 0 {
      Int64Digits(m);
    }
    var buf := new byte[20];
    var i := buf.Length;
    while n > 0
      invariant 1 <= i <= 20
      invariant n > 0 ==> |Digits(n)| < i
      invariant Digits(m) == Digits(n) + Chars(buf[i..])
    {
      ghost var written := buf[i..];
      var d := DigitByte(n % 10);
      LoopStep(m, n, d, written);
      i := i - 1;
      buf[i] := d;
      assert buf[i..] == [d] + written;
      n := n / 10;
    }
    s := sign + Chars(buf[i..]);
  }

  /** `byte('0' + d)` for a digit d. */
  function DigitByte(d: int): (b: byte)
    requires 0 <= d < 10
    ensures (b as int) as char == DigitChar(d)
  {
    ('0' as int + d) as byte
  }

  /** A positive `int64` has at most 19 decimal digits. */
  lemma Int64Digits(n: int)
    requires 0 < n <= MaxInt64
    ensures |Digits(n)| <= 19
  {
    Pow10Nineteen();
    DigitsLength(n, 19);
  }

  /** One turn of the loop keeps its invariant: writing the last digit of `n` in
      front of what is written already and dividing `n` by ten leaves the same
      total text, and one digit fewer to write. */
  lemma LoopStep(m: int, n: int, d: byte, written: seq<byte>)
    requires n > 0 && d == DigitByte(n % 10)
    requires Digits(m) == Digits(n) + Chars(written)
    ensures Digits(m) == Digits(n / 10) + Chars([d] + written)
    ensures |Digits(n / 10)| == |Digits(n)| - 1
  {
    assert Chars([d] + written) == [DigitChar(n % 10)] + Chars(written);
  }

  /** A positive number below 10^k has at most k digits. */
  lemma {:induction false} DigitsLength(n: int, k: nat)
    requires 0 < n < Pow10(k)
    ensures 1 <= |Digits(n)| <= k
  {
    if n >= 10 {
      DigitsLength(n / 10, k - 1);
    }
  }

  /** The digits of a positive number: non-empty, decimal, without a leading zero,
      and worth the number itself. */
  lemma {:induction false} DigitsCanonical(n: int)
    requires n > 0
    ensures Digits(n) != [] && AllDigits(Digits(n))
    ensures Digits(n)[0] != '0'
    ensures DigitsValue(Digits(n)) == n
  {
    var d := Digits(n);
    if n >= 10 {
      DigitsCanonical(n / 10);
    }
    assert d[..|d| - 1] == Digits(n / 10);
  }

  lemma FormatZero()
    ensures Format(0) == "0"
  {
  }

  /** toStr of a positive value is its decimal text with no sign and no leading zero. */
  lemma FormatPositive(v: int)
    requires 0 < v <= MaxInt64
    ensures Format(v) != [] && AllDigits(Format(v)) && Format(v)[0] != '0'
  {
    DigitsCanonical(v);
  }

  /** toStr of a negative value other than the minimum is "-" and toStr of its negation. */
  lemma FormatNegative(v: int)
    requires MinInt64 < v < 0
    ensures Format(v) == "-" + Format(-v)
  {
    Neg64Cases(v);
  }

  /** For the minimum `int64`, `-v` wraps back to a negative number, the loop writes
      nothing, and toStr returns the sign alone. */
  lemma FormatMinInt64()
    ensures Format(MinInt64) == "-"
  {
    Neg64Cases(MinInt64);
  }

  datatype NumError = ErrSyntax | ErrRange
  datatype Parsed = Parsed(value: int) | Failed(error: NumError)

  const MaxUint64 := 0xFFFF_FFFF_FFFF_FFFF

  /** The text after an optional leading '+' or '-'. */
  function Unsigned(s: string): (u: string)
    ensures |u| <= |s| && u == s[|s| - |u|..]
  {
    if s != [] && (s[0] == '+' || s[0] == '-') then s[1..] else s
  }

  /** The length of the run of digits at the front of `s`. */
  function DigitRun(s: string): (k: nat)
    ensures k <= |s| && AllDigits(s[..k])
    ensures k < |s| ==> !IsDigit(s[k])
    decreases |s|
  {
    if s == [] || !IsDigit(s[0]) then 0
    else
      var k := DigitRun(s[1..]);
      assert s[..k + 1] == [s[0]] + s[1..][..k];
      k + 1
  }

  /** Go's `strconv.Atoi` with a 64-bit `int`. After an optional '+' or '-',
      `strconv.ParseUint` reads digits into a `uint64` in one pass. It stops with a
      range error at the first digit that overflows 2^64 - 1, and with a syntax
      error at the first character that is not a digit, whichever comes first. An
      empty digit string is a syntax error. A value that does not fit an `int64` is
      a range error. (The fast path for strings shorter than 19 bytes gives the
      same answers, since no such string can overflow.) */
  function Atoi(s: string): (r: Parsed)
    ensures r.Parsed? ==> IsInt64(r.value)
    ensures r.Parsed? ==> s != [] && (IsDigit(s[0]) || s[0] == '+' || s[0] == '-')
  {
    var body := Unsigned(s);
    var k := DigitRun(body);
    if body == [] then Failed(ErrSyntax)
    else if DigitsValue(body[..k]) > MaxUint64 then Failed(ErrRange)
    else if k < |body| then Failed(ErrSyntax)
    else
      assert body[..k] == body;
      var n: int := DigitsValue(body);
      var value: int := if s[0] == '-' then -n else n;
      if IsInt64(value) then Parsed(value) else Failed(ErrRange)
  }

  /** Atoi's syntax errors: the string is empty or a bare sign, or it has a
      character other than a digit after its optional sign, and the digits before
      that character still fit a `uint64`. */
  lemma AtoiSyntax(s: string)
    ensures Atoi(s) == Failed(ErrSyntax)
        <==> (Unsigned(s) == []
              || (!AllDigits(Unsigned(s)) && DigitsValue(Unsigned(s)[..DigitRun(Unsigned(s))]) <= MaxUint64))
  {
    var body := Unsigned(s);
    var k := DigitRun(body);
    if k == |body| {
      assert body[..k] == body;
    }
  }

  /** The overflow is reported before a later non-digit: digits whose value
      exceeds 2^64 - 1, followed by anything that is not a digit, give a range
      error, not a syntax error. */
  lemma AtoiOverflowBeforeSyntaxError(d: string, rest: string)
    requires d != [] && AllDigits(d) && DigitsValue(d) > MaxUint64
    requires rest != [] && !IsDigit(rest[0])
    ensures Atoi(d + rest) == Failed(ErrRange)
  {
    var s := d + rest;
    assert IsDigit(s[0]);
    assert Unsigned(s) == s;
    DigitRunPrefix(d, rest);
    assert s[..|d|] == d;
  }

  /** The digit run of digits followed by a non-digit is exactly those digits. */
  lemma {:induction false} DigitRunPrefix(d: string, rest: string)
    requires AllDigits(d) && rest != [] && !IsDigit(rest[0])
    ensures DigitRun(d + rest) == |d|
    decreases |d|
  {
    var s := d + rest;
    if d == [] {
      assert s == rest;
    } else {
      assert s[0] == d[0] && IsDigit(s[0]);
      assert s[1..] == d[1..] + rest;
      assert AllDigits(d[1..]);
      DigitRunPrefix(d[1..], rest);
      assert DigitRun(s) == 1 + DigitRun(s[1..]);
    }
  }

  /** Atoi reads a digit string without a sign as its value. */
  lemma AtoiUnsigned(d: string)
    requires d != [] && AllDigits(d) && DigitsValue(d) <= MaxInt64
    ensures Atoi(d) == Parsed(DigitsValue(d))
  {
    assert IsDigit(d[0]);
    assert Unsigned(d) == d;
    DigitRunAll(d);
    assert d[..|d|] == d;
  }

  /** Atoi reads "-" and a digit string as the negated value. */
  lemma AtoiMinus(d: string)
    requires d != [] && AllDigits(d) && DigitsValue(d) <= MaxInt64
    ensures Atoi("-" + d) == Parsed(-(DigitsValue(d) as int))
  {
    assert ("-" + d)[1..] == d;
    assert Unsigned("-" + d) == d;
    DigitRunAll(d);
    assert d[..|d|] == d;
  }

  /** A string of digits is one run. */
  lemma {:induction false} DigitRunAll(d: string)
    requires AllDigits(d)
    ensures DigitRun(d) == |d|
    decreases |d|
  {
    if d != [] {
      DigitRunAll(d[1..]);
    }
  }

  /** Round trip: reading toStr's output back with Atoi gives the value again, for
      every `int64` except the minimum. */
  lemma AtoiFormat(v: int)
    requires IsInt64(v) && v != MinInt64
    ensures Atoi(Format(v)) == Parsed(v)
  {
    if v > 0 {
      AtoiFormatPositive(v);
    } else if v < 0 {
      AtoiFormatNegative(v);
    } else {
      AtoiZero();
    }
  }

  lemma AtoiFormatPositive(v: int)
    requires 0 < v <= MaxInt64
    ensures Atoi(Format(v)) == Parsed(v)
  {
    DigitsCanonical(v);
    AtoiUnsigned(Digits(v));
  }

  lemma AtoiFormatNegative(v: int)
    requires MinInt64 < v < 0
    ensures Atoi(Format(v)) == Parsed(v)
  {
    DigitsCanonical(-v);
    FormatNegative(v);
    AtoiMinus(Digits(-v));
  }

  lemma AtoiZero()
    ensures Atoi(Format(0)) == Parsed(0)
  {
    var d := Format(0);
    assert d == "0";
    assert AllDigits(d);
    assert d[..|d| - 1] == [];
    assert DigitsValue(d) == 0;
    AtoiUnsigned(d);
  }

  /** The round trip fails at the minimum: Atoi rejects the bare sign toStr writes. */
  lemma AtoiFormatMinInt64()
    ensures Atoi(Format(MinInt64)) == Failed(ErrSyntax)
  {
    FormatMinInt64();
  }
}
