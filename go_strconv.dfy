/** What the handler relies on from Go's `strconv` package: `Atoi` on a 64-bit
    platform, modelled exactly, and the shape of a `ParseFloat` result, whose
    parsing itself is left to an oracle supplied by the caller. */
module GoStrconv {
  import opened Wrappers

  /** The range of Go's `int` on a 64-bit platform (strconv.IntSize == 64). */
  const MinInt64: int := -0x8000_0000_0000_0000
  const MaxInt64: int := 0x7FFF_FFFF_FFFF_FFFF

  predicate IsDigit(ch: char) {
    '0' <= ch <= '9'
  }

  function DigitValue(ch: char): (d: nat)
    requires IsDigit(ch)
    ensures d < 10
  {
    ch as int - '0' as int
  }

  function DigitChar(d: nat): (ch: char)
    requires d < 10
    ensures IsDigit(ch) && DigitValue(ch) == d
  {
    ('0' as int + d) as char
  }

  predicate AllDigits(s: string) {
    forall i | 0 <= i < |s| :: IsDigit(s[i])
  }

  function Pow10(n: nat): (p: nat)
    ensures p >= 1
  {
    if n == 0 then 1 else 10 * Pow10(n - 1)
  }

  /** The positional value of a string of decimal digits: the sum over i of
      s[i] * 10^(|s| - 1 - i). Leading zeros contribute nothing. */
  function DigitsValue(s: string): nat
    requires AllDigits(s)
  {
    if s == [] then 0 else DigitValue(s[0]) * Pow10(|s| - 1) + DigitsValue(s[1..])
  }

  /** s with one leading '+' or '-' removed, if it has one. */
  function Magnitude(s: string): string {
    if |s| > 0 && (s[0] == '+' || s[0] == '-') then s[1..] else s
  }

  /** The syntax `Atoi` accepts in base 10: an optional sign, then one or more
      ASCII digits, and nothing else (no spaces, no underscores, no point). */
  predicate IsIntegerLiteral(s: string) {
    |Magnitude(s)| > 0 && AllDigits(Magnitude(s))
  }

  /** The mathematical value of an integer literal. */
  function LiteralValue(s: string): int
    requires IsIntegerLiteral(s)
  {
    var n: int := DigitsValue(Magnitude(s));
    if s[0] == '-' then -n else n
  }

  /** Go's digit loop: read the digits left to right, accumulating
      n = n * 10 + digit; None as soon as a character is not a digit. */
  function ScanDigits(s: string, acc: nat): (r: Option<nat>)
    ensures r.Some? <==> AllDigits(s)
    ensures r.Some? ==> r.value == acc * Pow10(|s|) + DigitsValue(s)
    decreases |s|
  {
    if s == [] then Some(acc)
    else if !IsDigit(s[0]) then None
    else
      var d := DigitValue(s[0]);
      var rest := s[1..];
      AllDigitsCons(s);
      var r := ScanDigits(rest, 10 * acc + d);
      if r.Some? then
        ShiftDigit(acc, d, Pow10(|rest|), DigitsValue(rest));
        r
      else r
  }

  /** A non-empty string is all digits exactly when its head is a digit and
      its tail is all digits. */
  lemma AllDigitsCons(s: string)
    requires s != []
    ensures AllDigits(s) <==> IsDigit(s[0]) && AllDigits(s[1..])
  {
    assert forall i | 1 <= i < |s| :: s[i] == s[1..][i - 1];
  }

  /** Accumulating one more digit d in front of a tail of value v with place
      value p: (10·acc + d)·p + v == acc·(10·p) + (d·p + v). */
  lemma ShiftDigit(acc: nat, d: nat, p: nat, v: nat)
    ensures (10 * acc + d) * p + v == acc * (10 * p) + (d * p + v)
  {
    calc {
      (10 * acc + d) * p + v;
      10 * acc * p + d * p + v;
      acc * (10 * p) + (d * p + v);
    }
  }

  /** strconv.Atoi: Some(n) exactly when s is an integer literal whose value
      fits a 64-bit int, and then n is that value; a syntax error or a range
      error is None (the handler only tests `err != nil`). */
  function Atoi(s: string): (r: Option<int>)
    ensures r.Some? <==> IsIntegerLiteral(s) && MinInt64 <= LiteralValue(s) <= MaxInt64
    ensures r.Some? ==> r.value == LiteralValue(s)
  {
    var m := Magnitude(s);
    if |m| == 0 then None
    else
      match ScanDigits(m, 0)
      case None => None
      case Some(n) =>
        var u: int := n;
        var v := if s[0] == '-' then -u else u;
        if MinInt64 <= v <= MaxInt64 then Some(v) else None
  }

  /** The canonical decimal spelling of a natural number: no sign, no leading
      zero (except for 0 itself). */
  function Decimal(n: nat): (s: string)
    ensures |s| > 0 && AllDigits(s)
    decreases n
  {
    if n < 10 then [DigitChar(n)] else Decimal(n / 10) + [DigitChar(n % 10)]
  }

  /** strconv.Itoa: '-' and the magnitude for a negative number, the bare
      digits otherwise. The reference against which Atoi is checked. */
  function FormatInt(n: int): (s: string)
    ensures IsIntegerLiteral(s) && LiteralValue(s) == n
  {
    DecimalValue(if n < 0 then -n else n);
    if n < 0 then "-" + Decimal(-n) else Decimal(n)
  }

  /** Appending a digit keeps a digit string a digit string. */
  lemma AllDigitsSnoc(s: string, ch: char)
    requires AllDigits(s) && IsDigit(ch)
    ensures AllDigits(s + [ch])
  {
    var t := s + [ch];
    forall i | 0 <= i < |t| ensures IsDigit(t[i]) {
      if i < |s| { assert t[i] == s[i]; }
    }
  }

  /** a·(10·b) == 10·(a·b). */
  lemma MulTen(a: nat, b: nat)
    ensures a * (10 * b) == 10 * (a * b)
  {
  }

  /** Appending a digit multiplies the value by ten and adds the digit. */
  lemma {:induction false} DigitsValueSnoc(s: string, ch: char)
    requires AllDigits(s) && IsDigit(ch)
    ensures AllDigits(s + [ch])
    ensures DigitsValue(s + [ch]) == 10 * DigitsValue(s) + DigitValue(ch)
  {
    AllDigitsSnoc(s, ch);
    if s != [] {
      var t := s + [ch];
      var rest := s[1..];
      AllDigitsCons(s);
      assert t[0] == s[0];
      assert t[1..] == rest + [ch];
      DigitsValueSnoc(rest, ch);
      var d0, p := DigitValue(s[0]), Pow10(|rest|);
      assert Pow10(|t| - 1) == 10 * p;
      MulTen(d0, p);
      assert DigitsValue(t) == d0 * (10 * p) + DigitsValue(rest + [ch]);
    }
  }

  /** Reading back the canonical spelling of n gives n. */
  lemma {:induction false} DecimalValue(n: nat)
    ensures DigitsValue(Decimal(n)) == n
    ensures Magnitude(Decimal(n)) == Decimal(n)
    decreases n
  {
    if n >= 10 {
      DecimalValue(n / 10);
      DigitsValueSnoc(Decimal(n / 10), DigitChar(n % 10));
    }
    assert IsDigit(Decimal(n)[0]);
  }

  /** Round trip: Atoi parses what Itoa prints, for every 64-bit int. */
  lemma AtoiFormatInt(n: int)
    requires MinInt64 <= n <= MaxInt64
    ensures Atoi(FormatInt(n)) == Some(n)
  {
  }

  /** One past the largest 64-bit int is a well-formed literal that Atoi
      still refuses (a range error), and so is one below the smallest. */
  lemma AtoiRangeError()
    ensures Atoi(FormatInt(MaxInt64 + 1)) == None
    ensures Atoi(FormatInt(MinInt64 - 1)) == None
    ensures Atoi(FormatInt(MaxInt64)) == Some(MaxInt64)
    ensures Atoi(FormatInt(MinInt64)) == Some(MinInt64)
  {
  }

  /** Spellings Atoi accepts and refuses besides the canonical one. */
  lemma AtoiExamples()
    ensures Atoi("+42") == Some(42)
    ensures Atoi("-7") == Some(-7)
    ensures Atoi("007") == Some(7)
    ensures Atoi("") == None
    ensures Atoi("+") == None
    ensures Atoi("-") == None
    ensures Atoi("1.5") == None
    ensures Atoi(" 1") == None
    ensures Atoi("1_000") == None
  {
  }

  /** A float64 as strconv.ParseFloat can return it: a finite value (the
      sign of zero is not kept), an infinity, or NaN (Go accepts "NaN",
      "Inf", "+Inf", "-Inf" and "infinity" as input). */
  datatype Float64 = Finite(value: real) | Infinity(negative: bool) | NaN

  /** Go's comparison `b < 0` on a float64: false for NaN, for +Inf, for zero
      and for -0. */
  predicate IsNegative(b: Float64): (neg: bool)
    ensures b.NaN? ==> !neg
    ensures b.Infinity? ==> (neg <==> b.negative)
    ensures b.Finite? ==> (neg <==> b.value < 0.0)
  {
    match b
    case Finite(x) => x < 0.0
    case Infinity(negative) => negative
    case NaN => false
  }
}
