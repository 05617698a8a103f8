/**
 * The parts of Go's fmt package that the sentence encoders rely on: `%d` of a
 * non-negative integer, zero padding to a minimum width (`%0Nd`, `%0N.Pf`),
 * `%.Pf` of a value, and (as a reading aid for the layouts) splitting a text
 * at a separator.
 *
 * Floating-point values are modelled by the exact decimal they denote
 * (`Decimal`); `%.Pf` rounds that exact value to P places, ties to even, which
 * is what Go's strconv does with the exact binary value of a float.
 */
module Fmt {
  import opened Wrappers

  predicate IsDigit(c: char) { '0' <= c <= '9' }

  predicate AllDigits(s: string) { forall i | 0 <= i < |s| :: IsDigit(s[i]) }

  /** The characters `%d` and `%.Pf` can produce. */
  predicate IsNumeric(c: char) { IsDigit(c) || c == '.' || c == '-' }

  predicate AllNumeric(s: string) { forall i | 0 <= i < |s| :: IsNumeric(s[i]) }

  function DigitChar(d: nat): (c: char)
    requires d < 10
    ensures IsDigit(c) && c as int - '0' as int == d
  {
    (48 + d) as char
  }

  function Pow10(n: nat): (r: nat)
    ensures r >= 1
  {
    if n == 0 then 1 else 10 * Pow10(n - 1)
  }

  function Abs(x: int): nat { if x < 0 then -x else x }

  // ---------------------------------------------------------------- %d

  /** `%d` of a non-negative integer: its decimal digits without leading zeros. */
  function Itoa(n: nat): (s: string)
    ensures 1 <= |s| && AllDigits(s)
    ensures |s| > 1 ==> s[0] != '0'
    decreases n
  {
    if n < 10 then [DigitChar(n)] else Itoa(n / 10) + [DigitChar(n % 10)]
  }

  /** The value of a string of decimal digits (the inverse of Itoa). */
  function Atoi(s: string): nat
    requires AllDigits(s)
  {
    if s == [] then 0 else 10 * Atoi(s[..|s| - 1]) + (s[|s| - 1] as int - '0' as int)
  }

  lemma {:induction false} AtoiItoa(n: nat)
    ensures Atoi(Itoa(n)) == n
    decreases n
  {
    if n >= 10 {
      var s := Itoa(n);
      assert s[..|s| - 1] == Itoa(n / 10);
      AtoiItoa(n / 10);
    }
  }

  /** Itoa never needs more than k digits for a number below 10^k. */
  lemma {:induction false} ItoaFits(n: nat, k: nat)
    requires n < Pow10(k)
    ensures |Itoa(n)| <= k || (n == 0 && k == 0)
    decreases n
  {
    if n >= 10 {
      assert k >= 1;
      ItoaFits(n / 10, k - 1);
    }
  }

  // ---------------------------------------------------------------- zero padding

  function Zeros(n: nat): (z: string)
    ensures |z| == n && forall i | 0 <= i < n :: z[i] == '0'
  {
    seq(n, _ => '0')
  }

  /** The `0` flag with a width: left-pad with '0' up to `width` characters. */
  function ZeroPad(s: string, width: nat): (r: string)
    ensures |r| == if |s| < width then width else |s|
  {
    if |s| < width then Zeros(width - |s|) + s else s
  }

  lemma {:induction false} AtoiZeros(n: nat)
    ensures Atoi(Zeros(n)) == 0
  {
    if n > 0 {
      assert Zeros(n)[..n - 1] == Zeros(n - 1);
      AtoiZeros(n - 1);
    }
  }

  /** Leading zeros do not change the value of a digit string. */
  lemma {:induction false} AtoiLeadingZeros(n: nat, s: string)
    requires AllDigits(s)
    ensures AllDigits(Zeros(n) + s) && Atoi(Zeros(n) + s) == Atoi(s)
    decreases |s|
  {
    if s == [] {
      assert Zeros(n) + s == Zeros(n);
      AtoiZeros(n);
    } else {
      var t := Zeros(n) + s;
      assert t[..|t| - 1] == Zeros(n) + s[..|s| - 1];
      AtoiLeadingZeros(n, s[..|s| - 1]);
    }
  }

  /** Padding keeps the digits, adds only leading zeros, and keeps the value. */
  lemma ZeroPadDigits(s: string, width: nat)
    requires AllDigits(s)
    ensures AllDigits(ZeroPad(s, width))
    ensures Atoi(ZeroPad(s, width)) == Atoi(s)
    ensures ZeroPad(s, width)[|ZeroPad(s, width)| - |s|..] == s
  {
    if |s| < width {
      AtoiLeadingZeros(width - |s|, s);
    }
  }

  // ---------------------------------------------------------------- %.Pf

  /** An exactly known value: units * 10^-scale. */
  datatype Decimal = Decimal(units: int, scale: nat)

  /** n * 10^k, written so that it is a natural number by construction. */
  function Shift(n: nat, k: nat): nat
  {
    if k == 0 then n else 10 * Shift(n, k - 1)
  }

  /**
   * n / d rounded to the nearest integer, an exact half going to the even
   * neighbour (RoundHalfEvenNearest states this).
   */
  function RoundHalfEven(n: nat, d: nat): nat
    requires d > 0
  {
    var q, r := n / d, n % d;
    if 2 * r > d || (2 * r == d && q % 2 == 1) then q + 1 else q
  }

  lemma DivisionError(n: nat, d: nat)
    requires d > 0
    ensures Abs((n / d) * d - n) == n % d
    ensures Abs((n / d + 1) * d - n) == d - n % d
  {
    var q, r := n / d, n % d;
    assert q * d + r == n;
    assert (q + 1) * d == q * d + d;
  }

  /** The rounded quotient is a nearest integer to n / d, and even on a tie. */
  lemma RoundHalfEvenNearest(n: nat, d: nat)
    requires d > 0
    ensures var q := RoundHalfEven(n, d);
      && 2 * Abs(q * d - n) <= d
      && (2 * Abs(q * d - n) == d ==> q % 2 == 0)
  {
    DivisionError(n, d);
  }

  /** |x| rounded to prec decimal places, in units of 10^-prec. */
  function Rounded(x: Decimal, prec: nat): nat
  {
    RoundHalfEven(Shift(Abs(x.units), prec), Pow10(x.scale))
  }

  /** The whole units of n units of 10^-prec (n / 10^prec, one digit at a time). */
  function IntPart(n: nat, prec: nat): nat
  {
    if prec == 0 then n else IntPart(n / 10, prec - 1)
  }

  /** The last prec digits of n (n % 10^prec). */
  function FracPart(n: nat, prec: nat): (f: nat)
    ensures f < Pow10(prec)
  {
    if prec == 0 then 0 else 10 * FracPart(n / 10, prec - 1) + n % 10
  }

  /** The text of m units of 10^-prec: whole units, then '.' and prec digits. */
  function RenderUnsigned(m: nat, prec: nat): string
  {
    WholeText(m, prec) + (if prec == 0 then "" else "." + FracText(m, prec))
  }

  function WholeText(m: nat, prec: nat): string
  {
    Itoa(IntPart(m, prec))
  }

  /** The fraction digits, padded with zeros to exactly prec of them. */
  function FracText(m: nat, prec: nat): string
  {
    ZeroPad(Itoa(FracPart(m, prec)), prec)
  }

  lemma WholeTextFacts(m: nat, prec: nat)
    ensures 1 <= |WholeText(m, prec)| && AllDigits(WholeText(m, prec))
    ensures Atoi(WholeText(m, prec)) == IntPart(m, prec)
  {
    AtoiItoa(IntPart(m, prec));
  }

  lemma FracTextFacts(m: nat, prec: nat)
    requires prec > 0
    ensures |FracText(m, prec)| == prec && AllDigits(FracText(m, prec))
    ensures Atoi(FracText(m, prec)) == FracPart(m, prec)
  {
    AtoiItoa(FracPart(m, prec));
    ItoaFits(FracPart(m, prec), prec);
    ZeroPadDigits(Itoa(FracPart(m, prec)), prec);
  }

  /** The text of a sign and a magnitude of m units of 10^-prec. */
  function Render(neg: bool, m: nat, prec: nat): string
  {
    (if neg then "-" else "") + RenderUnsigned(m, prec)
  }

  /** `%.Pf` (equally `%0.Pf`) of the value x. */
  function FormatF(x: Decimal, prec: nat): string
  {
    Render(x.units < 0, Rounded(x, prec), prec)
  }

  /** `%0W.Pf` of a value that is not negative: `%.Pf` padded with zeros to W. */
  function FormatFWidth(x: Decimal, width: nat, prec: nat): string
  {
    ZeroPad(FormatF(x, prec), width)
  }

  /**
   * Reads an unsigned fixed-point text back: one or more digits, and when
   * prec > 0 a '.' followed by exactly prec digits; the magnitude is in units
   * of 10^-prec.
   */
  function ParseUnsigned(s: string, prec: nat): Option<nat>
  {
    var intLen := if prec == 0 then |s| else |s| - prec - 1;
    if intLen < 1 || !AllDigits(s[..intLen]) then None
    else if prec == 0 then Some(Atoi(s))
    else if s[intLen] != '.' || !AllDigits(s[intLen + 1..]) then None
    else Some(Shift(Atoi(s[..intLen]), prec) + Atoi(s[intLen + 1..]))
  }

  /** Reads a `%.Pf` text back: an optional '-' and an unsigned part. */
  function ParseFixed(s: string, prec: nat): Option<(bool, nat)>
  {
    var neg := |s| > 0 && s[0] == '-';
    match ParseUnsigned(if neg then s[1..] else s, prec)
    case None => None
    case Some(m) => Some((neg, m))
  }

  lemma ParseUnsignedLayout(whole: string, frac: string, prec: nat)
    requires 1 <= |whole| && AllDigits(whole) && AllDigits(frac)
    requires prec > 0 && |frac| == prec
    ensures ParseUnsigned(whole + ("." + frac), prec) == Some(Shift(Atoi(whole), prec) + Atoi(frac))
  {
    var body := whole + ("." + frac);
    assert body[|whole|] == '.';
    assert body[..|whole|] == whole;
    assert body[|whole| + 1..] == frac;
  }

  lemma ParseFixedSign(neg: bool, t: string, prec: nat)
    requires |t| >= 1 && IsDigit(t[0])
    ensures ParseFixed((if neg then "-" else "") + t, prec)
            == match ParseUnsigned(t, prec) case None => None case Some(m) => Some((neg, m))
  {
    var s := (if neg then "-" else "") + t;
    assert s[0] == if neg then '-' else t[0];
    assert (if neg then s[1..] else s) == t;
  }

  lemma {:induction false} PartsRecombine(m: nat, prec: nat)
    ensures Shift(IntPart(m, prec), prec) + FracPart(m, prec) == m
  {
    if prec > 0 {
      PartsRecombine(m / 10, prec - 1);
    }
  }

  lemma RenderWholeReadsBack(m: nat)
    ensures ParseUnsigned(RenderUnsigned(m, 0), 0) == Some(m)
  {
    var whole := WholeText(m, 0);
    WholeTextFacts(m, 0);
    assert RenderUnsigned(m, 0) == whole;
    assert whole[..|whole|] == whole;
  }

  lemma RenderFracReadsBack(m: nat, prec: nat)
    requires prec > 0
    ensures ParseUnsigned(RenderUnsigned(m, prec), prec) == Some(m)
  {
    WholeTextFacts(m, prec);
    FracTextFacts(m, prec);
    ParseUnsignedLayout(WholeText(m, prec), FracText(m, prec), prec);
    PartsRecombine(m, prec);
  }

  /** The unsigned text reads back as the magnitude it was made from. */
  lemma RenderUnsignedReadsBack(m: nat, prec: nat)
    ensures ParseUnsigned(RenderUnsigned(m, prec), prec) == Some(m)
  {
    if prec == 0 { RenderWholeReadsBack(m); } else { RenderFracReadsBack(m, prec); }
  }

  /** The rendered text reads back as the sign and magnitude it was made from. */
  lemma RenderReadsBack(neg: bool, m: nat, prec: nat)
    ensures ParseFixed(Render(neg, m, prec), prec) == Some((neg, m))
  {
    RenderUnsignedReadsBack(m, prec);
    ParseFixedSign(neg, RenderUnsigned(m, prec), prec);
  }

  /**
   * The text `%.Pf` produces reads back as the sign of x and |x| rounded to
   * prec places; with RoundHalfEvenNearest this says the text denotes the
   * nearest prec-place value to x.
   */
  lemma FormatFReadsBack(x: Decimal, prec: nat)
    ensures ParseFixed(FormatF(x, prec), prec) == Some((x.units < 0, Rounded(x, prec)))
  {
    RenderReadsBack(x.units < 0, Rounded(x, prec), prec);
  }

  /** `%.Pf` produces only digits, '.' and '-'. */
  lemma NumericConcat(a: string, b: string)
    requires AllNumeric(a) && AllNumeric(b)
    ensures AllNumeric(a + b)
  {
    forall i | 0 <= i < |a + b|
      ensures IsNumeric((a + b)[i])
    {
      if i < |a| { assert (a + b)[i] == a[i]; } else { assert (a + b)[i] == b[i - |a|]; }
    }
  }

  lemma RenderNumeric(neg: bool, m: nat, prec: nat)
    ensures AllNumeric(Render(neg, m, prec))
  {
    var tail := if prec == 0 then "" else "." + FracText(m, prec);
    WholeTextFacts(m, prec);
    if prec > 0 {
      FracTextFacts(m, prec);
      NumericConcat(".", FracText(m, prec));
    }
    NumericConcat(WholeText(m, prec), tail);
    NumericConcat(if neg then "-" else "", WholeText(m, prec) + tail);
  }

  lemma FormatFNumeric(x: Decimal, prec: nat)
    ensures AllNumeric(FormatF(x, prec))
  {
    RenderNumeric(x.units < 0, Rounded(x, prec), prec);
  }

  lemma FormatFWidthNumeric(x: Decimal, width: nat, prec: nat)
    ensures AllNumeric(FormatFWidth(x, width, prec))
  {
    FormatFNumeric(x, prec);
  }

  lemma DigitsNumeric(s: string)
    requires AllDigits(s)
    ensures AllNumeric(s)
  {
  }

  /** The length of `%.Pf`: an optional sign, the whole units, and '.' with prec digits. */
  lemma FormatFLength(x: Decimal, prec: nat)
    ensures |FormatF(x, prec)| == (if x.units < 0 then 1 else 0)
      + |WholeText(Rounded(x, prec), prec)| + (if prec == 0 then 0 else prec + 1)
    ensures |WholeText(Rounded(x, prec), prec)| >= 1
  {
    WholeTextFacts(Rounded(x, prec), prec);
    if prec > 0 {
      FracTextFacts(Rounded(x, prec), prec);
    }
  }

  /** A width no larger than the shortest `%.Pf` text never pads. */
  lemma FormatFWidthNoPad(x: Decimal, width: nat, prec: nat)
    requires width <= (if prec == 0 then 1 else prec + 2)
    ensures FormatFWidth(x, width, prec) == FormatF(x, prec)
  {
    FormatFLength(x, prec);
  }

  lemma {:induction false} IntPartBelow(m: nat, prec: nat, b: nat)
    requires m < Shift(b, prec)
    ensures IntPart(m, prec) < b
  {
    if prec > 0 {
      IntPartBelow(m / 10, prec - 1, b);
    }
  }

  /** A magnitude below k whole digits prints at most k digits before the point. */
  lemma WholeTextShort(m: nat, prec: nat, k: nat)
    requires m < Shift(Pow10(k), prec) && k >= 1
    ensures |WholeText(m, prec)| <= k
  {
    IntPartBelow(m, prec, Pow10(k));
    ItoaFits(IntPart(m, prec), k);
  }

  /** Rounding n / d cannot go past c when n < c * d. */
  lemma RoundHalfEvenAtMost(n: nat, d: nat, c: nat)
    requires d > 0 && n < c * d
    ensures RoundHalfEven(n, d) <= c
  {
    var q := n / d;
    assert q * d <= n;
    if c <= q {
      MulMonotone(c, q, d);
    }
  }

  lemma MulMonotone(a: nat, b: nat, d: nat)
    requires a <= b
    ensures a * d <= b * d
  {
    assert b * d - a * d == (b - a) * d;
  }

  lemma {:induction false} ShiftBelow(a: nat, b: nat, q: nat, k: nat)
    requires a < b * q
    ensures Shift(a, k) < Shift(b, k) * q
  {
    if k > 0 {
      ShiftBelow(a, b, q, k - 1);
      assert 10 * (Shift(b, k - 1) * q) == (10 * Shift(b, k - 1)) * q;
    }
  }

  lemma {:induction false} ShiftStrictlyMonotone(a: nat, b: nat, k: nat)
    requires a < b
    ensures Shift(a, k) < Shift(b, k)
  {
    if k > 0 {
      ShiftStrictlyMonotone(a, b, k - 1);
    }
  }

  lemma {:induction false} ShiftSucc(a: nat, k: nat)
    ensures Shift(a + 1, k) == Shift(a, k) + Pow10(k)
  {
    if k > 0 {
      ShiftSucc(a, k - 1);
    }
  }

  /** A value below c (in whole units) rounds to at most c whole units. */
  lemma RoundedAtMost(x: Decimal, prec: nat, c: nat)
    requires Abs(x.units) < c * Pow10(x.scale)
    ensures Rounded(x, prec) <= Shift(c, prec)
  {
    ShiftBelow(Abs(x.units), c, Pow10(x.scale), prec);
    RoundHalfEvenAtMost(Shift(Abs(x.units), prec), Pow10(x.scale), Shift(c, prec));
  }

  // ---------------------------------------------------------------- fields

  /** The fields of s between the occurrences of sep (like Go's strings.Split). */
  function Split(s: string, sep: char): (fields: seq<string>)
    ensures |fields| >= 1
    decreases |s|
  {
    if s == [] then [""]
    else
      var rest := Split(s[1..], sep);
      if s[0] == sep then [""] + rest else [[s[0]] + rest[0]] + rest[1..]
  }

  lemma {:induction false} SplitNoSep(a: string, sep: char)
    requires sep !in a
    ensures Split(a, sep) == [a]
    decreases |a|
  {
    if a != [] {
      SplitNoSep(a[1..], sep);
      assert [a[0]] + a[1..] == a;
    }
  }

  /** One character in front: a separator opens a new empty field, anything else joins the first field. */
  lemma SplitCons(c: char, s: string, sep: char)
    ensures var rest := Split(s, sep);
      Split([c] + s, sep) == if c == sep then [""] + rest else [[c] + rest[0]] + rest[1..]
  {
    assert ([c] + s)[0] == c && ([c] + s)[1..] == s;
  }

  /** Splitting at a separator that joins two texts splits each of them. */
  lemma {:induction false} SplitConcat(a: string, sep: char, b: string)
    ensures Split(a + [sep] + b, sep) == Split(a, sep) + Split(b, sep)
    decreases |a|
  {
    if a == [] {
      assert a + [sep] + b == [sep] + b;
      SplitCons(sep, b, sep);
      assert Split(a, sep) == [""];
    } else {
      SplitConcat(a[1..], sep, b);
      assert a == [a[0]] + a[1..];
      SplitConcatStep(a[0], a[1..], sep, b);
    }
  }

  lemma SplitConcatStep(c: char, u: string, sep: char, b: string)
    requires Split(u + [sep] + b, sep) == Split(u, sep) + Split(b, sep)
    ensures Split([c] + u + [sep] + b, sep) == Split([c] + u, sep) + Split(b, sep)
  {
    assert [c] + u + [sep] + b == [c] + (u + [sep] + b);
    SplitCons(c, u + [sep] + b, sep);
    SplitCons(c, u, sep);
    var rest, B := Split(u, sep), Split(b, sep);
    if c == sep {
      assert ([""] + rest) + B == [""] + (rest + B);
    } else {
      HeadJoin([c], rest, B);
    }
  }

  /** Joining a prefix onto the first field commutes with appending fields. */
  lemma HeadJoin(p: string, rest: seq<string>, more: seq<string>)
    requires |rest| > 0
    ensures [p + (rest + more)[0]] + (rest + more)[1..] == ([p + rest[0]] + rest[1..]) + more
  {
    assert (rest + more)[0] == rest[0];
    assert (rest + more)[1..] == rest[1..] + more;
  }

  /** A text with more than one field starts with its first field and a separator. */
  lemma {:induction false} SplitHead(s: string, sep: char)
    requires |Split(s, sep)| > 1
    ensures var f := Split(s, sep)[0]; |f| < |s| && s[..|f|] == f && s[|f|] == sep
    decreases |s|
  {
    var rest := Split(s[1..], sep);
    if s[0] != sep {
      SplitHead(s[1..], sep);
      assert s[..|rest[0]| + 1] == [s[0]] + s[1..][..|rest[0]|];
    }
  }

  /** Appending ",f" to a text appends the fields of f to its fields. */
  lemma FieldAppend(p: string, f: string, sep: char, acc: seq<string>, fs: seq<string>)
    requires Split(p, sep) == acc && Split(f, sep) == fs
    ensures Split(p + [sep] + f, sep) == acc + fs
  {
    SplitConcat(p, sep, f);
  }

  /** "v,u" with no separator in v or u has exactly the two fields v and u. */
  lemma TwoFields(v: string, sep: char, u: string)
    requires sep !in v && sep !in u
    ensures Split(v + [sep] + u, sep) == [v, u]
  {
    SplitNoSep(v, sep);
    SplitNoSep(u, sep);
    SplitConcat(v, sep, u);
  }

  /** Appending ",f" (f without commas) adds f as one more field. */
  lemma AppendField(p: string, f: string, acc: seq<string>)
    requires Split(p, ',') == acc && ',' !in f
    ensures Split(p + "," + f, ',') == acc + [f]
  {
    SplitNoSep(f, ',');
    FieldAppend(p, f, ',', acc, [f]);
  }

  /** Appending ",v,unit" adds the two fields v and unit. */
  lemma AppendUnit(p: string, v: string, unit: string, acc: seq<string>)
    requires Split(p, ',') == acc && ',' !in v && ',' !in unit
    ensures Split(p + "," + (v + "," + unit), ',') == acc + [v, unit]
  {
    TwoFields(v, ',', unit);
    FieldAppend(p, v + "," + unit, ',', acc, [v, unit]);
  }

  /** A nonzero multiple of a positive m is at least m in size. */
  lemma {:induction false} MulLess(q: int, m: int)
    requires m > 0
    ensures q >= 1 ==> q * m >= m
    ensures q <= -1 ==> q * m <= -m
    decreases if q >= 0 then q else -q
  {
    if q >= 1 { assert q * m == (q - 1) * m + m; MulLess(q - 1, m); }
    if q <= -1 { assert q * m == (q + 1) * m - m; MulLess(q + 1, m); }
  }

  /** Quotient and remainder are the unique q, r with a == q*m + r and 0 <= r < m. */
  lemma ModUnique(a: int, m: int, q: int, r: int)
    requires m > 0 && a == q * m + r && 0 <= r < m
    ensures a / m == q && a % m == r
  {
    var q' := a / m;
    var r' := a % m;
    assert a == q' * m + r';
    assert (q' - q) * m == r - r';
    MulLess(q' - q, m);
  }

  /** Decimal product, exactly (as Go's float product before rounding). */
  function Mul(x: Decimal, y: Decimal): Decimal
  {
    Decimal(x.units * y.units, x.scale + y.scale)
  }
}
