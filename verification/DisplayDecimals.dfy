/** Rounding for display, on the decimal string itself. Follows `roundDecimalString` and
    `formatValue` of frontend/src/format/display.ts. */
module DisplayDecimals {
  import opened Wrappers

  // ---------------------------------------------------------------- strings as JavaScript has them

  /** The white space and line terminators `String.prototype.trim` removes. */
  predicate IsSpace(c: char) {
    || '\t' <= c <= '\r' || c == ' ' || c == '\U{00A0}' || c == '\U{1680}'
    || '\U{2000}' <= c <= '\U{200A}' || c == '\U{2028}' || c == '\U{2029}'
    || c == '\U{202F}' || c == '\U{205F}' || c == '\U{3000}' || c == '\U{FEFF}'
  }

  function TrimStart(s: string): string {
    if s != "" && IsSpace(s[0]) then TrimStart(s[1..]) else s
  }

  function TrimEnd(s: string): string {
    if s != "" && IsSpace(s[|s| - 1]) then TrimEnd(s[..|s| - 1]) else s
  }

  function Trim(s: string): string {
    TrimEnd(TrimStart(s))
  }

  predicate IsDigit(c: char) {
    '0' <= c <= '9'
  }

  predicate AllDigits(s: string) {
    forall i | 0 <= i < |s| :: IsDigit(s[i])
  }

  /** `split('.')`, for a string that is known to hold at most one point. */
  function Whole(s: string): (w: string)
    ensures |w| <= |s| && w == s[..|w|] && '.' !in w && (|w| < |s| ==> s[|w|] == '.')
  {
    if s == "" || s[0] == '.' then "" else [s[0]] + Whole(s[1..])
  }

  function AfterWhole(s: string): string {
    s[|Whole(s)|..]
  }

  function Fraction(s: string): string {
    if AfterWhole(s) == "" then "" else AfterWhole(s)[1..]
  }

  predicate IsNegative(s: string) {
    s != "" && s[0] == '-'
  }

  function Unsigned(s: string): string {
    if IsNegative(s) then s[1..] else s
  }

  /** `/^-?\d+(\.\d+)?$/` */
  predicate IsPlainDecimal(s: string) {
    var u := Unsigned(s);
    && Whole(u) != "" && AllDigits(Whole(u))
    && (AfterWhole(u) == "" || (Fraction(u) != "" && AllDigits(Fraction(u))))
  }

  function Zeros(n: nat): string {
    seq(n, i => '0')
  }

  function PadEnd(s: string, width: nat): string {
    if |s| < width then s + Zeros(width - |s|) else s
  }

  function PadStart(s: string, width: nat): string {
    if |s| < width then Zeros(width - |s|) + s else s
  }

  function Digit(n: nat): char
    requires n < 10
  {
    '0' + n as char
  }

  function DigitValue(c: char): nat
    requires IsDigit(c)
  {
    (c - '0') as nat
  }

  /** `BigInt(digits)`, and `toString` back. */
  function Val(digits: string): nat
    requires AllDigits(digits)
  {
    if digits == "" then 0
    else Val(digits[..|digits| - 1]) * 10 + DigitValue(digits[|digits| - 1])
  }

  function ToDigits(n: nat): string {
    if n < 10 then [Digit(n)] else ToDigits(n / 10) + [Digit(n % 10)]
  }

  predicate HasNonzero(s: string) {
    exists i :: 0 <= i < |s| && '1' <= s[i] <= '9'
  }

  // ---------------------------------------------------------------- the source's functions

  function Bumped(digits: string): string
    requires AllDigits(digits)
  {
    PadStart(ToDigits(Val(digits) + 1), |digits|)
  }

  function Point(digits: string, places: nat): string
    requires places <= |digits|
  {
    var cut := |digits| - places;
    if places == 0 then digits
    else (if cut == 0 then "0" else digits[..cut]) + "." + digits[cut..]
  }

  /** The first digit dropped is 5 or more. (There may be none: `charCodeAt` is then `NaN`.) */
  predicate RoundsUp(fraction: string, places: nat) {
    places < |fraction| && fraction[places] >= '5'
  }

  function RoundDecimalString(raw: string, places: nat): string {
    RoundTrimmed(Trim(raw), places)
  }

  function RoundTrimmed(trimmed: string, places: nat): string {
    if !IsPlainDecimal(trimmed) then trimmed
    else
      var u := Unsigned(trimmed);
      var whole, fraction := Whole(u), Fraction(u);
      if places == 0 && fraction == "" then trimmed
      else
        var padded := PadEnd(if |fraction| > places then fraction[..places] else fraction, places);
        PaddedIsDigits(whole, fraction, places);
        var result :=
          if RoundsUp(fraction, places) then
            BumpedIsLongEnough(whole + padded);
            Point(Bumped(whole + padded), places)
          else if places == 0 then whole
          else whole + "." + padded;
        if IsNegative(trimmed) && HasNonzero(result) then "-" + result else result
  }

  datatype NumericUnit =
    | Price | Percentage | Score | Ratio | Contracts | Currency | Indicator | Timestamp | UnknownUnit

  function Decimals(unit: NumericUnit): Option<nat> {
    match unit
    case Price => None
    case Percentage => Some(1)
    case Score => Some(0)
    case Ratio => Some(2)
    case Contracts => Some(0)
    case Currency => Some(2)
    case Indicator => Some(2)
    case Timestamp => None
    case UnknownUnit => None
  }

  const MISSING_DISPLAY := "\U{2014}"

  function FormatValue(raw: Option<string>, unit: NumericUnit): string {
    if raw.None? || Trim(raw.value) == "" then MISSING_DISPLAY
    else
      var trimmed := Trim(raw.value);
      if !IsPlainDecimal(trimmed) then trimmed
      else
        (if Decimals(unit).None? then trimmed else RoundDecimalString(trimmed, Decimals(unit).value))
        + (if unit == Percentage then "%" else "")
  }

  // ---------------------------------------------------------------- what a plain decimal denotes

  /** `n` with `k` zeros written after it: `n` times ten to the `k`. */
  function Shifted(n: int, k: nat): int {
    if k == 0 then n else 10 * Shifted(n, k - 1)
  }

  function Places(s: string): nat {
    |Fraction(Unsigned(s))|
  }

  /** The digits without point or sign: `s` denotes plus or minus `Magnitude(s) / 10^Places(s)`. */
  function Magnitude(s: string): nat
    requires IsPlainDecimal(s)
  {
    Val(Whole(Unsigned(s)) + Fraction(Unsigned(s)))
  }

  function WithSign(m: nat, minus: bool): int {
    if minus then -(m as int) else m
  }

  function Signed(s: string): int
    requires IsPlainDecimal(s)
  {
    WithSign(Magnitude(s), IsNegative(s))
  }

  /** `r / 10^p` is `m / 10^f` rounded to `p` places, ties away from zero: it lies within half a
      unit, and at exactly half a unit it is the larger one. */
  ghost predicate IsHalfUp(m: nat, f: nat, r: nat, p: nat) {
    2 * Shifted(r, f) - Shifted(1, f) <= 2 * Shifted(m, p) < 2 * Shifted(r, f) + Shifted(1, f)
  }

  // ---------------------------------------------------------------- digits and values

  lemma {:induction false} ShiftAdds(a: int, b: int, k: nat)
    ensures Shifted(a + b, k) == Shifted(a, k) + Shifted(b, k)
  {
    if k > 0 {
      ShiftAdds(a, b, k - 1);
    }
  }

  lemma {:induction false} ShiftTwice(n: int, j: nat, k: nat, total: nat)
    requires total == j + k
    ensures Shifted(Shifted(n, j), k) == Shifted(n, total)
  {
    if k > 0 {
      ShiftTwice(n, j, k - 1, total - 1);
    }
  }

  lemma {:induction false} ShiftKeepsOrder(a: int, b: int, k: nat)
    ensures a < b <==> Shifted(a, k) < Shifted(b, k)
    ensures a == b <==> Shifted(a, k) == Shifted(b, k)
  {
    if k > 0 {
      ShiftKeepsOrder(a, b, k - 1);
    }
  }

  lemma ShiftOfZero(k: nat)
    ensures Shifted(0, k) == 0
  {
    ShiftAdds(0, 0, k);
  }

  lemma {:induction false} ValAppend(a: string, b: string)
    requires AllDigits(a) && AllDigits(b)
    ensures AllDigits(a + b) && Val(a + b) == Shifted(Val(a), |b|) + Val(b)
  {
    if b == "" {
      assert a + b == a;
    } else {
      var front := b[..|b| - 1];
      ValAppend(a, front);
      assert (a + b)[..|a + b| - 1] == a + front;
    }
  }

  lemma {:induction false} ValBound(d: string)
    requires AllDigits(d)
    ensures Val(d) < Shifted(1, |d|)
  {
    if d != "" {
      ValBound(d[..|d| - 1]);
    }
  }

  lemma {:induction false} ValOfZeros(n: nat)
    ensures AllDigits(Zeros(n)) && Val(Zeros(n)) == 0
  {
    if n > 0 {
      ValOfZeros(n - 1);
      assert Zeros(n)[..n - 1] == Zeros(n - 1);
    }
  }

  lemma {:induction false} ToDigitsIsExact(n: nat)
    ensures AllDigits(ToDigits(n)) && Val(ToDigits(n)) == n
    ensures |ToDigits(n)| >= 1 && (n > 0 ==> Shifted(1, |ToDigits(n)| - 1) <= n)
  {
    if n < 10 {
      assert [Digit(n)][..0] == "";
    } else {
      ToDigitsIsExact(n / 10);
      var front := ToDigits(n / 10);
      assert ToDigits(n)[..|front|] == front;
    }
  }

  lemma {:induction false} PowOrder(a: nat, b: nat)
    ensures a < b <==> Shifted(1, a) < Shifted(1, b)
    ensures Shifted(1, a) >= 1
  {
    if a > 0 && b > 0 {
      PowOrder(a - 1, b - 1);
    } else if b > 0 {
      PowOrder(a, b - 1);
    } else if a > 0 {
      PowOrder(a - 1, b);
    }
  }

  lemma ToDigitsLength(n: nat, width: nat)
    requires 0 < n <= Shifted(1, width)
    ensures |ToDigits(n)| <= width + 1
    ensures |ToDigits(n)| == width + 1 <==> n == Shifted(1, width)
  {
    var t := ToDigits(n);
    ToDigitsIsExact(n);
    ValBound(t);
    PowOrder(width, |t| - 1);
    PowOrder(width, |t|);
  }

  lemma PadStartKeepsValue(t: string, width: nat)
    requires AllDigits(t)
    ensures var s := PadStart(t, width);
            AllDigits(s) && Val(s) == Val(t) && |s| == if |t| < width then width else |t|
  {
    if |t| < width {
      ValOfZeros(width - |t|);
      ValAppend(Zeros(width - |t|), t);
      ShiftOfZero(|t|);
    }
  }

  lemma BumpedIsLongEnough(digits: string)
    requires AllDigits(digits)
    ensures var b := Bumped(digits);
            && AllDigits(b) && Val(b) == Val(digits) + 1
            && |b| == if Val(b) == Shifted(1, |digits|) then |digits| + 1 else |digits|
  {
    var n := Val(digits) + 1;
    ToDigitsIsExact(n);
    ValBound(digits);
    ToDigitsLength(n, |digits|);
    PadStartKeepsValue(ToDigits(n), |digits|);
  }

  lemma PaddedIsDigits(whole: string, fraction: string, places: nat)
    requires AllDigits(whole) && AllDigits(fraction)
    ensures var padded := PadEnd(if |fraction| > places then fraction[..places] else fraction, places);
            AllDigits(whole + padded) && |padded| == places
  {
  }

  // ---------------------------------------------------------------- shapes

  lemma {:induction false} WholeOf(w: string, rest: string)
    requires '.' !in w && (rest == "" || rest[0] == '.')
    ensures Whole(w + rest) == w
  {
    if w == "" {
      assert w + rest == rest;
    } else {
      assert (w + rest)[1..] == w[1..] + rest;
      WholeOf(w[1..], rest);
    }
  }

  lemma ShapeOf(w: string, f: string, places: nat)
    requires w != "" && AllDigits(w) && AllDigits(f) && |f| == places
    ensures var u := if places == 0 then w else w + "." + f;
            !IsNegative(u) && Whole(u) == w && Fraction(u) == f && IsPlainDecimal(u)
  {
    var rest := if places == 0 then "" else "." + f;
    var u := if places == 0 then w else w + "." + f;
    assert u == w + rest;
    WholeOf(w, rest);
    assert AfterWhole(u) == rest;
    assert places > 0 ==> ("." + f)[1..] == f;
  }

  lemma {:induction false} HasNonzeroIff(d: string)
    requires AllDigits(d)
    ensures HasNonzero(d) <==> Val(d) > 0
  {
    if d != "" {
      var front := d[..|d| - 1];
      HasNonzeroIff(front);
      if HasNonzero(d) && d[|d| - 1] == '0' {
        var i :| 0 <= i < |d| && '1' <= d[i] <= '9';
        assert front[i] == d[i];
      }
      if HasNonzero(front) {
        var i :| 0 <= i < |front| && '1' <= front[i] <= '9';
        assert d[i] == front[i];
      }
    }
  }

  lemma NonzeroAcrossThePoint(w: string, f: string, places: nat)
    requires AllDigits(w) && AllDigits(f) && |f| == places
    ensures HasNonzero(if places == 0 then w else w + "." + f) <==> Val(w + f) > 0
  {
    HasNonzeroIff(w + f);
    var u := if places == 0 then w else w + "." + f;
    if HasNonzero(u) {
      var i :| 0 <= i < |u| && '1' <= u[i] <= '9';
      assert i != |w|;
      assert (w + f)[if i < |w| then i else i - 1] == u[i];
    }
    if HasNonzero(w + f) {
      var i :| 0 <= i < |w + f| && '1' <= (w + f)[i] <= '9';
      assert u[if i < |w| then i else i + 1] == (w + f)[i];
    }
  }

  lemma TrimPlain(s: string)
    requires IsPlainDecimal(s)
    ensures Trim(s) == s
  {
    var u := Unsigned(s);
    assert u[0] == Whole(u)[0];
    assert s[0] == '-' || IsDigit(s[0]);
    LastIsDigit(s);
  }

  lemma {:induction false} TrimEndIsPrefix(s: string)
    ensures |TrimEnd(s)| <= |s| && TrimEnd(s) == s[..|TrimEnd(s)|]
    ensures TrimEnd(s) == "" || !IsSpace(TrimEnd(s)[|TrimEnd(s)| - 1])
  {
    if s != "" && IsSpace(s[|s| - 1]) {
      TrimEndIsPrefix(s[..|s| - 1]);
    }
  }

  lemma {:induction false} TrimStartStarts(s: string)
    ensures TrimStart(s) == "" || !IsSpace(TrimStart(s)[0])
  {
    if s != "" && IsSpace(s[0]) {
      TrimStartStarts(s[1..]);
    }
  }

  lemma TrimIsIdempotent(s: string)
    ensures Trim(Trim(s)) == Trim(s)
  {
    TrimStartStarts(s);
    TrimEndIsPrefix(TrimStart(s));
  }

  // ---------------------------------------------------------------- the rounding is exact

  /** Keeping `p` places and looking at one more digit rounds to nearest, ties up. */
  lemma KeptDigitsRound(whole: string, fraction: string, p: nat, r: nat)
    requires AllDigits(whole) && AllDigits(fraction) && p < |fraction|
    requires r == Val(whole + fraction[..p]) + if RoundsUp(fraction, p) then 1 else 0
    ensures IsHalfUp(Val(whole + fraction), |fraction|, r, p)
  {
    var rest := fraction[p + 1..];
    SplitAt(whole, fraction, p);
    ValBound(rest);
    HalfUpOfTail(Val(whole + fraction[..p]), DigitValue(fraction[p]), Val(rest), |rest|, p, r,
                 Val(whole + fraction), |fraction|);
  }

  lemma SplitAt(whole: string, fraction: string, p: nat)
    requires AllDigits(whole) && AllDigits(fraction) && p < |fraction|
    ensures AllDigits(whole + fraction) && AllDigits(whole + fraction[..p])
    ensures var rest := fraction[p + 1..];
            Val(whole + fraction)
            == Shifted(Val(whole + fraction[..p]), |rest| + 1) + Shifted(DigitValue(fraction[p]), |rest|) + Val(rest)
  {
    var rest := fraction[p + 1..];
    assert fraction == fraction[..p] + fraction[p..];
    assert whole + fraction == (whole + fraction[..p]) + fraction[p..];
    assert fraction[p..] == [fraction[p]] + rest;
    ValAppend(whole + fraction[..p], fraction[p..]);
    ValAppend([fraction[p]], rest);
    assert [fraction[p]][..0] == "";
    var kept, d := Val(whole + fraction[..p]), DigitValue(fraction[p]);
    assert Val(whole + fraction) == Shifted(kept, |fraction[p..]|) + Val(fraction[p..]);
  }

  lemma HalfUpOfTail(kept: nat, d: nat, rest: nat, n: nat, p: nat, r: nat, m: nat, f: nat)
    requires d < 10 && rest < Shifted(1, n) && r == kept + if d >= 5 then 1 else 0
    requires m == Shifted(kept, n + 1) + Shifted(d, n) + rest && f == n + 1 + p
    ensures IsHalfUp(m, f, r, p)
  {
    var unit, rr := Shifted(1, n + 1), Shifted(r, n + 1);
    ShiftAdds(kept, 1, n + 1);
    DigitTimes(d, n);
    assert 2 * rr - unit <= 2 * m < 2 * rr + unit;
    ShiftTwice(r, n + 1, p, f);
    ShiftTwice(1, n + 1, p, f);
    ShiftAdds(rr, rr, p);
    ShiftAdds(m, m, p);
    ShiftAdds(rr + rr, unit, p);
    ShiftAdds(m + m, unit, p);
    ShiftKeepsOrder(m + m, rr + rr + unit, p);
    ShiftKeepsOrder(m + m + unit, rr + rr, p);
  }

  lemma DigitTimes(d: nat, n: nat)
    requires d < 10
    ensures d >= 5 ==> 5 * Shifted(1, n) <= Shifted(d, n) <= 9 * Shifted(1, n)
    ensures d < 5 ==> 0 <= Shifted(d, n) <= 4 * Shifted(1, n)
  {
    ShiftOfZero(n);
    ShiftAdds(1, 1, n);
    ShiftAdds(2, 2, n);
    ShiftAdds(4, 1, n);
    ShiftAdds(4, 5, n);
    ShiftKeepsOrder(0, d, n);
    ShiftKeepsOrder(4, d, n);
    ShiftKeepsOrder(5, d, n);
    ShiftKeepsOrder(9, d, n);
  }

  /** Asking for at least the places there are only adds zeros. */
  lemma PaddedDigitsRound(whole: string, fraction: string, p: nat)
    requires AllDigits(whole) && AllDigits(fraction) && |fraction| <= p
    ensures IsHalfUp(Val(whole + fraction), |fraction|, Val(whole + PadEnd(fraction, p)), p)
  {
    ValOfZeros(p - |fraction|);
    ValAppend(whole + fraction, Zeros(p - |fraction|));
    assert whole + PadEnd(fraction, p) == (whole + fraction) + Zeros(p - |fraction|);
    ExactIsHalfUp(Val(whole + fraction), |fraction|, Val(whole + PadEnd(fraction, p)), p);
  }

  lemma ExactIsHalfUp(m: nat, f: nat, r: nat, p: nat)
    requires f <= p && r == Shifted(m, p - f)
    ensures IsHalfUp(m, f, r, p)
  {
    ShiftTwice(m, p - f, f, p);
    PowOrder(f, f);
  }

  /** The digits behind the result, before it is given a point and a sign. */
  function RoundedDigits(whole: string, fraction: string, p: nat): (digits: string)
    requires AllDigits(whole) && AllDigits(fraction)
  {
    var padded := PadEnd(if |fraction| > p then fraction[..p] else fraction, p);
    PaddedIsDigits(whole, fraction, p);
    if RoundsUp(fraction, p) then Bumped(whole + padded) else whole + padded
  }

  lemma ValFits(digits: string, width: nat, places: nat)
    requires AllDigits(digits) && |digits| == width + places
    ensures !Overflows(Val(digits), width, places)
  {
    ValBound(digits);
  }

  lemma BumpedLength(digits: string, width: nat, places: nat)
    requires AllDigits(digits) && |digits| == width + places
    ensures var b := Bumped(digits);
            AllDigits(b) && |b| == width + places + if Overflows(Val(b), width, places) then 1 else 0
  {
    BumpedIsLongEnough(digits);
    ValBound(digits);
  }

  lemma RoundedDigitsLength(whole: string, fraction: string, p: nat)
    requires AllDigits(whole) && AllDigits(fraction)
    ensures var d := RoundedDigits(whole, fraction, p);
            AllDigits(d) && |d| == |whole| + p + if Overflows(Val(d), |whole|, p) then 1 else 0
  {
    var padded := PadEnd(if |fraction| > p then fraction[..p] else fraction, p);
    PaddedIsDigits(whole, fraction, p);
    if RoundsUp(fraction, p) {
      BumpedLength(whole + padded, |whole|, p);
    } else {
      ValFits(whole + padded, |whole|, p);
    }
  }

  lemma RoundedDigitsAreExact(whole: string, fraction: string, p: nat)
    requires AllDigits(whole) && AllDigits(fraction)
    ensures var d := RoundedDigits(whole, fraction, p);
            AllDigits(d) && IsHalfUp(Val(whole + fraction), |fraction|, Val(d), p)
  {
    var padded := PadEnd(if |fraction| > p then fraction[..p] else fraction, p);
    PaddedIsDigits(whole, fraction, p);
    BumpedIsLongEnough(whole + padded);
    if p < |fraction| {
      assert padded == fraction[..p];
      KeptDigitsRound(whole, fraction, p, Val(RoundedDigits(whole, fraction, p)));
    } else {
      PaddedDigitsRound(whole, fraction, p);
    }
  }

  /** More than `width` digits are needed before the point, with `places` after it. */
  predicate Overflows(n: nat, width: nat, places: nat) {
    Shifted(1, width + places) <= n
  }

  /** `r` is what rounding the plain decimal `t` to `places` should give: a plain decimal with
      exactly that many, denoting exactly `t` rounded half away from zero, of the same sign unless
      it is zero (only an integer returned as it came may be a negative zero); and only a carry
      out of the top makes its whole part longer. */
  ghost predicate IsRounding(t: string, places: nat, r: string)
    requires IsPlainDecimal(t)
  {
    && IsPlainDecimal(r) && Places(r) == places
    && IsHalfUp(Magnitude(t), Places(t), Magnitude(r), places)
    && (Magnitude(r) > 0 ==> (IsNegative(r) <==> IsNegative(t)))
    && (Magnitude(r) == 0 && IsNegative(r) ==> places == 0 && r == t && Places(t) == 0)
    && |Whole(Unsigned(r))| ==
       |Whole(Unsigned(t))| + if Overflows(Magnitude(r), |Whole(Unsigned(t))|, places) then 1 else 0
  }

  /** For every plain decimal and every number of places. */
  lemma RoundingIsExact(raw: string, places: nat)
    requires IsPlainDecimal(Trim(raw))
    ensures IsRounding(Trim(raw), places, RoundDecimalString(raw, places))
  {
    TrimmedRoundsExactly(Trim(raw), places);
  }

  lemma TrimmedRoundsExactly(t: string, places: nat)
    requires IsPlainDecimal(t)
    ensures IsRounding(t, places, RoundTrimmed(t, places))
  {
    var whole, fraction := Whole(Unsigned(t)), Fraction(Unsigned(t));
    if places == 0 && fraction == "" {
      IntegerIsItsRounding(t);
    } else {
      var d := RoundedDigits(whole, fraction, places);
      RoundedDigitsLength(whole, fraction, places);
      RoundedDigitsAreExact(whole, fraction, places);
      PointedIsRounding(t, whole, fraction, places, d);
      RoundIsPointed(t, whole, fraction, places, d);
    }
  }

  lemma SplitDigits(d: string, cut: nat)
    requires AllDigits(d) && cut <= |d|
    ensures d[..cut] + d[cut..] == d && AllDigits(d[..cut]) && AllDigits(d[cut..])
  {
  }

  lemma IntegerIsItsRounding(t: string)
    requires IsPlainDecimal(t) && Fraction(Unsigned(t)) == ""
    ensures IsRounding(t, 0, t)
  {
    var whole := Whole(Unsigned(t));
    assert whole + Fraction(Unsigned(t)) == whole;
    ValBound(whole);
  }

  /** Digits with a point `places` from their end, and the sign the result is given. */
  function Pointed(t: string, d: string, places: nat): string
    requires places < |d|
  {
    var w, f := d[..|d| - places], d[|d| - places..];
    var result := if places == 0 then w else w + "." + f;
    if IsNegative(t) && HasNonzero(result) then "-" + result else result
  }

  /** `t` is a plain decimal with these parts. */
  ghost predicate HasParts(t: string, whole: string, fraction: string) {
    && IsPlainDecimal(t)
    && whole == Whole(Unsigned(t)) && fraction == Fraction(Unsigned(t))
    && AllDigits(whole) && AllDigits(fraction) && AllDigits(whole + fraction) && whole != ""
  }

  lemma PointedIsRounding(t: string, whole: string, fraction: string, places: nat, d: string)
    requires HasParts(t, whole, fraction) && AllDigits(d)
    requires |d| == |whole| + places + if Overflows(Val(d), |whole|, places) then 1 else 0
    requires IsHalfUp(Val(whole + fraction), |fraction|, Val(d), places)
    ensures IsRounding(t, places, Pointed(t, d, places))
  {
    var r := Pointed(t, d, places);
    PointedHasParts(t, d, places);
    PartsMeasure(t, whole, fraction);
    PartsMeasure(r, d[..|d| - places], d[|d| - places..]);
    assert IsPlainDecimal(r) && Places(r) == places && Magnitude(r) == Val(d);
    assert IsHalfUp(Magnitude(t), Places(t), Magnitude(r), places);
    var was := |Whole(Unsigned(t))|;
    assert was == |whole|;
    assert |Whole(Unsigned(r))| == was + if Overflows(Magnitude(r), was, places) then 1 else 0;
    assert IsNegative(r) <==> IsNegative(t) && Magnitude(r) > 0;
  }

  lemma PointedHasParts(t: string, d: string, places: nat)
    requires AllDigits(d) && places < |d|
    ensures var r, w, f := Pointed(t, d, places), d[..|d| - places], d[|d| - places..];
            HasParts(r, w, f) && w + f == d && (IsNegative(r) <==> IsNegative(t) && Val(d) > 0)
  {
    var w, f := d[..|d| - places], d[|d| - places..];
    var result := if places == 0 then w else w + "." + f;
    SplitDigits(d, |d| - places);
    JoinedHasParts(d, w, f, places, result);
    SignedShape(result, w, f, IsNegative(t) && HasNonzero(result));
  }

  lemma JoinedHasParts(d: string, w: string, f: string, places: nat, result: string)
    requires w != "" && AllDigits(w) && AllDigits(f) && |f| == places && w + f == d
    requires result == if places == 0 then w else w + "." + f
    ensures HasParts(result, w, f) && !IsNegative(result) && AllDigits(d)
    ensures HasNonzero(result) <==> Val(d) > 0
  {
    ShapeOf(w, f, places);
    NonzeroAcrossThePoint(w, f, places);
  }

  lemma PartsMeasure(t: string, whole: string, fraction: string)
    requires HasParts(t, whole, fraction)
    ensures Magnitude(t) == Val(whole + fraction) && Places(t) == |fraction|
    ensures |Whole(Unsigned(t))| == |whole|
  {
  }

  lemma SignedShape(u: string, w: string, f: string, minus: bool)
    requires !IsNegative(u) && HasParts(u, w, f)
    ensures var r := if minus then "-" + u else u;
            HasParts(r, w, f) && (IsNegative(r) <==> minus)
  {
    assert ("-" + u)[1..] == u;
  }

  lemma PointSplits(d: string, places: nat)
    requires places < |d|
    ensures var w, f := d[..|d| - places], d[|d| - places..];
            Point(d, places) == if places == 0 then w else w + "." + f
  {
    assert places == 0 ==> d[..|d|] == d;
  }

  lemma RoundIsPointed(t: string, whole: string, fraction: string, places: nat, d: string)
    requires HasParts(t, whole, fraction) && !(places == 0 && fraction == "")
    requires d == RoundedDigits(whole, fraction, places) && places < |d|
    ensures RoundTrimmed(t, places) == Pointed(t, d, places)
  {
    var padded := PadEnd(if |fraction| > places then fraction[..places] else fraction, places);
    PaddedIsDigits(whole, fraction, places);
    if RoundsUp(fraction, places) {
      BumpedIsLongEnough(whole + padded);
      PointSplits(d, places);
    } else {
      assert d[..|d| - places] == whole;
      assert d[|d| - places..] == padded;
    }
  }

  // ---------------------------------------------------------------- what follows from it

  lemma RoundingIsTrimmed(raw: string, places: nat)
    ensures Trim(RoundDecimalString(raw, places)) == RoundDecimalString(raw, places)
  {
    if IsPlainDecimal(Trim(raw)) {
      RoundingIsExact(raw, places);
      TrimPlain(RoundDecimalString(raw, places));
    } else {
      TrimIsIdempotent(raw);
    }
  }

  /** Rounding what was rounded changes nothing, whatever the text was. */
  lemma RoundingIsIdempotent(raw: string, places: nat)
    ensures var r := RoundDecimalString(raw, places);
            RoundDecimalString(r, places) == r
  {
    RoundingIsTrimmed(raw, places);
    if IsPlainDecimal(Trim(raw)) {
      RoundingIsExact(raw, places);
      RoundedStaysRounded(RoundDecimalString(raw, places), places);
    }
  }

  lemma RoundedStaysRounded(r: string, places: nat)
    requires IsPlainDecimal(r) && Places(r) == places
    requires places > 0 && Magnitude(r) == 0 ==> !IsNegative(r)
    ensures RoundTrimmed(r, places) == r
  {
    var whole, fraction := Whole(Unsigned(r)), Fraction(Unsigned(r));
    if places > 0 {
      var u := Unsigned(r);
      assert AfterWhole(u) == "." + fraction;
      assert u == whole + "." + fraction;
      NonzeroAcrossThePoint(whole, fraction, places);
    }
  }

  /** `a` denotes no more than `b`: the two put over a common power of ten. */
  ghost predicate AtMost(a: string, b: string)
    requires IsPlainDecimal(a) && IsPlainDecimal(b)
  {
    Shifted(Signed(a), Places(b)) <= Shifted(Signed(b), Places(a))
  }

  lemma {:induction false} HalfUpScales(m: nat, f: nat, r: nat, p: nat, k: nat)
    requires IsHalfUp(m, f, r, p)
    ensures IsHalfUp(m, f + k, r, p + k)
  {
    if k > 0 {
      HalfUpScales(m, f, r, p, k - 1);
    }
  }

  lemma {:induction false} OrderScales(a: int, i: nat, b: int, j: nat, k: nat)
    requires Shifted(a, i) <= Shifted(b, j)
    ensures Shifted(a, i + k) <= Shifted(b, j + k)
  {
    if k > 0 {
      OrderScales(a, i, b, j, k - 1);
    }
  }

  lemma HalfUpKeepsOrder(ma: nat, fa: nat, ra: nat, mb: nat, fb: nat, rb: nat, p: nat)
    requires IsHalfUp(ma, fa, ra, p) && IsHalfUp(mb, fb, rb, p)
    requires Shifted(ma, fb) <= Shifted(mb, fa)
    ensures ra <= rb
  {
    HalfUpScales(ma, fa, ra, p, fb);
    HalfUpScales(mb, fb, rb, p, fa);
    OrderScales(ma, fb, mb, fa, p);
    OverlapOrders(Shifted(ma, p + fb), Shifted(mb, p + fa), ra, rb, fa + fb);
  }

  lemma OverlapOrders(a: int, b: int, ra: nat, rb: nat, f: nat)
    requires a <= b
    requires 2 * Shifted(ra, f) - Shifted(1, f) <= 2 * a
    requires 2 * b < 2 * Shifted(rb, f) + Shifted(1, f)
    ensures ra <= rb
  {
    ShiftAdds(rb, 1, f);
    ShiftKeepsOrder(ra, rb + 1, f);
  }

  lemma {:induction false} ShiftNegates(n: int, k: nat)
    ensures Shifted(-n, k) == -Shifted(n, k)
    ensures n >= 0 ==> Shifted(n, k) >= n
  {
    if k > 0 {
      ShiftNegates(n, k - 1);
    }
  }

  /** A smaller value never rounds to a larger one. */
  lemma RoundingKeepsOrder(a: string, b: string, places: nat)
    requires IsPlainDecimal(Trim(a)) && IsPlainDecimal(Trim(b)) && AtMost(Trim(a), Trim(b))
    ensures var ra, rb := RoundDecimalString(a, places), RoundDecimalString(b, places);
            IsPlainDecimal(ra) && IsPlainDecimal(rb) && AtMost(ra, rb)
  {
    RoundingIsExact(a, places);
    RoundingIsExact(b, places);
    RoundingsKeepOrder(Trim(a), RoundDecimalString(a, places), Trim(b), RoundDecimalString(b, places), places);
  }

  lemma RoundingsKeepOrder(s: string, rs: string, t: string, rt: string, places: nat)
    requires IsPlainDecimal(s) && IsPlainDecimal(t) && AtMost(s, t)
    requires IsRounding(s, places, rs) && IsRounding(t, places, rt)
    ensures AtMost(rs, rt)
  {
    SignedOrder(Magnitude(s), Places(s), Magnitude(rs), IsNegative(s),
                Magnitude(t), Places(t), Magnitude(rt), IsNegative(t), places);
    OrderShifts(Signed(rs), Signed(rt), places);
  }

  lemma OrderShifts(a: int, b: int, k: nat)
    requires a <= b
    ensures Shifted(a, k) <= Shifted(b, k)
  {
    ShiftKeepsOrder(a, b, k);
  }

  lemma SignedOrder(ma: nat, fa: nat, ra: nat, na: bool, mb: nat, fb: nat, rb: nat, nb: bool, p: nat)
    requires IsHalfUp(ma, fa, ra, p) && IsHalfUp(mb, fb, rb, p)
    requires Shifted(WithSign(ma, na), fb) <= Shifted(WithSign(mb, nb), fa)
    ensures WithSign(ra, na) <= WithSign(rb, nb)
  {
    ShiftNegates(ma, fb);
    ShiftNegates(mb, fa);
    if na && nb {
      HalfUpKeepsOrder(mb, fb, rb, ma, fa, ra, p);
    } else if !na && !nb {
      HalfUpKeepsOrder(ma, fa, ra, mb, fb, rb, p);
    } else if !na {
      assert ma == 0 && mb == 0;
      ZeroRoundsToZero(fa, ra, p);
      ZeroRoundsToZero(fb, rb, p);
    }
  }

  lemma ZeroRoundsToZero(f: nat, r: nat, p: nat)
    requires IsHalfUp(0, f, r, p)
    ensures r == 0
  {
    ShiftOfZero(p);
    if r > 0 {
      ShiftKeepsOrder(1, r, f);
      PowOrder(f, f);
    }
  }

  /** What is shown of a plain decimal: the number rounded to the places its unit has, and "%" for
      percentages only; of any other text the text itself, undressed. */
  lemma FormattingIsExact(raw: string, unit: NumericUnit)
    ensures var t, shown := Trim(raw), FormatValue(Some(raw), unit);
            && (t != "" && !IsPlainDecimal(t) ==> shown == t)
            && (IsPlainDecimal(t) ==>
                  match unit
                  case Percentage => exists d :: shown == d + "%" && IsRounding(t, 1, d)
                  case Score => IsRounding(t, 0, shown)
                  case Ratio => IsRounding(t, 2, shown)
                  case Contracts => IsRounding(t, 0, shown)
                  case Currency => IsRounding(t, 2, shown)
                  case Indicator => IsRounding(t, 2, shown)
                  case Price => shown == t
                  case Timestamp => shown == t
                  case UnknownUnit => shown == t)
  {
    var t := Trim(raw);
    if IsPlainDecimal(t) {
      TrimIsIdempotent(raw);
      if Decimals(unit).Some? {
        RoundingIsExact(t, Decimals(unit).value);
        var d := RoundDecimalString(t, Decimals(unit).value);
        assert unit != Percentage ==> d + "" == d;
      } else {
        assert t + "" == t;
      }
    }
  }

  /** The dash appears exactly where there is no value, or only white space (or a dash was sent). */
  lemma DashIff(raw: Option<string>, unit: NumericUnit)
    ensures FormatValue(raw, unit) == "\U{2014}" <==>
            raw.None? || Trim(raw.value) == "" || Trim(raw.value) == "\U{2014}"
  {
    if raw.Some? && IsPlainDecimal(Trim(raw.value)) {
      FormattingIsExact(raw.value, unit);
      var shown := FormatValue(raw, unit);
      if unit == Percentage {
        var d :| shown == d + "%" && IsRounding(Trim(raw.value), 1, d);
        assert shown[|shown| - 1] == '%';
      } else if Decimals(unit).Some? {
        assert IsPlainDecimal(shown);
        DashIsNoDecimal();
      } else {
        DashIsNoDecimal();
      }
    } else {
      DashIsNoDecimal();
    }
  }

  lemma DashIsNoDecimal()
    ensures !IsPlainDecimal("\U{2014}")
  {
    assert Unsigned("\U{2014}") == "\U{2014}";
  }

  /** Displaying what is displayed changes nothing: a value once dressed with its unit, or shown
      as missing, or passed through as text, passes through again. */
  lemma FormattingIsIdempotent(raw: Option<string>, unit: NumericUnit)
    ensures FormatValue(Some(FormatValue(raw, unit)), unit) == FormatValue(raw, unit)
  {
    var shown := FormatValue(raw, unit);
    if raw.None? || Trim(raw.value) == "" {
      assert !IsPlainDecimal(MISSING_DISPLAY);
    } else {
      var t := Trim(raw.value);
      TrimIsIdempotent(raw.value);
      if IsPlainDecimal(t) {
        TrimPlain(t);
        var value := if Decimals(unit).None? then t else RoundDecimalString(t, Decimals(unit).value);
        if Decimals(unit).Some? {
          RoundingIsExact(t, Decimals(unit).value);
          RoundingIsTrimmed(t, Decimals(unit).value);
          RoundingIsIdempotent(t, Decimals(unit).value);
        }
        if unit == Percentage {
          PercentIsNoDecimal(value);
        } else {
          assert shown == value;
          TrimPlain(value);
        }
      }
    }
  }

  lemma PercentIsNoDecimal(value: string)
    requires IsPlainDecimal(value)
    ensures !IsPlainDecimal(value + "%") && Trim(value + "%") == value + "%"
  {
    var v, u := value + "%", Unsigned(value);
    assert value[0] == '-' || value[0] == Whole(u)[0];
    assert Unsigned(v) == u + "%";
    assert v[|v| - 1] == '%';
    if IsPlainDecimal(v) {
      LastIsDigit(v);
    }
  }

  lemma LastIsDigit(s: string)
    requires IsPlainDecimal(s)
    ensures IsDigit(s[|s| - 1])
  {
    var u := Unsigned(s);
    if AfterWhole(u) == "" {
      assert s[|s| - 1] == Whole(u)[|Whole(u)| - 1];
    } else {
      assert s[|s| - 1] == Fraction(u)[|Fraction(u)| - 1];
    }
  }

  // ---------------------------------------------------------------- what the words mean

  lemma SpaceIsListed(c: char)
    ensures IsSpace(c) <==>
            c in {'\t', '\n', '\U{000B}', '\U{000C}', '\r', ' ', '\U{00A0}', '\U{1680}', '\U{2000}', '\U{2001}',
                  '\U{2002}', '\U{2003}', '\U{2004}', '\U{2005}', '\U{2006}', '\U{2007}', '\U{2008}', '\U{2009}',
                  '\U{200A}', '\U{2028}', '\U{2029}', '\U{202F}', '\U{205F}', '\U{3000}', '\U{FEFF}'}
  {
  }

  predicate AllSpace(s: string) {
    forall i | 0 <= i < |s| :: IsSpace(s[i])
  }

  lemma {:induction false} TrimStartIs(s: string) returns (before: string)
    ensures s == before + TrimStart(s) && AllSpace(before)
    ensures TrimStart(s) != "" ==> !IsSpace(TrimStart(s)[0])
  {
    before := "";
    if s != "" && IsSpace(s[0]) {
      var rest := TrimStartIs(s[1..]);
      before := [s[0]] + rest;
    }
  }

  lemma {:induction false} TrimEndIs(s: string) returns (after: string)
    ensures s == TrimEnd(s) + after && AllSpace(after)
    ensures TrimEnd(s) != "" ==> !IsSpace(TrimEnd(s)[|TrimEnd(s)| - 1])
  {
    after := "";
    if s != "" && IsSpace(s[|s| - 1]) {
      var rest := TrimEndIs(s[..|s| - 1]);
      after := rest + [s[|s| - 1]];
    }
  }

  /** Trimming takes the white space off both ends, and nothing else. */
  lemma TrimIs(s: string) returns (before: string, after: string)
    ensures s == before + Trim(s) + after && AllSpace(before) && AllSpace(after)
    ensures Trim(s) != "" ==> !IsSpace(Trim(s)[0]) && !IsSpace(Trim(s)[|Trim(s)| - 1])
  {
    before := TrimStartIs(s);
    after := TrimEndIs(TrimStart(s));
  }

  ghost predicate DecimalParts(sign: string, w: string, f: string) {
    && (sign == "" || sign == "-")
    && w != "" && (forall i | 0 <= i < |w| :: '0' <= w[i] <= '9')
    && (f == "" || (|f| >= 2 && f[0] == '.' && forall i | 1 <= i < |f| :: '0' <= f[i] <= '9'))
  }

  /** A plain decimal is digits, perhaps a point and digits, perhaps a minus before them - */
  lemma PlainDecimalHasParts(s: string) returns (sign: string, w: string, f: string)
    requires IsPlainDecimal(s)
    ensures DecimalParts(sign, w, f) && s == sign + w + f
  {
    var u := Unsigned(s);
    sign, w, f := if IsNegative(s) then "-" else "", Whole(u), AfterWhole(u);
    assert u == w + f;
    forall i | 1 <= i < |f| ensures '0' <= f[i] <= '9' {
      assert f[i] == Fraction(u)[i - 1];
    }
  }

  /** - and any such text is one. */
  lemma PartsArePlainDecimal(sign: string, w: string, f: string)
    requires DecimalParts(sign, w, f)
    ensures IsPlainDecimal(sign + w + f)
  {
    var s := sign + w + f;
    UnsignedParts(sign, w + f);
    assert s == sign + (w + f);
    WholeOf(w, f);
  }

  lemma UnsignedParts(sign: string, u: string)
    requires (sign == "" || sign == "-") && u != "" && u[0] != '-'
    ensures Unsigned(sign + u) == u
  {
  }

  lemma ExampleParts(t: string, w: string, f: string)
    requires w != "" && f != "" && AllDigits(w) && AllDigits(f) && t == w + "." + f
    ensures IsPlainDecimal(t) && Trim(t) == t && !IsNegative(t) && Unsigned(t) == t && Whole(t) == w && Fraction(t) == f
  {
    ShapeOf(w, f, |f|);
    TrimPlain(t);
  }

  lemma ExampleDigits()
    ensures AllDigits("1234") && Val("1234") == 1234 && ToDigits(1235) == "1235"
    ensures AllDigits("999") && Val("999") == 999 && ToDigits(1000) == "1000"
  {
    assert "1234"[..3] == "123" && "123"[..2] == "12" && "12"[..1] == "1" && "1"[..0] == "";
    assert Val("1") == 1 && Val("12") == 12 && Val("123") == 123;
    assert ToDigits(1) == "1" && ToDigits(12) == "12" && ToDigits(123) == "123";
    assert "999"[..2] == "99" && "99"[..1] == "9" && "9"[..0] == "";
    assert Val("9") == 9 && Val("99") == 99;
    assert ToDigits(10) == "10" && ToDigits(100) == "100";
  }

  lemma ExampleBumps(w: string, f: string, digits: string, bumped: string)
    requires w != "" && |f| == 3 && AllDigits(w) && AllDigits(f) && f[2] >= '5' && digits == w + f[..2]
    requires AllDigits(digits) && bumped == Bumped(digits) && |bumped| >= 3
    ensures RoundTrimmed(w + "." + f, 2) == bumped[..|bumped| - 2] + "." + bumped[|bumped| - 2..]
  {
    ExampleParts(w + "." + f, w, f);
    assert PadEnd(f[..2], 2) == f[..2];
  }

  /** Two texts worked through: an amount, and a carry across the point. */
  lemma AmountExample()
    ensures FormatValue(Some("12.345"), Currency) == "12.35"
  {
    ExampleDigits();
    assert "12" + "." + "345" == "12.345" && "12" + "345"[..2] == "1234";
    ExampleParts("12.345", "12", "345");
    ExampleBumps("12", "345", "1234", "1235");
    assert "1235"[..2] + "." + "1235"[2..] == "12.35";
    assert "12.35" + "" == "12.35";
  }

  lemma CarryExample()
    ensures RoundDecimalString("9.995", 2) == "10.00"
  {
    ExampleDigits();
    assert "9" + "." + "995" == "9.995" && "9" + "995"[..2] == "999";
    ExampleParts("9.995", "9", "995");
    ExampleBumps("9", "995", "999", "1000");
    assert "1000"[..2] + "." + "1000"[2..] == "10.00";
  }
}
