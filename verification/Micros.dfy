/** internal/adapter/budget.go:14-65: dollar amounts as JSON numbers, accounted in whole micro-dollars
    and always rounded up. */
module Micros {
  import opened Outcomes
  import opened Texts

  const MILLION := 1_000_000
  const LIMIT := 2_000_000_000_000_000

  // ---------- decimal digits ----------

  predicate Digit(c: char) {
    '0' <= c <= '9'
  }

  predicate Digits(s: string) {
    forall i :: 0 <= i < |s| ==> Digit(s[i])
  }

  function Val(s: string): nat
    requires Digits(s)
  {
    if s == "" then 0 else Val(s[..|s| - 1]) * 10 + (s[|s| - 1] as int - '0' as int)
  }

  function Pow10(k: nat): (p: nat)
    ensures p > 0
  {
    if k == 0 then 1 else 10 * Pow10(k - 1)
  }

  lemma {:induction false} PowAdds(a: nat, b: nat)
    ensures Pow10(a + b) == Pow10(a) * Pow10(b)
  {
    if a > 0 {
      PowAdds(a - 1, b);
      assert Pow10(a + b) == 10 * (Pow10(a - 1) * Pow10(b));
      assert Pow10(a) * Pow10(b) == 10 * Pow10(a - 1) * Pow10(b);
    }
  }

  lemma PowSix()
    ensures Pow10(6) == MILLION
  {
    assert Pow10(2) == 100;
    assert Pow10(4) == 10_000;
  }

  lemma {:induction false} ValAppended(a: string, b: string)
    requires Digits(a) && Digits(b)
    ensures Digits(a + b) && Val(a + b) == Val(a) * Pow10(|b|) + Val(b)
  {
    if b == "" {
      assert a + b == a;
    } else {
      var c := b[..|b| - 1];
      var d := b[|b| - 1] as int - '0' as int;
      ValAppended(a, c);
      assert (a + b)[..|a + b| - 1] == a + c;
      Shifted(Val(a), Pow10(|c|), Val(c), d);
    }
  }

  lemma Shifted(a: int, p: int, c: int, d: int)
    ensures (a * p + c) * 10 + d == a * (10 * p) + (c * 10 + d)
  {
    assert a * (10 * p) == a * p * 10;
  }

  // ---------- the grammar ----------

  /** whole, fraction and exponent are the three groups of the pattern in budget.go:17; the last two
      are empty when absent. */
  datatype Number = Number(whole: string, fraction: string, exponent: string)

  predicate Signed(x: string) {
    x != "" && (if x[0] == '+' || x[0] == '-' then |x| > 1 && Digits(x[1..]) else Digits(x))
  }

  predicate Grammatical(n: Number) {
    && n.whole != "" && Digits(n.whole) && (n.whole[0] == '0' ==> |n.whole| == 1)
    && Digits(n.fraction)
    && (n.exponent == "" || Signed(n.exponent))
  }

  function Point(n: Number): string {
    if n.fraction == "" then "" else "." + n.fraction
  }

  function Power(n: Number, letter: char): string {
    if n.exponent == "" then "" else [letter] + n.exponent
  }

  function Written(n: Number, letter: char): string {
    n.whole + (Point(n) + Power(n, letter))
  }

  /** A non-negative number of section 6 of RFC 8259, written with one of the two exponent letters. */
  ghost predicate Spells(text: string, n: Number) {
    Grammatical(n) && (text == Written(n, 'e') || text == Written(n, 'E'))
  }

  function Leading(s: string): (n: nat)
    ensures n <= |s| && Digits(s[..n]) && (n < |s| ==> !Digit(s[n]))
  {
    if s == "" || !Digit(s[0]) then 0
    else
      assert s[..1 + Leading(s[1..])] == [s[0]] + s[1..][..Leading(s[1..])];
      1 + Leading(s[1..])
  }

  /** Digits followed by something else are found whole. */
  lemma {:induction false} LeadingExact(a: string, b: string)
    requires Digits(a) && (b == "" || !Digit(b[0]))
    ensures Leading(a + b) == |a|
  {
    if a == "" {
      assert a + b == b;
    } else {
      assert (a + b)[1..] == a[1..] + b;
      LeadingExact(a[1..], b);
    }
  }

  function MatchExponent(s: string, whole: string, fraction: string): Option<Number> {
    if s == "" then Some(Number(whole, fraction, ""))
    else if (s[0] == 'e' || s[0] == 'E') && Signed(s[1..]) then Some(Number(whole, fraction, s[1..]))
    else None
  }

  function MatchFraction(s: string, whole: string): Option<Number> {
    if s == "" || s[0] != '.' then MatchExponent(s, whole, "")
    else
      var k := Leading(s[1..]);
      if k == 0 then None else MatchExponent(s[1 + k..], whole, s[1..1 + k])
  }

  /** The pattern of budget.go:17 applied to the whole text. */
  function Matched(s: string): Option<Number> {
    var k := Leading(s);
    if k == 0 || (k > 1 && s[0] == '0') then None else MatchFraction(s[k..], s[..k])
  }

  lemma ExponentSound(u: string, whole: string, fraction: string)
    requires MatchExponent(u, whole, fraction).Some?
    ensures var n := MatchExponent(u, whole, fraction).value;
      && n.whole == whole && n.fraction == fraction && (n.exponent == "" || Signed(n.exponent))
      && (u == Power(n, 'e') || u == Power(n, 'E'))
  {
    if u != "" {
      assert u == [u[0]] + u[1..];
    }
  }

  lemma FractionSound(t: string, whole: string)
    requires MatchFraction(t, whole).Some?
    ensures var n := MatchFraction(t, whole).value;
      && n.whole == whole && Digits(n.fraction) && (n.exponent == "" || Signed(n.exponent))
      && (t == Point(n) + Power(n, 'e') || t == Point(n) + Power(n, 'E'))
  {
    var n := MatchFraction(t, whole).value;
    if t == "" || t[0] != '.' {
      ExponentSound(t, whole, "");
      assert "" + t == t;
    } else {
      var k := Leading(t[1..]);
      assert t[1..1 + k] == t[1..][..k];
      ExponentSound(t[1 + k..], whole, t[1..1 + k]);
      assert t == ("." + t[1..1 + k]) + t[1 + k..];
    }
  }

  lemma MatchSound(s: string)
    requires Matched(s).Some?
    ensures Spells(s, Matched(s).value)
  {
    var k := Leading(s);
    FractionSound(s[k..], s[..k]);
    assert s == s[..k] + s[k..];
  }

  lemma FractionComplete(n: Number, letter: char)
    requires Grammatical(n) && (letter == 'e' || letter == 'E')
    ensures MatchFraction(Point(n) + Power(n, letter), n.whole) == Some(n)
  {
    var u := Power(n, letter);
    var t := Point(n) + u;
    assert u != "" ==> u[1..] == n.exponent;
    assert MatchExponent(u, n.whole, n.fraction) == Some(n);
    if n.fraction == "" {
      assert t == u;
    } else {
      assert t[1..] == n.fraction + u;
      LeadingExact(n.fraction, u);
      assert t[1..1 + |n.fraction|] == n.fraction && t[1 + |n.fraction|..] == u;
    }
  }

  lemma MatchComplete(n: Number, letter: char)
    requires Grammatical(n) && (letter == 'e' || letter == 'E')
    ensures Matched(Written(n, letter)) == Some(n)
  {
    var t := Point(n) + Power(n, letter);
    assert t != "" ==> t[0] == '.' || t[0] == letter;
    LeadingExact(n.whole, t);
    var s := n.whole + t;
    assert s[..|n.whole|] == n.whole && s[|n.whole|..] == t;
    FractionComplete(n, letter);
  }

  /** The pattern accepts the grammar, and nothing in two ways. */
  lemma MatchExact(s: string, n: Number)
    ensures Matched(s) == Some(n) <==> Spells(s, n)
  {
    if Matched(s) == Some(n) {
      MatchSound(s);
    }
    if Spells(s, n) {
      MatchComplete(n, if s == Written(n, 'e') then 'e' else 'E');
    }
  }

  // ---------- what a number denotes ----------

  function Exponent(x: string): int
    requires x == "" || Signed(x)
  {
    if x == "" then 0
    else if x[0] == '-' then -(Val(x[1..]) as int)
    else if x[0] == '+' then Val(x[1..])
    else Val(x)
  }

  function Scale(n: Number): int
    requires Grammatical(n)
  {
    Exponent(n.exponent) - |n.fraction|
  }

  function Mantissa(n: Number): nat
    requires Grammatical(n)
  {
    ValAppended(n.whole, n.fraction);
    Val(n.whole + n.fraction)
  }

  /** The number is Top(n) / Bottom(n). */
  ghost function Top(n: Number): nat
    requires Grammatical(n)
  {
    if Scale(n) >= 0 then Mantissa(n) * Pow10(Scale(n)) else Mantissa(n)
  }

  ghost function Bottom(n: Number): (b: nat)
    requires Grammatical(n)
    ensures b > 0
  {
    if Scale(n) >= 0 then 1 else Pow10(-Scale(n))
  }

  /** u is the least integer not below a million times top / bottom. */
  ghost predicate LeastAbove(u: int, top: int, bottom: int) {
    (u - 1) * bottom < MILLION * top <= u * bottom
  }

  /** u is the least number of micro-dollars that is not below the amount. */
  ghost predicate Ceiling(u: int, n: Number)
    requires Grammatical(n)
  {
    LeastAbove(u, Top(n), Bottom(n))
  }

  lemma MulLess(x: int, y: int, w: int)
    requires x < y && w > 0
    ensures x * w < y * w
  {
  }

  lemma MulMost(x: int, y: int, w: int)
    requires x <= y && w >= 0
    ensures x * w <= y * w
  {
  }

  lemma CrossedLeast(u: int, a: int, b: int, v: int, c: int, d: int)
    requires b > 0 && d > 0 && LeastAbove(u, a, b) && LeastAbove(v, c, d) && a * d <= c * b
    ensures u <= v
  {
    var w := b * d;
    MulLess((u - 1) * b, MILLION * a, d);
    MulMost(MILLION * c, v * d, b);
    assert (u - 1) * b * d == (u - 1) * w;
    assert v * d * b == v * w;
    assert MILLION * a * d == MILLION * (a * d);
    assert MILLION * c * b == MILLION * (c * b);
    Unscaled(u - 1, v, w);
  }

  lemma Unscaled(x: int, y: int, w: int)
    requires w > 0 && x * w < y * w
    ensures x < y
  {
    if y <= x {
      MulMost(y, x, w);
      assert false;
    }
  }

  lemma LargerNeedsMore(u: int, n: Number, v: int, m: Number)
    requires Grammatical(n) && Grammatical(m) && Ceiling(u, n) && Ceiling(v, m)
    requires Top(n) * Bottom(m) <= Top(m) * Bottom(n)
    ensures u <= v
  {
    CrossedLeast(u, Top(n), Bottom(n), v, Top(m), Bottom(m));
  }

  // ---------- parsing ----------

  /** What parsing promises: an amount is reported exactly when the text is a number of the grammar,
      with an exponent between -1000 and 1000, whose ceiling is in the accounting range; and it is
      that ceiling. */
  ghost predicate Reports(raw: string, r: Outcome<int>) {
    match r
    case Accepted(u) => u <= LIMIT && exists n :: Worth(raw, n, u)
    case Refused => forall n, u :: Worth(raw, n, u) ==> u > LIMIT
  }

  ghost predicate Worth(raw: string, n: Number, u: int) {
    Spells(Trim(raw), n) && -1000 <= Exponent(n.exponent) <= 1000 && Ceiling(u, n)
  }

  /** budget.go:27-65 */
  method ParseUSDMicros(raw: string) returns (r: Outcome<int>)
    ensures Reports(raw, r)
  {
    var m := Matched(Trim(raw));
    forall n ensures Spells(Trim(raw), n) <==> m == Some(n) {
      MatchExact(Trim(raw), n);
    }
    if m.None? {
      return Refused;
    }
    var n := m.value;
    var exponent := Exponent(n.exponent);
    if exponent < -1000 || exponent > 1000 {
      return Refused;
    }
    var value := Scaled(n);
    if value > LIMIT {
      forall k, u | Worth(raw, k, u) ensures u > LIMIT {
        LargerNeedsMore(value, n, u, n);
      }
      return Refused;
    }
    assert Worth(raw, n, value);
    return Accepted(value);
  }

  /** budget.go:40-60 */
  method Scaled(n: Number) returns (value: int)
    requires Grammatical(n)
    ensures Ceiling(value, n)
  {
    var digits := Mantissa(n);
    if digits == 0 {
      ZeroCeiling(n);
      return 0;
    }
    var power := 6 - |n.fraction| + Exponent(n.exponent);
    if power >= 0 {
      value := digits * Pow10(power);
      MultipliedCeiling(n, power);
    } else {
      var divisor := Pow10(-power);
      var quotient, remainder := digits / divisor, digits % divisor;
      value := quotient;
      if remainder > 0 {
        value := value + 1;
      }
      DividedCeiling(n, -power, value);
    }
  }

  lemma ZeroCeiling(n: Number)
    requires Grammatical(n) && Mantissa(n) == 0
    ensures Ceiling(0, n)
  {
    assert Top(n) == 0;
  }

  lemma MultipliedCeiling(n: Number, power: nat)
    requires Grammatical(n) && power == 6 + Scale(n)
    ensures Ceiling(Mantissa(n) * Pow10(power), n)
  {
    var e := Scale(n);
    PowSix();
    if e >= 0 {
      PowAdds(6, e);
      WholeMillions(Mantissa(n), Pow10(e), Pow10(power));
    } else {
      PowAdds(power, -e);
      PartOfMillion(Mantissa(n), Pow10(power), Pow10(-e));
    }
  }

  lemma WholeMillions(d: int, p: int, q: int)
    requires q == MILLION * p
    ensures LeastAbove(d * q, d * p, 1)
  {
    assert d * (MILLION * p) == MILLION * (d * p);
  }

  lemma PartOfMillion(d: int, p: int, q: int)
    requires p * q == MILLION && q > 0
    ensures LeastAbove(d * p, d, q)
  {
    assert d * p * q == d * (p * q);
    assert (d * p - 1) * q == d * p * q - q;
  }

  lemma DividedCeiling(n: Number, k: nat, value: int)
    requires Grammatical(n) && k > 0 && k == -6 - Scale(n)
    requires var d := Mantissa(n); var q := Pow10(k); value == d / q + (if d % q > 0 then 1 else 0)
    ensures Ceiling(value, n)
  {
    PowSix();
    PowAdds(k, 6);
    RoundedUp(Mantissa(n), Pow10(k), value);
  }

  lemma RoundedUp(d: int, q: int, v: int)
    requires q > 0 && v == d / q + (if d % q > 0 then 1 else 0)
    ensures LeastAbove(v, d, q * MILLION)
  {
    assert d == d / q * q + d % q;
    assert (d / q + 1) * q == d / q * q + q && (d / q - 1) * q == d / q * q - q;
    assert (v - 1) * q < d <= v * q;
    assert v * (q * MILLION) == MILLION * (v * q);
    assert (v - 1) * (q * MILLION) == MILLION * ((v - 1) * q);
  }

  // ---------- laws ----------

  /** Equal amounts in different spellings are reported alike, larger ones not as less. */
  lemma SpellingIrrelevant(a: string, n: Number, r: Outcome<int>, b: string, m: Number, s: Outcome<int>)
    requires Spells(Trim(a), n) && Spells(Trim(b), m) && Reports(a, r) && Reports(b, s)
    requires r.Accepted? && s.Accepted?
    ensures Top(n) * Bottom(m) <= Top(m) * Bottom(n) ==> r.value <= s.value
    ensures Top(n) * Bottom(m) == Top(m) * Bottom(n) ==> r.value == s.value
  {
    var k :| Worth(a, k, r.value);
    var l :| Worth(b, l, s.value);
    MatchExact(Trim(a), n);
    MatchExact(Trim(a), k);
    MatchExact(Trim(b), m);
    MatchExact(Trim(b), l);
    if Top(n) * Bottom(m) <= Top(m) * Bottom(n) {
      LargerNeedsMore(r.value, n, s.value, m);
    }
    if Top(n) * Bottom(m) == Top(m) * Bottom(n) {
      LargerNeedsMore(s.value, m, r.value, n);
    }
  }

  /** There is one report per text. */
  lemma ReportUnique(raw: string, r: Outcome<int>, s: Outcome<int>)
    requires Reports(raw, r) && Reports(raw, s)
    ensures r == s
  {
    if r.Accepted? && s.Accepted? {
      var k :| Worth(raw, k, r.value);
      SpellingIrrelevant(raw, k, r, raw, k, s);
    }
  }

  /** The exponent bound is a bound on spellings, not amounts: zero can be refused. */
  lemma ZeroRefused()
    ensures Reports("0e1001", Refused) && Top(Number("0", "", "1001")) == 0
  {
    var text, n := "0e1001", Number("0", "", "1001");
    ZeroSpelled();
    Untrimmed(text);
    forall m ensures Spells(text, m) ==> m == n {
      MatchExact(text, m);
      MatchExact(text, n);
    }
  }

  lemma ZeroSpelled()
    ensures var n := Number("0", "", "1001"); Spells("0e1001", n) && Mantissa(n) == 0 && Exponent(n.exponent) == 1001
  {
    var n := Number("0", "", "1001");
    ThousandOne();
    assert Written(n, 'e') == "0e1001";
    assert n.whole + n.fraction == "0";
    assert Val("0") == Val("0"[..0]) * 10 + 0;
  }

  lemma ThousandOne()
    ensures Digits("1001") && Val("1001") == 1001
  {
    assert "1001"[..3] == "100" && "100"[..2] == "10" && "10"[..1] == "1" && "1"[..0] == "";
    assert Val("1") == 1;
    assert Val("10") == 10;
    assert Val("100") == 100;
  }

  // ---------- formatting ----------

  function Decimal(k: nat): (s: string)
    ensures s != "" && Digits(s) && Val(s) == k && (s[0] == '0' ==> |s| == 1)
  {
    var last := ['0' + (k % 10) as char];
    if k < 10 then
      assert last[..0] == "";
      last
    else
      var s := Decimal(k / 10) + last;
      assert s[..|s| - 1] == Decimal(k / 10);
      s
  }

  /** k in exactly w digits, zeros first. */
  function Padded(k: nat, w: nat): (s: string)
    requires k < Pow10(w)
    ensures |s| == w && Digits(s) && Val(s) == k
  {
    if w == 0 then ""
    else
      var s := Padded(k / 10, w - 1) + ['0' + (k % 10) as char];
      assert s[..w - 1] == Padded(k / 10, w - 1);
      s
  }

  /** budget.go:19-24 */
  function FormatUSDMicros(units: int): (r: Outcome<string>)
    ensures r.Accepted? <==> 1 <= units <= LIMIT
  {
    if units < 1 || units > LIMIT then Refused
    else
      PowSix();
      Accepted(Decimal(units / MILLION) + "." + Padded(units % MILLION, 6))
  }

  lemma Untrimmed(s: string)
    requires s != "" && !Space(s[0]) && !Space(s[|s| - 1])
    ensures Trim(s) == s
  {
  }

  function Split(units: nat): Number
    requires units <= LIMIT
  {
    PowSix();
    Number(Decimal(units / MILLION), Padded(units % MILLION, 6), "")
  }

  lemma FormatSpells(units: int)
    requires 1 <= units <= LIMIT
    ensures var text := FormatUSDMicros(units).value; Spells(text, Split(units)) && Trim(text) == text
  {
    var n := Split(units);
    var text := FormatUSDMicros(units).value;
    assert Point(n) + Power(n, 'e') == "." + n.fraction;
    assert text == Written(n, 'e');
    assert text[|text| - 1] == n.fraction[5] && Digit(n.fraction[5]);
    assert text[0] == n.whole[0] && Digit(n.whole[0]);
    Untrimmed(text);
  }

  lemma FormatWorth(units: int)
    requires 1 <= units <= LIMIT
    ensures Ceiling(units, Split(units))
  {
    var n := Split(units);
    PowSix();
    ValAppended(n.whole, n.fraction);
    Halves(units, Val(n.whole), Val(n.fraction));
  }

  lemma Halves(units: int, high: int, low: int)
    requires high == units / MILLION && low == units % MILLION
    ensures high * MILLION + low == units && LeastAbove(units, units, MILLION)
  {
  }

  /** Every budget that can be formatted reads back as itself. */
  lemma RoundTrip(units: int, r: Outcome<int>)
    requires 1 <= units <= LIMIT && Reports(FormatUSDMicros(units).value, r)
    ensures r == Accepted(units)
  {
    var text := FormatUSDMicros(units).value;
    FormatSpells(units);
    FormatWorth(units);
    assert Worth(text, Split(units), units);
    ReportUnique(text, r, Accepted(units));
  }
}
