// Decimal and hexadecimal text, the integer parsing the solutions rely on
// (Rust's `str::parse` / `from_str_radix` for the integer types), and the
// gcd / lcm pair from the `num` crate.
module Numbers {
  import opened Wrappers

  const U64_MAX: nat := 0xFFFF_FFFF_FFFF_FFFF
  /** usize and isize are 64 bits wide on the targets the solutions run on. */
  const USIZE_MAX: nat := U64_MAX
  const I64_MIN: int := -0x8000_0000_0000_0000
  const I64_MAX: int := 0x7FFF_FFFF_FFFF_FFFF

  predicate IsDigit(c: char) {
    '0' <= c <= '9'
  }

  function DigitValue(c: char): (d: nat)
    requires IsDigit(c)
    ensures d < 10
  {
    c as int - '0' as int
  }

  function DigitChar(d: nat): (c: char)
    requires d < 10
    ensures IsDigit(c) && DigitValue(c) == d
  {
    ('0' as int + d) as char
  }

  predicate AllDigits(s: string) {
    forall i | 0 <= i < |s| :: IsDigit(s[i])
  }

  /** The value of a run of decimal digits, most significant first. */
  function DecimalValue(s: string): nat
    requires AllDigits(s)
  {
    if s == [] then 0 else DecimalValue(s[..|s| - 1]) * 10 + DigitValue(s[|s| - 1])
  }

  /** The decimal form of `n` without leading zeros, "0" for zero. */
  function ShowNat(n: nat): (r: string)
    ensures |r| > 0 && AllDigits(r)
    ensures DecimalValue(r) == n
    ensures n > 0 ==> r[0] != '0'
  {
    if n < 10 then [DigitChar(n)]
    else
      var prefix := ShowNat(n / 10);
      var r := prefix + [DigitChar(n % 10)];
      assert r[..|r| - 1] == prefix;
      r
  }

  /** Rust's `parse` for an unsigned type whose largest value is `max`:
    * an optional '+', then at least one decimal digit, with no overflow. */
  function ParseUnsigned(s: string, max: nat): Option<nat> {
    if |s| == 0 then None
    else
      var digits := if s[0] == '+' then s[1..] else s;
      if |digits| == 0 || !AllDigits(digits) then None
      else if DecimalValue(digits) > max then None
      else Some(DecimalValue(digits))
  }

  /** Rust's `parse` for a signed type with range [min, max]: an optional
    * '+' or '-', then at least one decimal digit, within the range. */
  function ParseSigned(s: string, min: int, max: int): Option<int> {
    if |s| == 0 then None
    else
      var digits := if s[0] == '+' || s[0] == '-' then s[1..] else s;
      if |digits| == 0 || !AllDigits(digits) then None
      else
        var v: int := if s[0] == '-' then -(DecimalValue(digits) as int) else DecimalValue(digits);
        if v < min || v > max then None else Some(v)
  }

  function ParseU64(s: string): Option<nat> {
    ParseUnsigned(s, U64_MAX)
  }

  function ParseUsize(s: string): Option<nat> {
    ParseUnsigned(s, USIZE_MAX)
  }

  function ParseI64(s: string): Option<int> {
    ParseSigned(s, I64_MIN, I64_MAX)
  }

  function ShowInt(i: int): (r: string)
    ensures |r| > 0
  {
    if i < 0 then "-" + ShowNat(-i) else ShowNat(i)
  }

  /** Parsing is the inverse of printing, for every value that fits. */
  lemma ParseUnsignedShowNat(n: nat, max: nat)
    requires n <= max
    ensures ParseUnsigned(ShowNat(n), max) == Some(n)
  {
    var s := ShowNat(n);
    assert IsDigit(s[0]);
  }

  lemma ParseSignedShowInt(i: int, min: int, max: int)
    requires min <= i <= max
    ensures ParseSigned(ShowInt(i), min, max) == Some(i)
  {
    if i < 0 {
      var s := ShowInt(i);
      assert s[1..] == ShowNat(-i);
    } else {
      assert IsDigit(ShowNat(i)[0]);
    }
  }

  /** An unsigned parse never accepts a leading minus sign. */
  lemma ParseUnsignedRejectsMinus(s: string, max: nat)
    requires |s| > 0 && s[0] == '-'
    ensures ParseUnsigned(s, max) == None
  {
    assert !IsDigit(s[0]);
  }

  predicate IsHexDigit(c: char) {
    IsDigit(c) || 'a' <= c <= 'f' || 'A' <= c <= 'F'
  }

  function HexDigitValue(c: char): (d: nat)
    requires IsHexDigit(c)
    ensures d < 16
  {
    if IsDigit(c) then DigitValue(c)
    else if 'a' <= c <= 'f' then c as int - 'a' as int + 10
    else c as int - 'A' as int + 10
  }

  predicate AllHexDigits(s: string) {
    forall i | 0 <= i < |s| :: IsHexDigit(s[i])
  }

  function Pow(b: nat, e: nat): (r: nat)
    ensures b > 0 ==> r > 0
  {
    if e == 0 then 1 else b * Pow(b, e - 1)
  }

  function HexValue(s: string): (v: nat)
    requires AllHexDigits(s)
    ensures v < Pow(16, |s|)
  {
    if s == [] then 0
    else
      var front := HexValue(s[..|s| - 1]);
      var d := HexDigitValue(s[|s| - 1]);
      assert front * 16 + d < Pow(16, |s|) by {
        assert front + 1 <= Pow(16, |s| - 1);
        assert (front + 1) * 16 <= Pow(16, |s| - 1) * 16;
      }
      front * 16 + d
  }

  /** `usize::from_str_radix(s, 16)`: an optional '+', then at least one
    * hexadecimal digit of either case, with no overflow. */
  function ParseHexUsize(s: string): Option<nat> {
    if |s| == 0 then None
    else
      var digits := if s[0] == '+' then s[1..] else s;
      if |digits| == 0 || !AllHexDigits(digits) then None
      else if HexValue(digits) > USIZE_MAX then None
      else Some(HexValue(digits))
  }

  // Greatest common divisor and least common multiple, as `num::Integer`
  // computes them for unsigned integers.

  function Gcd(a: nat, b: nat): nat
    decreases b
  {
    if b == 0 then a else Gcd(b, a % b)
  }

  /** `a.lcm(b)`: zero when either is zero, otherwise a * (b / gcd(a, b)). */
  function Lcm(a: nat, b: nat): nat {
    if a == 0 && b == 0 then 0
    else
      GcdPositive(a, b);
      Mul(a, b / Gcd(a, b))
  }

  lemma GcdPositive(a: nat, b: nat)
    requires a > 0 || b > 0
    ensures Gcd(a, b) > 0
    decreases b
  {
    if b > 0 {
      GcdPositive(b, a % b);
    }
  }

  /** `a * b` by repeated addition. Grid sizes and row offsets go through it
    * so that the solver reasons about them linearly, one row at a time. */
  /** The magnitude of an integer. */
  function Abs(x: int): nat {
    if x < 0 then -x else x
  }

  function Mul(a: nat, b: nat): nat {
    if a == 0 then 0 else Mul(a - 1, b) + b
  }

  lemma {:induction false} MulIsProduct(a: nat, b: nat)
    ensures Mul(a, b) == a * b
  {
    if a > 0 {
      MulIsProduct(a - 1, b);
      assert (a - 1) * b + b == a * b;
    }
  }

  /** A smaller product has the smaller multiplicand. */
  lemma {:induction false} MulLess(a: nat, a': nat, b: nat)
    requires Mul(a, b) < Mul(a', b)
    ensures a < a'
  {
    if a' > 0 && a > 0 {
      MulLess(a - 1, a' - 1, b);
    }
  }

  lemma MulAtLeast(d: int, x: int)
    requires d > 0 && x >= 1
    ensures d * x >= d
  {
    if x > 1 {
      MulAtLeast(d, x - 1);
      assert d * x == d * (x - 1) + d;
    }
  }

  /** Euclidean division is unique: the quotient and remainder are fixed. */
  lemma DivModUnique(n: int, d: int, q: int, r: int)
    requires d > 0 && 0 <= r < d && n == d * q + r
    ensures n % d == r && n / d == q
  {
    var q' := n / d;
    var r' := n % d;
    assert n == d * q' + r';
    var x := q' - q;
    assert d * x == r - r' by {
      assert d * q' - d * q == d * (q' - q);
    }
    if x >= 1 {
      MulAtLeast(d, x);
    } else if x <= -1 {
      MulAtLeast(d, -x);
    }
  }

  lemma MultipleOfSum(d: nat, x: nat, y: nat, q: nat)
    requires d > 0 && x % d == 0 && y % d == 0
    ensures (q * x + y) % d == 0
  {
    var i := x / d;
    var j := y / d;
    assert x == d * i;
    assert y == d * j;
    assert q * x + y == d * (q * i + j) by {
      assert q * (d * i) == d * (q * i);
    }
    DivModUnique(q * x + y, d, q * i + j, 0);
  }

  lemma DivMod(a: nat, b: nat)
    requires b > 0
    ensures a == (a / b) * b + a % b
  {
  }

  /** What divides b and a % b divides a. */
  lemma DividesThroughRemainder(a: nat, b: nat, g: nat)
    requires b > 0 && g > 0 && b % g == 0 && (a % b) % g == 0
    ensures a % g == 0
  {
    DivMod(a, b);
    MultipleOfSum(g, b, a % b, a / b);
  }

  /** The gcd divides both of its arguments. */
  lemma {:induction false} GcdDivides(a: nat, b: nat)
    requires a > 0 || b > 0
    ensures Gcd(a, b) > 0 && a % Gcd(a, b) == 0 && b % Gcd(a, b) == 0
    decreases b
  {
    GcdPositive(a, b);
    if b > 0 {
      GcdDivides(b, a % b);
      assert Gcd(a, b) == Gcd(b, a % b);
      DividesThroughRemainder(a, b, Gcd(a, b));
    } else {
      DivModUnique(a, a, 1, 0);
      DivModUnique(0, a, 0, 0);
    }
  }

  /** The lcm of two positive numbers is a positive multiple of each. */
  lemma {:induction false} LcmIsCommonMultiple(a: nat, b: nat)
    requires a > 0 && b > 0
    ensures Lcm(a, b) > 0 && Lcm(a, b) % a == 0 && Lcm(a, b) % b == 0
  {
    GcdDivides(a, b);
    var g := Gcd(a, b);
    var k := b / g;
    var j := a / g;
    DivMod(b, g);
    DivMod(a, g);
    assert k > 0;
    var l := a * k;
    MulIsProduct(a, k);
    assert Lcm(a, b) == l;
    MulAtLeast(a, k);
    DivModUnique(l, a, k, 0);
    Shuffle(g, j, k);
    DivModUnique(l, b, j, 0);
  }

  lemma Shuffle(g: nat, j: nat, k: nat)
    ensures (j * g) * k == (k * g) * j
  {
  }

  /** `x.lcm(y)` folded from the left over a non-empty list. */
  function LcmAll(xs: seq<nat>): nat
    requires |xs| > 0
  {
    if |xs| == 1 then xs[0] else Lcm(LcmAll(xs[..|xs| - 1]), xs[|xs| - 1])
  }

  lemma DividesTransitive(a: nat, b: nat, c: nat)
    requires a > 0 && b > 0 && b % a == 0 && c % b == 0
    ensures c % a == 0
  {
    var i := b / a;
    var j := c / b;
    assert b == a * i;
    assert c == b * j;
    assert c == a * (i * j) by {
      assert (a * i) * j == a * (i * j);
    }
    DivModUnique(c, a, i * j, 0);
  }

  /** The folded lcm of positive numbers is a positive multiple of each. */
  lemma {:induction false} LcmAllIsCommonMultiple(xs: seq<nat>)
    requires |xs| > 0
    requires forall i | 0 <= i < |xs| :: xs[i] > 0
    ensures LcmAll(xs) > 0
    ensures forall i | 0 <= i < |xs| :: LcmAll(xs) % xs[i] == 0
  {
    if |xs| > 1 {
      var front := xs[..|xs| - 1];
      LcmAllIsCommonMultiple(front);
      var l := LcmAll(front);
      LcmIsCommonMultiple(l, xs[|xs| - 1]);
      forall i | 0 <= i < |xs|
        ensures LcmAll(xs) % xs[i] == 0
      {
        if i < |xs| - 1 {
          assert front[i] == xs[i];
          DividesTransitive(xs[i], l, LcmAll(xs));
        }
      }
    }
  }

  /** Bezout's identity: the gcd is an integer combination of its
    * arguments. */
  lemma {:induction false} Bezout(a: nat, b: nat) returns (x: int, y: int)
    ensures a * x + b * y == Gcd(a, b)
    decreases b
  {
    if b == 0 {
      x, y := 1, 0;
    } else {
      var x', y' := Bezout(b, a % b);
      var q := a / b;
      assert a % b == a - q * b by {
        DivMod(a, b);
      }
      BezoutStep(a, b, q, x', y', Gcd(a, b));
      x, y := y', x' - q * y';
    }
  }

  /** One step of the extended Euclidean algorithm: a combination of `b` and
    * `a - q * b` becomes a combination of `a` and `b`. */
  lemma BezoutStep(a: int, b: int, q: int, x': int, y': int, g: int)
    requires b * x' + (a - q * b) * y' == g
    ensures a * y' + b * (x' - q * y') == g
  {
    assert (a - q * b) * y' == a * y' - (q * b) * y';
    assert b * (x' - q * y') == b * x' - b * (q * y');
    assert b * (q * y') == (q * b) * y';
  }

  /** A multiple of `d` times any integer is a multiple of `d`. */
  lemma ScaledMultiple(m: int, d: nat, i: int, c: int)
    requires m == d * i
    ensures m * c == d * (i * c)
  {
  }

  /** Regrouping a product whose first factor is itself a product. */
  lemma Regroup(m: int, b: int, j: int, a: int, x: int)
    requires m == b * j
    ensures m * (a * x) == (a * b) * (j * x)
  {
    assert m * (a * x) == (b * j) * (a * x);
  }

  /** A common multiple of `a` and `b`, times an integer combination `g` of
    * them, is a multiple of `a * b`. */
  lemma CombinationMultiple(a: int, b: int, m: int, i: int, j: int, x: int, y: int, g: int)
    requires m == a * i && m == b * j && a * x + b * y == g
    ensures m * g == (a * b) * (j * x + i * y)
  {
    assert m * (a * x + b * y) == m * (a * x) + m * (b * y);
    Regroup(m, b, j, a, x);
    Regroup(m, a, i, b, y);
    assert (b * a) * (i * y) == (a * b) * (i * y);
    assert (a * b) * (j * x) + (a * b) * (i * y) == (a * b) * (j * x + i * y);
  }

  /** `a * b == lcm * gcd`, with the lcm written as `a * (b / gcd)`. */
  lemma ProductIsLcmTimesGcd(a: int, b: int, g: int, k: int, l: int)
    requires b == k * g && l == a * k
    ensures a * b == l * g
  {
    assert a * (k * g) == (a * k) * g;
  }

  /** From `m * g == (l * g) * q` with `g` positive, `m == l * q`. */
  lemma CancelFromProduct(m: int, p: int, l: int, g: int, q: int)
    requires g > 0 && m * g == p * q && p == l * g
    ensures m == l * q
  {
    assert (l * g) * q == (l * q) * g;
    CancelFactor(m, l * q, g);
  }

  /** Every common multiple of two positive numbers is a multiple of their
    * lcm. */
  lemma LcmDividesCommonMultiple(a: nat, b: nat, m: nat)
    requires a > 0 && b > 0 && m % a == 0 && m % b == 0
    ensures Lcm(a, b) > 0 && m % Lcm(a, b) == 0
  {
    LcmIsCommonMultiple(a, b);
    GcdDivides(a, b);
    var g := Gcd(a, b);
    var k := b / g;
    assert b == k * g by {
      DivMod(b, g);
    }
    var l := a * k;
    assert Lcm(a, b) == l by {
      MulIsProduct(a, k);
    }
    var x, y := Bezout(a, b);
    var i, j := m / a, m / b;
    assert m == a * i by {
      DivMod(m, a);
    }
    assert m == b * j by {
      DivMod(m, b);
    }
    var q := j * x + i * y;
    CombinationMultiple(a, b, m, i, j, x, y, g);
    ProductIsLcmTimesGcd(a, b, g, k, l);
    CancelFromProduct(m, a * b, l, g, q);
    DivModUnique(m, l, q, 0);
  }

  /** A positive factor cancels from both sides of an equation. */
  lemma CancelFactor(u: int, v: int, g: int)
    requires g > 0 && u * g == v * g
    ensures u == v
  {
    if u < v {
      MulAtLeast(g, v - u);
    } else if u > v {
      MulAtLeast(g, u - v);
    }
  }

  /** Every common multiple of positive numbers is a multiple of their
    * folded lcm, so the folded lcm is the least positive common
    * multiple. */
  lemma {:induction false} LcmAllIsLeast(xs: seq<nat>, m: nat)
    requires |xs| > 0
    requires forall i | 0 <= i < |xs| :: xs[i] > 0
    requires forall i | 0 <= i < |xs| :: m % xs[i] == 0
    ensures LcmAll(xs) > 0 && m % LcmAll(xs) == 0
    ensures m > 0 ==> LcmAll(xs) <= m
  {
    LcmAllIsCommonMultiple(xs);
    if |xs| > 1 {
      var front := xs[..|xs| - 1];
      assert forall i | 0 <= i < |front| :: front[i] == xs[i];
      LcmAllIsLeast(front, m);
      LcmAllIsCommonMultiple(front);
      LcmDividesCommonMultiple(LcmAll(front), xs[|xs| - 1], m);
    }
    if m > 0 {
      var l := LcmAll(xs);
      DivMod(m, l);
      assert m / l >= 1;
      MulAtLeast(l, m / l);
    }
  }

  // Sums, products and whitespace trimming from the standard library.

  function Sum(xs: seq<int>): int {
    if xs == [] then 0 else Sum(xs[..|xs| - 1]) + xs[|xs| - 1]
  }

  /** Adding one more value adds it to the sum. */
  lemma SumSnoc(xs: seq<int>, x: int)
    ensures Sum(xs + [x]) == Sum(xs) + x
  {
    assert (xs + [x])[..|xs|] == xs;
  }

  lemma {:induction false} SumAppend(xs: seq<int>, ys: seq<int>)
    ensures Sum(xs + ys) == Sum(xs) + Sum(ys)
    decreases |ys|
  {
    if ys == [] {
      assert xs + ys == xs;
    } else {
      assert (xs + ys)[..|xs + ys| - 1] == xs + ys[..|ys| - 1];
      SumAppend(xs, ys[..|ys| - 1]);
    }
  }

  function Product(xs: seq<int>): int {
    if xs == [] then 1 else Product(xs[..|xs| - 1]) * xs[|xs| - 1]
  }

  /** The ASCII characters `char::is_whitespace` accepts: tab, line feed,
    * vertical tab, form feed, carriage return and space. */
  predicate IsWhitespace(c: char) {
    9 <= c as int <= 13 || c == ' '
  }

  predicate AllWhitespace(s: string) {
    forall i | 0 <= i < |s| :: IsWhitespace(s[i])
  }

  /** How many whitespace characters start `s`. */
  function LeadingWhitespace(s: string): (n: nat)
    ensures n <= |s| && (forall i | 0 <= i < n :: IsWhitespace(s[i]))
    ensures n < |s| ==> !IsWhitespace(s[n])
  {
    if s == [] || !IsWhitespace(s[0]) then 0
    else
      var n := 1 + LeadingWhitespace(s[1..]);
      assert forall i | 1 <= i < n :: s[i] == s[1..][i - 1];
      n
  }

  /** How many characters precede the trailing whitespace of `s`. */
  function BeforeTrailingWhitespace(s: string): (n: nat)
    ensures n <= |s| && (forall i | n <= i < |s| :: IsWhitespace(s[i]))
    ensures n > 0 ==> !IsWhitespace(s[n - 1])
  {
    if s == [] || !IsWhitespace(s[|s| - 1]) then |s|
    else BeforeTrailingWhitespace(s[..|s| - 1])
  }

  function TrimStart(s: string): (r: string)
    ensures |r| <= |s| && r == s[|s| - |r|..]
    ensures AllWhitespace(s[..|s| - |r|])
    ensures r == [] || !IsWhitespace(r[0])
  {
    s[LeadingWhitespace(s)..]
  }

  function TrimEnd(s: string): (r: string)
    ensures |r| <= |s| && r == s[..|r|]
    ensures AllWhitespace(s[|r|..])
    ensures r == [] || !IsWhitespace(r[|r| - 1])
  {
    s[..BeforeTrailingWhitespace(s)]
  }

  /** `str::trim`: the line without leading and trailing whitespace. */
  function Trim(s: string): string {
    TrimEnd(TrimStart(s))
  }

  /** Trimming is the empty string exactly for all-whitespace lines, and
    * trimming twice changes nothing more. */
  lemma TrimProperties(s: string)
    ensures Trim(s) == [] <==> AllWhitespace(s)
    ensures Trim(Trim(s)) == Trim(s)
    ensures Trim(s) != [] ==> !IsWhitespace(Trim(s)[0]) && !IsWhitespace(Trim(s)[|Trim(s)| - 1])
  {
    var a := TrimStart(s);
    var b := TrimEnd(a);
    if b == [] {
      assert a == [];
      assert s[..|s|] == s;
    }
  }
}
