/** Text as the server hashes it: the UTF-16 key order of `Array.prototype.sort`,
    decimal numerals, and the 64-digit form of a SHA-256 value. */
module Text {

  /** A hex digest is never empty, so the source's truthiness tests on digests are always true. */
  type Hex = s: string | |s| == 64 witness seq(64, _ => '0')

  /** SHA-256 over a text, kept abstract: every result holds for an arbitrary function. */
  type Hash = string -> Hex

  /** Two different texts with one digest. */
  ghost predicate Collision(h: Hash, x: string, y: string) {
    x != y && h(x) == h(y)
  }

  // ---------------------------------------------------------------- key order

  /** Position of a character in the order of its UTF-16 code units: supplementary
      characters start with a surrogate, which sorts between U+D7FF and U+E000. */
  function Rank(c: char): nat {
    var n := c as int;
    if n < 0xD800 then n else if n >= 0x1_0000 then n - 0x1_0000 + 0xD800 else n + 0x10_0000
  }

  predicate Less(a: string, b: string) {
    b != [] && (a == [] || Rank(a[0]) < Rank(b[0]) || (a[0] == b[0] && Less(a[1..], b[1..])))
  }

  lemma {:induction false} LessTotal(a: string, b: string)
    ensures Less(a, b) || a == b || Less(b, a)
    ensures !(Less(a, b) && Less(b, a))
  {
    if a != [] && b != [] {
      LessTotal(a[1..], b[1..]);
      assert a == [a[0]] + a[1..] && b == [b[0]] + b[1..];
    }
  }

  lemma {:induction false} LessIrreflexive(a: string)
    ensures !Less(a, a)
  {
    if a != [] { LessIrreflexive(a[1..]); }
  }

  lemma {:induction false} LessTransitive(a: string, b: string, c: string)
    requires Less(a, b) && Less(b, c)
    ensures Less(a, c)
  {
    if a != [] && a[0] == b[0] == c[0] {
      LessTransitive(a[1..], b[1..], c[1..]);
    }
  }

  // ---------------------------------------------------------------- numerals

  function Digit(d: nat): char
    requires d < 10
  {
    '0' + d as char
  }

  function NatText(n: nat): (s: string)
    ensures s != [] && (|s| == 1 <==> n < 10) && forall c <- s :: '0' <= c <= '9'
  {
    if n < 10 then [Digit(n)] else NatText(n / 10) + [Digit(n % 10)]
  }

  lemma {:induction false} NatTextInjective(m: nat, n: nat)
    requires NatText(m) == NatText(n)
    ensures m == n
  {
    if m < 10 || n < 10 {
      assert NatText(m)[0] == NatText(n)[0];
    } else {
      var a, b := NatText(m / 10), NatText(n / 10);
      assert NatText(m)[..|NatText(m)| - 1] == a && NatText(n)[..|NatText(n)| - 1] == b;
      NatTextInjective(m / 10, n / 10);
      assert NatText(m)[|NatText(m)| - 1] == Digit(m % 10);
      assert NatText(n)[|NatText(n)| - 1] == Digit(n % 10);
    }
  }

  function ThreeDigits(r: nat): string
    requires r < 1000
  {
    [Digit(r / 100), Digit(r / 10 % 10), Digit(r % 10)]
  }

  lemma FromDigits(n: nat)
    requires n < 1000
    ensures n == 100 * (n / 100) + 10 * (n / 10 % 10) + n % 10
  {
    assert n / 10 == 10 * (n / 100) + n / 10 % 10;
  }

  lemma DigitInjective(c: nat, d: nat)
    requires c < 10 && d < 10 && Digit(c) == Digit(d)
    ensures c == d
  {
  }

  lemma ThreeDigitsInjective(q: nat, r: nat)
    requires q < 1000 && r < 1000 && ThreeDigits(q) == ThreeDigits(r)
    ensures q == r
  {
    var a, b := ThreeDigits(q), ThreeDigits(r);
    assert a[0] == b[0] && a[1] == b[1] && a[2] == b[2];
    DigitInjective(q / 100, r / 100);
    DigitInjective(q / 10 % 10, r / 10 % 10);
    DigitInjective(q % 10, r % 10);
    FromDigits(q);
    FromDigits(r);
  }

  /** A DECIMAL(12,3) value, given in thousandths, as the database driver returns it. */
  function DecimalText(t: int): string {
    if t < 0 then "-" + Magnitude(-t) else Magnitude(t)
  }

  function Magnitude(m: nat): (s: string)
    ensures s != [] && s[0] != '-'
  {
    assert NatText(m / 1000)[0] in NatText(m / 1000);
    NatText(m / 1000) + "." + ThreeDigits(m % 1000)
  }

  lemma MagnitudeInjective(m: nat, n: nat)
    requires Magnitude(m) == Magnitude(n)
    ensures m == n
  {
    var a, b := Magnitude(m), Magnitude(n);
    var k := |a|;
    assert a[..k - 4] == NatText(m / 1000) && b[..k - 4] == NatText(n / 1000);
    assert a[k - 3..] == ThreeDigits(m % 1000) && b[k - 3..] == ThreeDigits(n % 1000);
    NatTextInjective(m / 1000, n / 1000);
    ThreeDigitsInjective(m % 1000, n % 1000);
  }

  lemma DecimalTextInjective(t: int, u: int)
    requires DecimalText(t) == DecimalText(u)
    ensures t == u
  {
    if t < 0 && u < 0 {
      assert DecimalText(t)[1..] == Magnitude(-t) && DecimalText(u)[1..] == Magnitude(-u);
      MagnitudeInjective(-t, -u);
    } else if t >= 0 && u >= 0 {
      MagnitudeInjective(t, u);
    }
  }
}
