/** Facts about powers, remainders and decimal text used by the address check. */
module Arithmetic {

  function Pow(b: nat, e: nat): nat {
    if e == 0 then 1 else b * Pow(b, e - 1)
  }

  /** Go's `%`: the remainder takes the sign of the dividend. */
  function TruncatedMod(a: int, b: int): int
    requires b > 0
  {
    if a >= 0 then a % b else -((-a) % b)
  }

  predicate IsDigit(c: char) { '0' <= c <= '9' }

  predicate AllDigits(s: string) {
    forall i :: 0 <= i < |s| ==> IsDigit(s[i])
  }

  /** The number a string of decimal digits spells. */
  function Number(s: string): nat
    requires AllDigits(s)
  {
    if |s| == 0 then 0 else Number(s[..|s| - 1]) * 10 + (s[|s| - 1] as int - '0' as int)
  }

  /** `a` shifted by a factor, with `b` added in the room that makes. */
  function Joined(a: int, factor: int, b: int): int {
    a * factor + b
  }

  lemma {:induction false} NumberConcat(a: string, b: string)
    requires AllDigits(a) && AllDigits(b)
    ensures AllDigits(a + b)
    ensures Number(a + b) == Joined(Number(a), Pow(10, |b|), Number(b))
  {
    if |b| == 0 {
      assert a + b == a;
    } else {
      var front := b[..|b| - 1];
      NumberConcat(a, front);
      assert (a + b)[..|a + b| - 1] == a + front;
      assert Pow(10, |b|) == 10 * Pow(10, |front|);
      assert Number(a) * Pow(10, |front|) * 10 == Number(a) * Pow(10, |b|);
    }
  }

  /** `fmt.Sprintf("%d", v)`. */
  function Decimal(v: int): string
    decreases v < 0, if v < 0 then -v else v
  {
    if v < 0 then "-" + Decimal(-v)
    else if v < 10 then [('0' as int + v) as char]
    else Decimal(v / 10) + [('0' as int + v % 10) as char]
  }

  lemma {:induction false} DecimalReadsBack(v: nat)
    ensures AllDigits(Decimal(v)) && Number(Decimal(v)) == v && |Decimal(v)| > 0
    ensures |Decimal(v)| == 1 <==> v < 10
    ensures v < 100 ==> |Decimal(v)| <= 2
  {
    if v < 10 {
      assert Decimal(v)[..0] == "";
    } else {
      DecimalReadsBack(v / 10);
      var front := Decimal(v / 10);
      assert Decimal(v)[..|Decimal(v)| - 1] == front;
    }
  }

  function DigitRun(s: string): (r: string)
    ensures AllDigits(r)
  {
    if |s| > 0 && IsDigit(s[0]) then [s[0]] + DigitRun(s[1..]) else ""
  }

  /** `fmt.Sscanf(s, "%d", &v)` into a zeroed variable: an optional sign, then the leading digits. */
  function ScanInt(s: string): int {
    if |s| > 0 && s[0] == '-' then
      var magnitude: int := Number(DigitRun(s[1..]));
      -magnitude
    else if |s| > 0 && s[0] == '+' then Number(DigitRun(s[1..]))
    else Number(DigitRun(s))
  }

  lemma {:induction false} ScanDigits(s: string)
    requires AllDigits(s)
    ensures DigitRun(s) == s && ScanInt(s) == Number(s)
  {
    if |s| > 0 {
      ScanDigits(s[1..]);
    }
  }

  function Mod97(x: int): (r: int)
    ensures 0 <= r < 97
  {
    x % 97
  }

  /** A leading part may be reduced modulo 97. */
  lemma ReduceLead(v: int, p: int, y: int)
    ensures Mod97(Joined(Mod97(v), p, y)) == Mod97(Joined(v, p, y))
  {
    var k := v / 97;
    assert v == v % 97 + 97 * k;
    assert v * p == v % 97 * p + 97 * (k * p);
  }

  /** Ten is invertible modulo 97: 68 * 10 = 7 * 97 + 1. */
  lemma TenCancels(x: int)
    requires (10 * x) % 97 == 0
    ensures x % 97 == 0
  {
    var k := 10 * x / 97;
    assert x == 97 * (68 * k - 7 * x);
  }

  lemma {:induction false} Pow10Cancels(d: int, e: nat)
    requires (d * Pow(10, e)) % 97 == 0
    ensures d % 97 == 0
  {
    if e > 0 {
      assert d * Pow(10, e) == 10 * (d * Pow(10, e - 1));
      TenCancels(d * Pow(10, e - 1));
      Pow10Cancels(d, e - 1);
    }
  }
}
