/** The base-32 body of Nimiq addresses: the carry loop and what its output means (backend/address.go). */
module AddressCodec {
  import opened Wrappers
  import opened AddressText
  import opened Arithmetic

  const ALPHABET := "0123456789ABCDEFGHJKLMNPQRSTUVXY"

  type Byte = b: int | 0 <= b < 256

  // ---- Base 32 ----

  /** The alphabet by ranges: the letters I, O, W and Z are left out. */
  predicate InAlphabet(c: char) {
    '0' <= c <= '9' || 'A' <= c <= 'H' || 'J' <= c <= 'N' || 'P' <= c <= 'V' || 'X' <= c <= 'Y'
  }

  /** The position of a symbol in the alphabet. */
  function SymbolValue(c: char): (v: nat)
    requires InAlphabet(c)
    ensures v < 32
  {
    if c <= '9' then c as int - '0' as int
    else if c <= 'H' then c as int - 'A' as int + 10
    else if c <= 'N' then c as int - 'J' as int + 18
    else if c <= 'V' then c as int - 'P' as int + 23
    else c as int - 'X' as int + 30
  }

  /** The symbol at a position of the alphabet. */
  function Symbol(v: nat): (c: char)
    requires v < 32
    ensures InAlphabet(c) && SymbolValue(c) == v
  {
    if v < 10 then ('0' as int + v) as char
    else if v < 18 then ('A' as int + v - 10) as char
    else if v < 23 then ('J' as int + v - 18) as char
    else if v < 30 then ('P' as int + v - 23) as char
    else ('X' as int + v - 30) as char
  }

  /** The ranges describe the alphabet string. */
  lemma AlphabetAt(v: nat)
    requires v < 32
    ensures ALPHABET[v] == Symbol(v)
  {
  }

  predicate AllSymbols(s: string) {
    forall i :: 0 <= i < |s| ==> InAlphabet(s[i])
  }

  /** Symbols as the digits of a base-32 number. */
  function Value32(s: string): nat
    requires AllSymbols(s)
  {
    if |s| == 0 then 0 else Value32(s[..|s| - 1]) * 32 + SymbolValue(s[|s| - 1])
  }

  /** Bytes as the digits of a base-256 number. */
  function Value256(buf: seq<Byte>): nat {
    if |buf| == 0 then 0 else Value256(buf[..|buf| - 1]) * 256 + buf[|buf| - 1]
  }

  /** Bitwise or of two naturals. */
  function Or(a: nat, b: nat): nat {
    if a == 0 then b
    else if b == 0 then a
    else (if a % 2 == 1 || b % 2 == 1 then 1 else 0) + 2 * Or(a / 2, b / 2)
  }

  // Shifts and masks by at most eight places, written out so that the solver meets constants only.

  /** `x << k`. */
  function Shl(x: nat, k: nat): nat
    requires k <= 8
  {
    if k == 0 then x else if k == 1 then 2 * x else if k == 2 then 4 * x else if k == 3 then 8 * x
    else if k == 4 then 16 * x else if k == 5 then 32 * x else if k == 6 then 64 * x
    else if k == 7 then 128 * x else 256 * x
  }

  /** `x >> k`. */
  function Shr(x: nat, k: nat): nat
    requires k <= 8
  {
    if k == 0 then x else if k == 1 then x / 2 else if k == 2 then x / 4 else if k == 3 then x / 8
    else if k == 4 then x / 16 else if k == 5 then x / 32 else if k == 6 then x / 64
    else if k == 7 then x / 128 else x / 256
  }

  /** The lowest `k` bits. */
  function Low(x: nat, k: nat): nat
    requires k <= 8
  {
    if k == 0 then 0 else if k == 1 then x % 2 else if k == 2 then x % 4 else if k == 3 then x % 8
    else if k == 4 then x % 16 else if k == 5 then x % 32 else if k == 6 then x % 64
    else if k == 7 then x % 128 else x % 256
  }

  lemma LowHalves(x: nat, n: nat)
    requires 0 < n <= 5
    ensures Low(x, n) == 2 * Low(x / 2, n - 1) + x % 2
  {
    if n == 2 {
      Remainder4(x, x / 2 / 2, 2 * (x / 2 % 2) + x % 2);
    } else if n == 3 {
      Remainder8(x, x / 2 / 4, 2 * (x / 2 % 4) + x % 2);
    } else if n == 4 {
      Remainder16(x, x / 2 / 8, 2 * (x / 2 % 8) + x % 2);
    } else if n == 5 {
      Remainder32(x, x / 2 / 16, 2 * (x / 2 % 16) + x % 2);
    }
  }

  lemma Remainder4(x: nat, q: nat, t: nat)
    requires x == 4 * q + t && t < 4
    ensures x % 4 == t
  {
  }

  lemma Remainder8(x: nat, q: nat, t: nat)
    requires x == 8 * q + t && t < 8
    ensures x % 8 == t
  {
  }

  lemma Remainder16(x: nat, q: nat, t: nat)
    requires x == 16 * q + t && t < 16
    ensures x % 16 == t
  {
  }

  lemma Remainder32(x: nat, q: nat, t: nat)
    requires x == 32 * q + t && t < 32
    ensures x % 32 == t
  {
  }

  lemma ShrHalves(x: nat, k: nat)
    requires 0 < k <= 5
    ensures Shr(x / 2, k - 1) == Shr(x, k)
  {
  }

  lemma HalvesDisjoint(a: nat, b: nat, k: nat)
    requires 0 < k <= 5 && Low(a, k) == 0 && Shr(b, k) == 0
    ensures a % 2 == 0 && Low(a / 2, k - 1) == 0 && Shr(b / 2, k - 1) == 0
  {
    LowHalves(a, k);
    ShrHalves(b, k);
  }

  /** Where no bit overlaps, or is addition. */
  lemma {:induction false} OrDisjoint(a: nat, b: nat, k: nat)
    requires k <= 5 && Low(a, k) == 0 && Shr(b, k) == 0
    ensures Or(a, b) == a + b
  {
    if k > 0 && a != 0 && b != 0 {
      HalvesDisjoint(a, b, k);
      OrDisjoint(a / 2, b / 2, k - 1);
    }
  }

  lemma PushSymbol(res: string, v: nat)
    requires AllSymbols(res) && v < 32
    ensures AllSymbols(res + [Symbol(v)]) && Value32(res + [Symbol(v)]) == Value32(res) * 32 + v
  {
    assert (res + [Symbol(v)])[..|res|] == res;
  }

  /** The encoder between two bytes: `r` bits wait in the low five bits of the carry, left-aligned, and the
      emitted symbols followed by those bits spell the number `value`. */
  ghost predicate Encoding(res: string, carry: nat, r: nat, value: nat) {
    && r <= 5
    && AllSymbols(res)
    && Low(carry, 5 - r) == 0
    && Shl(Value32(res), r) + Shr(Low(carry, 5), 5 - r) == value
  }

  /** A number that fits below the lowest set bit adds to the low bits. */
  lemma {:induction false} FitsBelow(carry: nat, h: nat, k: nat, n: nat)
    requires k <= n <= 5 && Low(carry, k) == 0 && Shr(h, k) == 0
    ensures Low(carry + h, n) == Low(carry, n) + h
  {
    if k > 0 {
      HalvesDisjoint(carry, h, k);
      FitsBelow(carry / 2, h / 2, k - 1, n - 1);
      LowHalves(carry, n);
      LowHalves(carry + h, n);
      assert (carry + h) / 2 == carry / 2 + h / 2;
    }
  }

  /** Low bits that end in zeros are a multiple. */
  lemma {:induction false} LowRestores(y: nat, k: nat)
    requires k <= 5 && Low(y, k) == 0
    ensures y == Shl(Shr(y, k), k)
  {
  }

  lemma {:induction false} LowOfLow(carry: nat, k: nat, n: nat)
    requires k <= n <= 5 && Low(carry, k) == 0
    ensures Low(Low(carry, n), k) == 0
  {
    if k > 0 {
      HalvesDisjoint(carry, 0, k);
      LowHalves(carry, n);
      LowOfLow(carry / 2, k - 1, n - 1);
      LowHalves(Low(carry, n), k);
    }
  }

  lemma FirstFits(carry: nat, h: nat, r: nat)
    requires r <= 5 && Low(carry, 5 - r) == 0 && Shr(h, 5 - r) == 0
    ensures Low(carry + h, 5) == Low(carry, 5) + h
    ensures Low(carry, 5) == Shl(Shr(Low(carry, 5), 5 - r), 5 - r)
  {
    FitsBelow(carry, h, 5 - r, 5);
    LowOfLow(carry, 5 - r, 5);
    LowRestores(Low(carry, 5), 5 - r);
  }

  lemma TopBits(b: Byte, r: nat)
    requires r <= 5
    ensures Shr(Shr(b, 3 + r), 5 - r) == 0
  {
  }

  /** The carry and the top of the next byte make one symbol. */
  lemma FirstSymbol(carry: nat, b: Byte, r: nat)
    requires r <= 5 && Low(carry, 5 - r) == 0
    ensures Low(Or(carry, Shr(b, 3 + r)), 5) == Shl(Shr(Low(carry, 5), 5 - r), 5 - r) + Shr(b, 3 + r)
  {
    TopBits(b, r);
    OrDisjoint(carry, Shr(b, 3 + r), 5 - r);
    FirstFits(carry, Shr(b, 3 + r), r);
  }

  /** The low bits of a byte, moved to the top of five and back. */
  lemma LowBits(b: Byte, r: nat)
    requires r <= 5
    ensures Low(Shl(b, 5 - r), 5 - r) == 0
    ensures Shr(Low(Shl(b, 5 - r), 5), 5 - r) == Low(b, r)
  {
    Split(b, r);
    LiftLow(Shr(b, r), Low(b, r), r);
  }

  lemma Split(b: nat, r: nat)
    requires r <= 5
    ensures b == Shl(Shr(b, r), r) + Low(b, r) && Shr(Low(b, r), r) == 0
  {
  }

  lemma Distribute(h: nat, l: nat, r: nat)
    requires r <= 5
    ensures Shl(Shl(h, r) + l, 5 - r) == 32 * h + Shl(l, 5 - r)
  {
  }

  lemma LowFive(h: nat, y: nat)
    requires y < 32
    ensures Low(32 * h + y, 5) == y
  {
  }

  lemma LiftBack(h: nat, l: nat, k: nat)
    requires k <= 5 && Shr(l, 5 - k) == 0
    ensures Shl(l, k) < 32 && Shr(Shl(l, k), k) == l && Low(32 * h + Shl(l, k), k) == 0
  {
  }

  lemma LiftLow(h: nat, l: nat, r: nat)
    requires r <= 5 && Shr(l, r) == 0
    ensures Low(Shl(Shl(h, r) + l, 5 - r), 5 - r) == 0
    ensures Shr(Low(Shl(Shl(h, r) + l, 5 - r), 5), 5 - r) == l
  {
    Distribute(h, l, r);
    LowFive(h, Shl(l, 5 - r));
    LiftBack(h, l, 5 - r);
  }

  /** At most five bits wait: the byte adds one symbol and leaves `r + 3` bits waiting. */
  lemma StepShort(v: nat, q: nat, b: Byte, r: nat)
    requires r <= 2
    ensures Shl(v * 32 + Shl(q, 5 - r) + Shr(b, 3 + r), r + 3) + Low(b, r + 3) == (Shl(v, r) + q) * 256 + b
  {
  }

  /** More than five bits wait: the byte adds two symbols and leaves `r - 2` bits waiting. */
  lemma StepLong(v: nat, q: nat, b: Byte, r: nat)
    requires 3 <= r <= 5
    ensures Shl((v * 32 + Shl(q, 5 - r) + Shr(b, 3 + r)) * 32 + Low(Shr(b, r - 2), 5), r - 2) + Low(b, r - 2)
         == (Shl(v, r) + q) * 256 + b
  {
    MiddleBits(b, r);
  }

  lemma MiddleBits(b: Byte, r: nat)
    requires 3 <= r <= 5
    ensures b == Shl(Shr(b, 3 + r), 3 + r) + Shl(Low(Shr(b, r - 2), 5), r - 2) + Low(b, r - 2)
  {
    if r == 3 {
      assert b / 2 / 32 == b / 64;
    } else if r == 4 {
      assert b / 4 / 32 == b / 128;
    } else {
      assert b / 8 / 32 == b / 256;
    }
  }

  lemma ShortByte(res: string, carry: nat, r: nat, value: nat, b: Byte)
    requires Encoding(res, carry, r, value) && r <= 2
    ensures Encoding(res + [Symbol(Low(Or(carry, Shr(b, 3 + r)), 5))], Shl(b, 2 - r), r + 3, value * 256 + b)
  {
    FirstSymbol(carry, b, r);
    PushSymbol(res, Low(Or(carry, Shr(b, 3 + r)), 5));
    StepShort(Value32(res), Shr(Low(carry, 5), 5 - r), b, r);
    LowBits(b, r + 3);
  }

  lemma LongByte(res: string, carry: nat, r: nat, value: nat, b: Byte)
    requires Encoding(res, carry, r, value) && 3 <= r
    ensures Encoding(res + [Symbol(Low(Or(carry, Shr(b, 3 + r)), 5))] + [Symbol(Low(Shr(b, r - 2), 5))],
                     Shl(b, 7 - r), r - 2, value * 256 + b)
  {
    var s := Low(Or(carry, Shr(b, 3 + r)), 5);
    FirstSymbol(carry, b, r);
    PushSymbol(res, s);
    PushSymbol(res + [Symbol(s)], Low(Shr(b, r - 2), 5));
    StepLong(Value32(res), Shr(Low(carry, 5), 5 - r), b, r);
    LowBits(b, r - 2);
  }

  /** The symbols one byte adds: one, or two when more than five bits were due. */
  function Emitted(shift: nat, carry: nat, b: Byte): string
    requires 3 <= shift <= 8
  {
    [Symbol(Low(Or(carry, Shr(b, shift)), 5))] + (if shift > 5 then [Symbol(Low(Shr(b, shift - 5), 5))] else "")
  }

  function NextCarry(shift: nat, b: Byte): nat
    requires 3 <= shift <= 8
  {
    Shl(b, 5 - (if shift > 5 then shift - 5 else shift))
  }

  function NextShift(shift: nat): (r: nat)
    requires 3 <= shift <= 8
    ensures 3 < r <= 8
  {
    8 - (5 - (if shift > 5 then shift - 5 else shift))
  }

  /** One byte of the loop. */
  lemma ByteStep(res: string, carry: nat, shift: nat, value: nat, b: Byte)
    requires 3 <= shift <= 8 && Encoding(res, carry, shift - 3, value)
    ensures Encoding(res + Emitted(shift, carry, b), NextCarry(shift, b), NextShift(shift) - 3, value * 256 + b)
  {
    var first := res + [Symbol(Low(Or(carry, Shr(b, shift)), 5))];
    if shift <= 5 {
      ShortByte(res, carry, shift - 3, value, b);
      assert res + Emitted(shift, carry, b) == first;
    } else {
      LongByte(res, carry, shift - 3, value, b);
      assert res + Emitted(shift, carry, b) == first + [Symbol(Low(Shr(b, shift - 5), 5))];
    }
  }

  /** Zero bits appended to reach a whole number of symbols. */
  function Padding(n: nat): (p: nat)
    ensures p < 5 && (8 * n + p) % 5 == 0
  {
    (5 - 8 * n % 5) % 5
  }

  /** The symbols spell the bytes' number, shifted left by the padding bits. */
  ghost predicate Encodes(buf: seq<Byte>, res: string) {
    && AllSymbols(res)
    && 5 * |res| == 8 * |buf| + Padding(|buf|)
    && Value32(res) == Shl(Value256(buf), Padding(|buf|))
  }

  /** The last bits become one symbol, padded with zeros on the right. */
  lemma LastSymbol(v: nat, carry: nat, r: nat)
    requires 1 <= r <= 5 && Low(carry, 5 - r) == 0
    ensures v * 32 + Low(carry, 5) == Shl(Shl(v, r) + Shr(Low(carry, 5), 5 - r), 5 - r)
  {
    FirstFits(carry, 0, r);
    var q := Shr(Low(carry, 5), 5 - r);
    Distribute(v, q, r);
  }

  lemma Finished(buf: seq<Byte>, res: string, carry: nat, r: nat)
    requires Encoding(res, carry, r, Value256(buf)) && 8 * |buf| == 5 * |res| + r && 1 <= r
    ensures Encodes(buf, res + [Symbol(Low(carry, 5))])
  {
    LastSymbol(Value32(res), carry, r);
    PushSymbol(res, Low(carry, 5));
    PaddingLeft(|buf|, |res|, r);
  }

  lemma PaddingLeft(bytes: nat, symbols: nat, r: nat)
    requires 8 * bytes == 5 * symbols + r && 1 <= r <= 5
    ensures Padding(bytes) == 5 - r
  {
  }

  /** What remains to be emitted, from the bytes still to come and the loop's two variables. */
  function Base32From(buf: seq<Byte>, shift: nat, carry: nat): string
    requires 3 <= shift <= 8
  {
    if |buf| == 0 then (if shift != 3 then [Symbol(Low(carry, 5))] else "")
    else Emitted(shift, carry, buf[0]) + Base32From(buf[1..], NextShift(shift), NextCarry(shift, buf[0]))
  }

  function Base32(buf: seq<Byte>): string {
    Base32From(buf, 3, 0)
  }

  /** One turn of the loop moves symbols from the remainder to the output. */
  lemma Unroll(buf: seq<Byte>, i: nat, res: string, shift: nat, carry: nat)
    requires i < |buf| && 3 <= shift <= 8
    ensures (res + Emitted(shift, carry, buf[i])) + Base32From(buf[i + 1..], NextShift(shift), NextCarry(shift, buf[i]))
         == res + Base32From(buf[i..], shift, carry)
  {
    assert buf[i..][1..] == buf[i + 1..];
  }

  method ToBase32(buf: seq<Byte>) returns (res: string)
    ensures res == Base32(buf)
  {
    var shift, carry: nat := 3, 0;
    res := "";
    assert buf[0..] == buf;
    for i := 0 to |buf|
      invariant 3 <= shift <= 8
      invariant res + Base32From(buf[i..], shift, carry) == Base32(buf)
    {
      var b := buf[i];
      Unroll(buf, i, res, shift, carry);
      ghost var next := res + Emitted(shift, carry, b);
      var symbol := Or(carry, Shr(b, shift));
      res := res + [Symbol(Low(symbol, 5))];
      if shift > 5 {
        shift := shift - 5;
        symbol := Shr(b, shift);
        res := res + [Symbol(Low(symbol, 5))];
      }
      shift := 5 - shift;
      carry := Shl(b, shift);
      shift := 8 - shift;
      assert res == next;
    }
    if shift != 3 {
      res := res + [Symbol(Low(carry, 5))];
    }
  }

  lemma {:induction false} Base32FromEncodes(buf: seq<Byte>, i: nat, res: string, shift: nat, carry: nat)
    requires i <= |buf| && 3 <= shift <= 8 && (i > 0 ==> shift > 3)
    requires 8 * i == 5 * |res| + (shift - 3)
    requires Encoding(res, carry, shift - 3, Value256(buf[..i]))
    ensures Encodes(buf, res + Base32From(buf[i..], shift, carry))
    decreases |buf| - i
  {
    if i == |buf| {
      assert buf[..i] == buf;
      if shift != 3 {
        Finished(buf, res, carry, shift - 3);
      } else {
        assert res + "" == res;
      }
    } else {
      assert buf[..i + 1][..i] == buf[..i];
      ByteStep(res, carry, shift, Value256(buf[..i]), buf[i]);
      var more := Emitted(shift, carry, buf[i]);
      Base32FromEncodes(buf, i + 1, res + more, NextShift(shift), NextCarry(shift, buf[i]));
      Unroll(buf, i, res, shift, carry);
    }
  }

  /** On n bytes: ceil(8n/5) symbols spelling the bytes' number shifted left by the padding. */
  lemma Base32Encodes(buf: seq<Byte>)
    ensures Encodes(buf, Base32(buf))
  {
    assert buf[0..] == buf;
    Base32FromEncodes(buf, 0, "", 3, 0);
    assert "" + Base32(buf) == Base32(buf);
  }

  lemma {:induction false} Value256Injective(a: seq<Byte>, b: seq<Byte>)
    requires |a| == |b| && Value256(a) == Value256(b)
    ensures a == b
  {
    if |a| > 0 {
      var m := |a| - 1;
      assert Value256(a) / 256 == Value256(a[..m]) && Value256(b) / 256 == Value256(b[..m]);
      Value256Injective(a[..m], b[..m]);
      assert a == a[..m] + [a[m]] && b == b[..m] + [b[m]];
    }
  }

  /** Two byte strings, of any lengths, never share an encoding. */
  lemma Base32Injective(a: seq<Byte>, b: seq<Byte>)
    requires Base32(a) == Base32(b)
    ensures a == b
  {
    Base32Encodes(a);
    Base32Encodes(b);
    assert |a| == |b|;
    Value256Injective(a, b);
  }

  /** A 20-byte address has a 32-symbol body that spells the same number. */
  lemma Base32OfAddress(buf: seq<Byte>)
    requires |buf| == 20
    ensures |Base32(buf)| == 32 && AllSymbols(Base32(buf)) && Value32(Base32(buf)) == Value256(buf)
  {
    Base32Encodes(buf);
  }
}
