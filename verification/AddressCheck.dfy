/** The MOD 97-10 check over an address (ISO/IEC 7064), computed in chunks of six decimal digits
    (backend/address.go, backend/inbox.go). */
module AddressCheck {
  import opened AddressText
  import opened Arithmetic
  import opened AddressCodec

  /** One character as decimal text: a digit is itself, anything else its code less 55. */
  function CharDigits(c: char): string {
    if IsDigit(c) then [c] else Decimal(c as int - 55)
  }

  function Expand(s: string): string {
    if |s| == 0 then "" else Expand(s[..|s| - 1]) + CharDigits(Upper(s[|s| - 1]))
  }

  /** The length of the next chunk. */
  function ChunkEnd(n: string): (end: nat)
    requires |n| > 0
    ensures 0 < end <= |n|
  {
    if |n| < 6 then |n| else 6
  }

  /** The text carried past the next chunk. */
  function Carried(tmp: string, n: string): string
    requires |n| > 0
  {
    Decimal(TruncatedMod(ScanInt(tmp + n[..ChunkEnd(n)]), 97))
  }

  /** The remainder carried as text through the chunks that are left. */
  function CheckChunks(tmp: string, n: string): string
    decreases |n|
  {
    if |n| == 0 then tmp
    else
      CheckChunks(Carried(tmp, n), n[ChunkEnd(n)..])
  }

  function Iban(s: string): int {
    ScanInt(CheckChunks("", Expand(s)))
  }

  lemma NextChunk(tmp: string, n: string, start: nat, end: nat)
    requires start < |n| && end == if start + 6 > |n| then |n| else start + 6
    ensures CheckChunks(tmp, n[start..]) == CheckChunks(Decimal(TruncatedMod(ScanInt(tmp + n[start..end]), 97)), n[end..])
  {
    assert n[start..][..end - start] == n[start..end];
    assert n[start..][end - start..] == n[end..];
  }

  method IbanCheck(s: string) returns (out: int)
    ensures out == Iban(s)
  {
    var n := "";
    for i := 0 to |s|
      invariant n == Expand(s[..i])
    {
      assert s[..i + 1][..i] == s[..i];
      n := n + CharDigits(Upper(s[i]));
    }
    assert s[..|s|] == s;
    var tmp := "";
    var i := 0;
    assert n[0..] == n;
    while i < (|n| + 5) / 6
      invariant 0 <= i <= (|n| + 5) / 6
      invariant CheckChunks(tmp, n[if i * 6 > |n| then |n| else i * 6..]) == CheckChunks("", n)
    {
      var end := (i + 1) * 6;
      if end > |n| {
        end := |n|;
      }
      var chunk := tmp + n[i * 6..end];
      NextChunk(tmp, n, i * 6, end);
      var rem := ScanInt(chunk);
      tmp := Decimal(TruncatedMod(rem, 97));
      i := i + 1;
    }
    assert n[|n|..] == "";
    out := ScanInt(tmp);
  }

  /** Digits and upper-case letters, the characters of a compact address. */
  predicate Alphanumeric(s: string) {
    forall i :: 0 <= i < |s| ==> IsDigit(s[i]) || 'A' <= s[i] <= 'Z'
  }

  lemma {:induction false} ExpandDigits(s: string)
    requires Alphanumeric(s)
    ensures AllDigits(Expand(s))
  {
    if |s| > 0 {
      ExpandDigits(s[..|s| - 1]);
      var c := s[|s| - 1];
      if !IsDigit(c) {
        DecimalReadsBack(c as int - 55);
      }
    }
  }

  /** One more character adds the same ending to any expansion. */
  lemma ExpandMore(s: string, t: string, c: char) returns (last: string)
    ensures Expand(s + [c]) == Expand(s) + last && Expand(t + [c]) == Expand(t) + last
  {
    assert (s + [c])[..|s|] == s && (t + [c])[..|t|] == t;
    last := CharDigits(Upper(c));
  }

  lemma Associates(a: string, b: string, c: string)
    ensures (a + b) + c == a + (b + c)
  {
  }

  lemma ExpandConcatMore(a: string, b: string, c: char)
    requires Expand(a + b) == Expand(a) + Expand(b)
    ensures Expand(a + (b + [c])) == Expand(a) + Expand(b + [c])
  {
    var last := ExpandMore(a + b, b, c);
    Associates(a, b, [c]);
    Associates(Expand(a), Expand(b), last);
  }

  lemma {:induction false} ExpandConcat(a: string, b: string)
    ensures Expand(a + b) == Expand(a) + Expand(b)
  {
    if |b| == 0 {
      assert a + b == a && Expand(b) == "";
    } else {
      ExpandConcat(a, b[..|b| - 1]);
      ExpandConcatMore(a, b[..|b| - 1], b[|b| - 1]);
      assert b == b[..|b| - 1] + [b[|b| - 1]];
    }
  }

  /** What one chunk reads, and how it relates to the whole text. */
  lemma OneChunk(tmp: string, n: string) returns (v: nat)
    requires AllDigits(tmp) && AllDigits(n) && |n| > 0
    ensures Carried(tmp, n) == Decimal(Mod97(v))
    ensures AllDigits(tmp + n)
    ensures Number(tmp + n) == Joined(v, Pow(10, |n[ChunkEnd(n)..]|), Number(n[ChunkEnd(n)..]))
  {
    var head, rest := n[..ChunkEnd(n)], n[ChunkEnd(n)..];
    NumberConcat(tmp + head, rest);
    assert (tmp + head) + rest == tmp + n;
    ScanDigits(tmp + head);
    v := Number(tmp + head);
  }

  /** Chunk by chunk or all at once, the remainder is the same. */
  lemma {:induction false} ChunksAgree(v: nat, n: string)
    requires AllDigits(n)
    ensures var r := CheckChunks(Decimal(Mod97(v)), n);
            AllDigits(r) && Number(r) == Mod97(Joined(v, Pow(10, |n|), Number(n)))
    decreases |n|
  {
    var tmp := Decimal(Mod97(v));
    DecimalReadsBack(Mod97(v));
    ReduceLead(v, Pow(10, |n|), Number(n));
    if |n| > 0 {
      NumberConcat(tmp, n);
      var u := OneChunk(tmp, n);
      ChunksAgree(u, n[ChunkEnd(n)..]);
    }
  }

  /** The chunked check is the remainder of the whole decimal expansion modulo 97. */
  lemma IbanIsMod97(s: string)
    requires Alphanumeric(s) && |s| > 0
    ensures AllDigits(Expand(s)) && Iban(s) == Mod97(Number(Expand(s)))
  {
    ExpandDigits(s);
    ExpandNonempty(s);
    CheckOfDigits(Expand(s));
  }

  lemma CheckOfDigits(n: string)
    requires AllDigits(n) && |n| > 0
    ensures ScanInt(CheckChunks("", n)) == Mod97(Number(n))
  {
    var v := OneChunk("", n);
    var rest := n[ChunkEnd(n)..];
    var r := CheckChunks(Decimal(Mod97(v)), rest);
    assert CheckChunks("", n) == r;
    assert "" + n == n;
    ChunksAgree(v, rest);
    ScanDigits(r);
  }

  lemma ExpandNonempty(s: string)
    requires Alphanumeric(s) && |s| > 0
    ensures |Expand(s)| > 0
  {
    var c := s[|s| - 1];
    if !IsDigit(c) {
      DecimalReadsBack(c as int - 55);
    }
  }

  lemma LetterDigits(c: char)
    requires 'A' <= c <= 'Z'
    ensures var v := c as int - 'A' as int + 10; CharDigits(c) == [('0' as int + v / 10) as char, ('0' as int + v % 10) as char]
  {
    var v := c as int - 'A' as int + 10;
    assert Decimal(v) == Decimal(v / 10) + [('0' as int + v % 10) as char];
  }

  lemma ExpandsOneMore(s: string, c: char)
    ensures Expand(s + [c]) == Expand(s) + CharDigits(Upper(c))
  {
    assert (s + [c])[..|s|] == s;
  }

  /** Digits stand for themselves, letters for two digits, A for ten up to Z for thirty-five, one after the other. */
  lemma ExpandsAs(s: string, c: char)
    requires IsDigit(c) || 'A' <= c <= 'Z'
    ensures var v := c as int - 'A' as int + 10;
      Expand(s + [c]) == Expand(s) + if IsDigit(c) then [c] else [('0' as int + v / 10) as char, ('0' as int + v % 10) as char]
  {
    ExpandsOneMore(s, c);
    if !IsDigit(c) {
      LetterDigits(c);
    }
  }
}
