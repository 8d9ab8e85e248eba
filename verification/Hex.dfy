/** Hexadecimal text (section 8 of RFC 4648) and the small string helpers of the Go standard library.
    A Go string or byte slice is a sequence of characters with codes 0 to 255, one per byte. */
module Hex {
  import opened Wrappers

  predicate IsBytes(s: string) {
    forall i :: 0 <= i < |s| ==> s[i] as int < 256
  }

  function DigitValue(c: char): Option<nat> {
    if '0' <= c <= '9' then Some(c as int - '0' as int)
    else if 'a' <= c <= 'f' then Some(c as int - 'a' as int + 10)
    else if 'A' <= c <= 'F' then Some(c as int - 'A' as int + 10)
    else None
  }

  function Digit(v: nat): char
    requires v < 16
  {
    if v < 10 then ('0' as int + v) as char else ('a' as int + v - 10) as char
  }

  /** `hex.EncodeToString`. */
  function Encode(bytes: string): string
    requires IsBytes(bytes)
  {
    if |bytes| == 0 then ""
    else [Digit(bytes[0] as int / 16), Digit(bytes[0] as int % 16)] + Encode(bytes[1..])
  }

  /** `hex.DecodeString`: an odd length or a character that is no digit is an error. */
  function Decode(s: string): (r: Option<string>)
    ensures r.Some? ==> |s| == 2 * |r.value| && IsBytes(r.value)
  {
    if |s| == 0 then Some("")
    else if |s| == 1 then None
    else
      match (DigitValue(s[0]), DigitValue(s[1]), Decode(s[2..]))
      case (Some(hi), Some(lo), Some(rest)) => Some([(16 * hi + lo) as char] + rest)
      case _ => None
  }

  /** `isHexDigits`: non-empty, of even length, digits only. */
  predicate IsHexDigits(s: string) {
    |s| != 0 && |s| % 2 == 0 && forall i :: 0 <= i < |s| ==> DigitValue(s[i]).Some?
  }

  predicate IsSpace(c: char) {
    c == ' ' || '\t' <= c <= '\r'
  }

  function TrimLeft(s: string): string {
    if |s| > 0 && IsSpace(s[0]) then TrimLeft(s[1..]) else s
  }

  function TrimRight(s: string): string {
    if |s| > 0 && IsSpace(s[|s| - 1]) then TrimRight(s[..|s| - 1]) else s
  }

  /** `strings.TrimSpace` on ASCII text. */
  function TrimSpace(s: string): string {
    TrimRight(TrimLeft(s))
  }

  predicate HasPrefix(s: string, prefix: string) {
    prefix <= s
  }

  function TrimPrefix(s: string, prefix: string): string {
    if HasPrefix(s, prefix) then s[|prefix|..] else s
  }

  // ---- Round trips ----

  lemma DigitReads(v: nat)
    requires v < 16
    ensures DigitValue(Digit(v)) == Some(v) && !IsSpace(Digit(v)) && Digit(v) != 'x' && Digit(v) < 'g' && Digit(v) as int < 256
  {
  }

  predicate IsHexText(s: string) {
    forall i :: 0 <= i < |s| ==> DigitValue(s[i]).Some?
  }

  lemma {:induction false} EncodeIsHexText(bytes: string)
    requires IsBytes(bytes)
    ensures |Encode(bytes)| == 2 * |bytes| && IsHexText(Encode(bytes))
  {
    if |bytes| > 0 {
      DigitReads(bytes[0] as int / 16);
      DigitReads(bytes[0] as int % 16);
      EncodeIsHexText(bytes[1..]);
    }
  }

  lemma HexTextIsBytes(s: string)
    requires IsHexText(s)
    ensures IsBytes(s)
    ensures s != "" && |s| % 2 == 0 ==> IsHexDigits(s)
  {
    forall i | 0 <= i < |s|
      ensures s[i] as int < 256
    {
      assert DigitValue(s[i]).Some?;
    }
  }

  lemma DecodeCons(hi: char, lo: char, rest: string)
    ensures Decode([hi, lo] + rest) ==
      match (DigitValue(hi), DigitValue(lo), Decode(rest))
      case (Some(h), Some(l), Some(r)) => Some([(16 * h + l) as char] + r)
      case _ => None
  {
    assert ([hi, lo] + rest)[2..] == rest;
  }

  /** Decoding undoes encoding. */
  lemma {:induction false} DecodeEncode(bytes: string)
    requires IsBytes(bytes)
    ensures Decode(Encode(bytes)) == Some(bytes)
  {
    if |bytes| > 0 {
      var b := bytes[0] as int;
      DigitReads(b / 16);
      DigitReads(b % 16);
      DecodeEncode(bytes[1..]);
      DecodeCons(Digit(b / 16), Digit(b % 16), Encode(bytes[1..]));
      assert bytes == [bytes[0]] + bytes[1..];
    }
  }

  /** Decoding succeeds exactly on hexadecimal text of even length. */
  lemma {:induction false} DecodeIffHexText(s: string)
    ensures Decode(s).Some? <==> |s| % 2 == 0 && IsHexText(s)
    ensures IsHexText(s) <==> forall i :: 0 <= i < |s| ==> '0' <= s[i] <= '9' || 'a' <= s[i] <= 'f' || 'A' <= s[i] <= 'F'
  {
    if |s| >= 2 {
      DecodeIffHexText(s[2..]);
      assert IsHexText(s[2..]) && DigitValue(s[0]).Some? && DigitValue(s[1]).Some? ==> IsHexText(s) by {
        assert forall i :: 2 <= i < |s| ==> s[i] == s[2..][i - 2];
      }
      assert IsHexText(s) ==> IsHexText(s[2..]);
    }
  }

  /** Hexadecimal text passes the trimming steps unchanged. */
  lemma HexTextIsTrimmed(s: string)
    requires IsHexText(s)
    ensures TrimSpace(s) == s && TrimPrefix(s, "0x") == s
  {
    if |s| > 0 {
      assert DigitValue(s[0]).Some? && DigitValue(s[|s| - 1]).Some?;
    }
    if |s| > 1 {
      assert DigitValue(s[1]).Some?;
    }
  }

  /** Capital digits written small. */
  function SmallDigits(s: string): string {
    if |s| == 0 then "" else [if 'A' <= s[0] <= 'F' then ((s[0] as int) + 32) as char else s[0]] + SmallDigits(s[1..])
  }

  /** Capital and small digits mean the same. */
  lemma {:induction false} DecodeIgnoresCase(s: string)
    ensures Decode(SmallDigits(s)) == Decode(s)
  {
    if |s| >= 2 {
      var t := SmallDigits(s);
      assert t == [t[0]] + SmallDigits(s[1..]) && t[1..] == SmallDigits(s[1..]);
      assert t[1..] == [t[1]] + SmallDigits(s[2..]) && t[2..] == SmallDigits(s[2..]);
      DecodeIgnoresCase(s[2..]);
    } else if |s| == 1 {
      assert |SmallDigits(s)| == 1;
    }
  }

  /** Nothing but spaces and the control characters from tab to carriage return. */
  predicate IsBlank(s: string) {
    forall i :: 0 <= i < |s| ==> s[i] == ' ' || 9 <= s[i] as int <= 13
  }

  lemma {:induction false} TrimsLeft(pre: string, s: string)
    requires IsBlank(pre) && (s == "" || !IsSpace(s[0]))
    ensures TrimLeft(pre + s) == s
  {
    if |pre| > 0 {
      assert (pre + s)[1..] == pre[1..] + s;
      TrimsLeft(pre[1..], s);
    } else {
      assert pre + s == s;
    }
  }

  lemma {:induction false} TrimsRight(s: string, post: string)
    requires IsBlank(post) && (s == "" || !IsSpace(s[|s| - 1]))
    ensures TrimRight(s + post) == s
  {
    if |post| > 0 {
      assert (s + post)[..|s + post| - 1] == s + post[..|post| - 1];
      TrimsRight(s, post[..|post| - 1]);
    } else {
      assert s + post == s;
    }
  }

  lemma TrimsAround(pre: string, body: string, post: string)
    requires IsBlank(pre) && IsBlank(post) && (body != "" ==> !IsSpace(body[0]) && !IsSpace(body[|body| - 1]))
    ensures TrimSpace(pre + (body + post)) == body
  {
    if body == "" {
      assert pre + (body + post) == pre + post;
      BlankIsTrimmed(pre + post);
    } else {
      assert (body + post)[0] == body[0];
      TrimsLeft(pre, body + post);
      TrimsRight(body, post);
    }
  }

  lemma DressedBody(digits: string, marked: bool)
    requires IsHexText(digits) && TrimPrefix(digits, "0x") == digits
    ensures var body := (if marked then "0x" else "") + digits;
      TrimPrefix(body, "0x") == digits && (body != "" ==> !IsSpace(body[0]) && !IsSpace(body[|body| - 1]))
  {
    var body := (if marked then "0x" else "") + digits;
    assert |digits| > 0 ==> DigitValue(digits[0]).Some? && DigitValue(digits[|digits| - 1]).Some?;
    if marked {
      assert body[2..] == digits;
    } else {
      assert body == digits;
    }
  }

  /** Hexadecimal text is read whatever white space surrounds it, and with or without "0x". */
  lemma DressedHexReads(pre: string, bytes: string, post: string, marked: bool)
    requires IsBlank(pre) && IsBlank(post) && IsBytes(bytes)
    ensures Decode(TrimPrefix(TrimSpace(pre + (((if marked then "0x" else "") + Encode(bytes)) + post)), "0x")) == Some(bytes)
  {
    EncodeIsHexText(bytes);
    HexTextIsTrimmed(Encode(bytes));
    DecodeEncode(bytes);
    DressedBody(Encode(bytes), marked);
    TrimsAround(pre, (if marked then "0x" else "") + Encode(bytes), post);
  }

  lemma BlankIsTrimmed(s: string)
    requires IsBlank(s)
    ensures TrimSpace(s) == ""
  {
    TrimsLeft(s, "");
    assert s + "" == s;
  }
}
