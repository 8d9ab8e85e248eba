/** User-friendly addresses: making them, and recognising them (backend/address.go, backend/inbox.go). */
module Addresses {
  import opened Wrappers
  import opened AddressText
  import opened Arithmetic
  import opened AddressCodec
  import opened AddressCheck

  /** `strconv.Atoi` accepts these two characters: two digits, or a sign and a digit. */
  predicate IsTwoCharInteger(s: string)
    requires |s| == 2
  {
    (IsDigit(s[0]) || s[0] == '+' || s[0] == '-') && IsDigit(s[1])
  }

  /** The check value of a compact address: the body first, then country code and check digits. */
  function CheckOf(c: string): int
    requires |c| >= 4
  {
    Iban(c[4..] + c[..4])
  }

  predicate IsValidCompact(c: string) {
    && |c| == 36
    && c[..2] == "NQ"
    && IsTwoCharInteger(c[2..4])
    && AllSymbols(c[4..])
    && CheckOf(c) == 1
  }

  predicate IsValidNimiqAddress(address: string) {
    IsValidCompact(Compact(address))
  }

  /** `fmt.Sprintf("%02d", v)` for the values a check takes. */
  function TwoDigits(v: nat): (s: string)
    requires v < 100
    ensures |s| == 2 && AllDigits(s)
  {
    [('0' as int + v / 10) as char, ('0' as int + v % 10) as char]
  }

  function UserFriendlyAddress(buf: seq<Byte>): Option<string> {
    if |buf| != 20 then None
    else
      var body := Base32(buf);
      var check := 98 - Iban(body + "NQ00");
      if 0 <= check < 100 then Some(Normalize("NQ" + TwoDigits(check) + body)) else None
  }

  /** `addressForRPC`: valid addresses are grouped, anything else is passed on unchanged. */
  function ForRPC(address: string): string {
    if IsValidNimiqAddress(address) then Normalize(address) else address
  }

  lemma ForRPCKeepsAddress(address: string)
    ensures Compact(ForRPC(address)) == Compact(address)
    ensures if IsValidNimiqAddress(address) then |ForRPC(address)| == 44 else ForRPC(address) == address
  {
    CompactNormalize(address);
    GroupedLength(Compact(address), 0);
  }

  lemma NumberOfTwoDigits(v: nat)
    requires v < 100
    ensures Number(TwoDigits(v)) == v
  {
    var s := TwoDigits(v);
    assert s[..1] == [s[0]] && s[..1][..0] == "";
    assert Number(s[..1]) == v / 10;
  }

  lemma {:induction false} DigitsExpandToThemselves(s: string)
    requires AllDigits(s)
    ensures Expand(s) == s
  {
    if |s| > 0 {
      DigitsExpandToThemselves(s[..|s| - 1]);
      assert s == s[..|s| - 1] + [s[|s| - 1]];
    }
  }

  /** Two check digits after `head`: the expansion as a number. */
  lemma AppendDigits(head: string, v: nat)
    requires Alphanumeric(head) && v < 100
    ensures Alphanumeric(head + TwoDigits(v))
    ensures AllDigits(Expand(head)) && AllDigits(Expand(head + TwoDigits(v)))
    ensures Number(Expand(head + TwoDigits(v))) == Number(Expand(head)) * 100 + v
  {
    var digits := TwoDigits(v);
    ExpandDigits(head);
    ExpandConcat(head, digits);
    DigitsExpandToThemselves(digits);
    NumberConcat(Expand(head), digits);
    NumberOfTwoDigits(v);
    assert Pow(10, 1) == 10 * Pow(10, 0);
    assert Pow(10, 2) == 100;
  }

  /** The check over a body with two check digits is a linear function of those digits. */
  lemma CheckIsLinear(head: string, v: nat)
    requires Alphanumeric(head) && v < 100
    ensures AllDigits(Expand(head))
    ensures Iban(head + TwoDigits(v)) == Mod97(Number(Expand(head)) * 100 + v)
  {
    AppendDigits(head, v);
    IbanIsMod97(head + TwoDigits(v));
  }

  lemma MadeIsCompact(v: nat, body: string)
    requires v < 100 && AllSymbols(body)
    ensures Compact(Normalize("NQ" + TwoDigits(v) + body)) == "NQ" + TwoDigits(v) + body
  {
    var c := "NQ" + TwoDigits(v) + body;
    forall i | 0 <= i < |c|
      ensures c[i] != ' ' && Upper(c[i]) == c[i]
    {
      if i >= 4 {
        assert c[i] == body[i - 4];
      }
    }
    CompactNormalize(c);
    CompactFixesCompact(c);
  }

  /** The number a body and country code expand to, with room for two check digits. */
  ghost function Lead(head: string): nat {
    if AllDigits(Expand(head)) then Number(Expand(head)) * 100 else 0
  }

  lemma CheckOfLead(head: string, v: nat)
    requires Alphanumeric(head) && v < 100
    ensures Iban(head + TwoDigits(v)) == Mod97(Lead(head) + v)
  {
    CheckIsLinear(head, v);
  }

  lemma CompletesLead(head: string, zero: nat, v: nat)
    requires Alphanumeric(head) && zero == 0 && v < 100 && v == 98 - Mod97(Lead(head)) && Mod97(Lead(head) + v) == 1
    ensures v == 98 - Iban(head + TwoDigits(zero)) && Iban(head + TwoDigits(v)) == 1
  {
    CheckOfLead(head, zero);
    CheckOfLead(head, v);
  }

  /** The check digits complete the remainder to one. */
  lemma ChosenCheck(head: string) returns (v: nat)
    requires Alphanumeric(head)
    ensures v < 100 && v == 98 - Iban(head + TwoDigits(0))
    ensures Iban(head + TwoDigits(v)) == 1
  {
    v := Completion(Lead(head));
    CompletesLead(head, 0, v);
  }

  lemma Completion(x: nat) returns (v: nat)
    ensures v < 100 && v == 98 - Mod97(x) && Mod97(x + v) == 1
  {
    v := 98 - Mod97(x);
  }

  /** Every address made from twenty bytes is recognised as valid. */
  lemma MadeAddressesAreValid(buf: seq<Byte>)
    requires |buf| == 20
    ensures UserFriendlyAddress(buf).Some? && IsValidNimiqAddress(UserFriendlyAddress(buf).value)
    ensures var c := Compact(UserFriendlyAddress(buf).value); AllSymbols(c[4..]) && Value32(c[4..]) == Value256(buf)
  {
    var body := Base32(buf);
    Base32OfAddress(buf);
    var v := ChosenCheck(body + "NQ");
    assert body + "NQ" + TwoDigits(0) == body + "NQ00";
    MadeIsCompact(v, body);
    assert body + "NQ" + TwoDigits(v) == body + ("NQ" + TwoDigits(v));
    MadeParts(v, body);
  }

  lemma MadeParts(v: nat, body: string)
    requires v < 100
    ensures var c := "NQ" + TwoDigits(v) + body;
            c[..2] == "NQ" && c[2..4] == TwoDigits(v) && c[..4] == "NQ" + TwoDigits(v) && c[4..] == body
  {
  }

  /** What a character contributes to the expansion, and how many digits it takes. */
  function CharValue(c: char): int { if IsDigit(c) then c as int - '0' as int else c as int - 55 }
  function CharWidth(c: char): nat { if IsDigit(c) then 1 else 2 }

  lemma NumberOfChar(c: char)
    requires IsDigit(c) || 'A' <= c <= 'Z'
    ensures AllDigits(CharDigits(c)) && Number(CharDigits(c)) == CharValue(c) && |CharDigits(c)| == CharWidth(c)
  {
    if IsDigit(c) {
      assert CharDigits(c)[..0] == "";
    } else {
      DecimalReadsBack(c as int - 55);
    }
  }

  lemma ExpandThree(pre: string, x: char, post: string)
    requires Alphanumeric(pre) && Alphanumeric([x]) && Alphanumeric(post)
    ensures AllDigits(Expand(pre)) && AllDigits(CharDigits(x)) && AllDigits(Expand(post))
    ensures Expand(pre + [x] + post) == Expand(pre) + CharDigits(x) + Expand(post)
  {
    assert [x][0] == x;
    NumberOfChar(x);
    ExpandDigits(pre);
    ExpandDigits(post);
    ExpandConcat(pre + [x], post);
    assert (pre + [x])[..|pre|] == pre;
  }

  /** The expansion of a string, as a number, around one of its characters. */
  lemma NumberAround(pre: string, x: char, post: string)
    requires Alphanumeric(pre) && Alphanumeric([x]) && Alphanumeric(post)
    ensures AllDigits(Expand(pre)) && AllDigits(Expand(post)) && AllDigits(Expand(pre + [x] + post))
    ensures Number(Expand(pre + [x] + post))
         == Joined(Joined(Number(Expand(pre)), Pow(10, CharWidth(x)), CharValue(x)), Pow(10, |Expand(post)|), Number(Expand(post)))
  {
    assert [x][0] == x;
    ExpandThree(pre, x, post);
    NumberOfChar(x);
    NumberConcat(Expand(pre), CharDigits(x));
    NumberConcat(Expand(pre) + CharDigits(x), Expand(post));
  }

  lemma CharsDiffer(x: char, y: char)
    requires Alphanumeric([x]) && Alphanumeric([y])
    requires x != y && IsDigit(x) == IsDigit(y)
    ensures 0 <= CharValue(x) < 97 && 0 <= CharValue(y) < 97 && CharValue(x) != CharValue(y)
  {
    assert [x][0] == x && [y][0] == y;
  }

  /** One character replaced by another of its kind always changes the remainder. */
  lemma SubstitutionChangesNumber(pre: string, x: char, y: char, post: string)
    requires Alphanumeric(pre) && Alphanumeric([x]) && Alphanumeric([y]) && Alphanumeric(post)
    requires x != y && IsDigit(x) == IsDigit(y)
    ensures AllDigits(Expand(pre + [x] + post)) && AllDigits(Expand(pre + [y] + post))
    ensures Mod97(Number(Expand(pre + [x] + post))) != Mod97(Number(Expand(pre + [y] + post)))
  {
    assert [x][0] == x && [y][0] == y;
    NumberAround(pre, x, post);
    NumberAround(pre, y, post);
    CharsDiffer(x, y);
    SameRemainder(Number(Expand(pre)), Pow(10, CharWidth(x)), CharValue(x), CharValue(y), |Expand(post)|, Number(Expand(post)));
  }

  lemma ChecksDiffer(s: string, t: string)
    requires Alphanumeric(s) && Alphanumeric(t) && |s| > 0 && |t| > 0
    requires AllDigits(Expand(s)) && AllDigits(Expand(t))
    requires Mod97(Number(Expand(s))) != Mod97(Number(Expand(t)))
    ensures Iban(s) != Iban(t)
  {
    IbanIsMod97(s);
    IbanIsMod97(t);
  }

  lemma SubstitutionChangesCheck(pre: string, x: char, y: char, post: string)
    requires Alphanumeric(pre) && Alphanumeric([x]) && Alphanumeric([y]) && Alphanumeric(post)
    requires x != y && IsDigit(x) == IsDigit(y)
    ensures Iban(pre + [x] + post) != Iban(pre + [y] + post)
  {
    AlphanumericAround(pre, x, post);
    AlphanumericAround(pre, y, post);
    SubstitutionChangesNumber(pre, x, y, post);
    ChecksDiffer(pre + [x] + post, pre + [y] + post);
  }

  lemma AlphanumericAround(pre: string, x: char, post: string)
    requires Alphanumeric(pre) && Alphanumeric([x]) && Alphanumeric(post)
    ensures Alphanumeric(pre + [x] + post) && |pre + [x] + post| > 0
  {
    assert [x][0] == x;
  }

  lemma SameRemainder(head: int, factor: int, dx: int, dy: int, e: nat, tail: int)
    requires 0 <= dx < 97 && 0 <= dy < 97 && dx != dy
    ensures Mod97(Joined(Joined(head, factor, dx), Pow(10, e), tail)) != Mod97(Joined(Joined(head, factor, dy), Pow(10, e), tail))
  {
    var a, b := Joined(Joined(head, factor, dx), Pow(10, e), tail), Joined(Joined(head, factor, dy), Pow(10, e), tail);
    JoinedDifference(head * factor, dx, dy, Pow(10, e), tail);
    if Mod97(a) == Mod97(b) {
      SameMod(a, b);
      Pow10Cancels(dx - dy, e);
      assert false;
    }
  }

  lemma JoinedDifference(lead: int, dx: int, dy: int, p: int, tail: int)
    ensures Joined(lead + dx, p, tail) - Joined(lead + dy, p, tail) == (dx - dy) * p
  {
    assert (lead + dx) * p == (lead + dy) * p + (dx - dy) * p;
  }

  lemma SameMod(a: int, b: int)
    requires Mod97(a) == Mod97(b)
    ensures (a - b) % 97 == 0
  {
  }

  lemma ValidIsAlphanumeric(c: string)
    requires IsValidCompact(c) && AllDigits(c[2..4])
    ensures Alphanumeric(c[4..] + c[..4])
  {
    SpellsAlphanumeric(c);
  }

  /** A valid address with decimal check digits stops being valid when one body symbol or check digit is
      replaced by another of the same kind: digit for digit, letter for letter. */
  lemma SubstitutionIsDetected(c: string, k: nat, y: char)
    requires IsValidCompact(c) && AllDigits(c[2..4])
    requires 2 <= k < 36 && y != c[k] && IsDigit(y) == IsDigit(c[k]) && InAlphabet(y)
    ensures !IsValidCompact(c[k := y])
  {
    ValidIsAlphanumeric(c);
    var s := c[4..] + c[..4];
    var j := if k >= 4 then k - 4 else k + 32;
    var d := c[k := y];
    assert s[j] == c[k];
    var pre, post := s[..j], s[j + 1..];
    assert s == pre + [c[k]] + post;
    assert d[4..] + d[..4] == pre + [y] + post;
    SubstitutionChangesCheck(pre, c[k], y, post);
  }

  /** Of addresses with decimal check digits exactly those are valid, in whatever spelling, that have country code NQ,
      alphabet symbols for a body, and the whole expansion of body, country code and digits congruent to 1 modulo 97. */
  lemma ValidIff(address: string)
    requires |Compact(address)| == 36 && AllDigits(Compact(address)[2..4])
    ensures var c := Compact(address); var s := c[4..] + c[..4];
      IsValidNimiqAddress(address) <==>
        c[0] == 'N' && c[1] == 'Q' && (forall i :: 4 <= i < 36 ==> InAlphabet(c[i])) && AllDigits(Expand(s)) && Number(Expand(s)) % 97 == 1
    ensures IsValidNimiqAddress(InSmallLetters(address)) <==> IsValidNimiqAddress(address)
  {
    var c := Compact(address);
    var s := c[4..] + c[..4];
    CaseIsIgnored(address);
    assert c[..2] == [c[0], c[1]];
    assert AllSymbols(c[4..]) <==> forall i :: 4 <= i < 36 ==> InAlphabet(c[i]) by {
      assert forall i :: 0 <= i < 32 ==> c[4..][i] == c[i + 4];
      assert forall i :: 4 <= i < 36 ==> c[i] == c[4..][i - 4];
    }
    if c[..2] == "NQ" && AllSymbols(c[4..]) {
      SpellsAlphanumeric(c);
      IbanIsMod97(s);
    }
  }

  lemma SpellsAlphanumeric(c: string)
    requires |c| == 36 && c[..2] == "NQ" && AllDigits(c[2..4]) && AllSymbols(c[4..])
    ensures Alphanumeric(c[4..] + c[..4])
  {
    var s := c[4..] + c[..4];
    forall i | 0 <= i < |s|
      ensures IsDigit(s[i]) || 'A' <= s[i] <= 'Z'
    {
      if i < 32 {
        assert s[i] == c[4..][i];
      } else if i < 34 {
        assert s[i] == c[..2][i - 32];
      } else {
        assert s[i] == c[2..4][i - 34];
      }
    }
  }
}
