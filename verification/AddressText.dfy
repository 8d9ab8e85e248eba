/** The two textual forms of an address: compact (no spaces, upper case) and grouped by fours. */
module AddressText {

  /** `strings.ToUpper` on one ASCII character. */
  function Upper(c: char): char {
    if 'a' <= c <= 'z' then ((c as int) - 32) as char else c
  }

  function Compact(address: string): string {
    if |address| == 0 then ""
    else if address[0] == ' ' then Compact(address[1..])
    else [Upper(address[0])] + Compact(address[1..])
  }

  /** `s` with a space before each character whose position (counted from `i`) is a positive multiple of four. */
  function Grouped(s: string, i: nat): string {
    if |s| == 0 then ""
    else (if i > 0 && i % 4 == 0 then " " else "") + [s[0]] + Grouped(s[1..], i + 1)
  }

  function Normalize(address: string): string {
    Grouped(Compact(address), 0)
  }

  /** No spaces and nothing left to upper-case. */
  ghost predicate IsCompact(s: string) {
    forall i :: 0 <= i < |s| ==> s[i] != ' ' && Upper(s[i]) == s[i]
  }

  lemma {:induction false} CompactIsCompact(address: string)
    ensures IsCompact(Compact(address))
  {
    if |address| > 0 {
      CompactIsCompact(address[1..]);
    }
  }

  lemma {:induction false} CompactFixesCompact(s: string)
    requires IsCompact(s)
    ensures Compact(s) == s
  {
    if |s| > 0 {
      assert forall i :: 0 <= i < |s[1..]| ==> s[1..][i] == s[i + 1];
      CompactFixesCompact(s[1..]);
    }
  }

  lemma CompactStep(c: char, rest: string)
    ensures Compact([c] + rest) == (if c == ' ' then "" else [Upper(c)]) + Compact(rest)
  {
    assert ([c] + rest)[1..] == rest;
  }

  lemma GroupedStep(s: string, i: nat)
    requires |s| > 0
    ensures Grouped(s, i) == (if i > 0 && i % 4 == 0 then " " else "") + ([s[0]] + Grouped(s[1..], i + 1))
  {
  }

  lemma {:induction false} CompactUngroups(s: string, i: nat)
    requires IsCompact(s)
    ensures Compact(Grouped(s, i)) == s
  {
    if |s| > 0 {
      var rest := Grouped(s[1..], i + 1);
      assert forall k :: 0 <= k < |s[1..]| ==> s[1..][k] == s[k + 1];
      CompactUngroups(s[1..], i + 1);
      CompactStep(s[0], rest);
      CompactStep(' ', [s[0]] + rest);
      GroupedStep(s, i);
    }
  }

  /** Compacting is idempotent, and grouping never changes which compact address is meant. */
  lemma CompactNormalize(address: string)
    ensures Compact(Compact(address)) == Compact(address)
    ensures Compact(Normalize(address)) == Compact(address)
  {
    CompactIsCompact(address);
    CompactFixesCompact(Compact(address));
    CompactUngroups(Compact(address), 0);
  }

  /** A spelling in small letters. */
  function InSmallLetters(s: string): string {
    if |s| == 0 then ""
    else [if 'A' <= s[0] <= 'Z' then ((s[0] as int) + 32) as char else s[0]] + InSmallLetters(s[1..])
  }

  /** Letter case does not matter for which address is meant. */
  lemma {:induction false} CaseIsIgnored(address: string)
    ensures Compact(InSmallLetters(address)) == Compact(address)
  {
    if |address| > 0 {
      CaseIsIgnored(address[1..]);
    }
  }

  /** Nor do spaces, wherever they are. */
  lemma {:induction false} SpacesAreIgnored(a: string, b: string)
    ensures Compact(a + " " + b) == Compact(a + b)
  {
    if |a| == 0 {
      assert a + " " + b == " " + b && a + b == b;
      assert (" " + b)[1..] == b;
    } else {
      SpacesAreIgnored(a[1..], b);
      assert (a + " " + b)[1..] == a[1..] + " " + b;
      assert (a + b)[1..] == a[1..] + b;
    }
  }

  lemma {:induction false} GroupedSymbol(s: string, i: nat, k: nat)
    requires k < |s|
    ensures var at := k + (i + k) / 4 - (if i > 0 then (i - 1) / 4 else 0);
            at < |Grouped(s, i)| && Grouped(s, i)[at] == s[k]
  {
    if k > 0 {
      GroupedSymbol(s[1..], i + 1, k - 1);
    }
  }

  /** Grouping puts one space after every four symbols, and none at the end. */
  lemma GroupsOfFour(address: string, k: nat)
    requires k < |Compact(address)|
    ensures k + k / 4 < |Normalize(address)| && Normalize(address)[k + k / 4] == Compact(address)[k]
    ensures |Normalize(address)| == |Compact(address)| + (|Compact(address)| - 1) / 4
  {
    GroupedSymbol(Compact(address), 0, k);
    GroupedLength(Compact(address), 0);
  }

  lemma {:induction false} GroupedLength(s: string, i: nat)
    ensures |s| > 0 ==> |Grouped(s, i)| == |s| + (i + |s| - 1) / 4 - (if i > 0 then (i - 1) / 4 else 0)
  {
    if |s| > 1 {
      GroupedLength(s[1..], i + 1);
    }
  }
}
