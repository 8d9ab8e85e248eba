/** Claims and releases of handles as transaction data: three wire forms and one parser (backend/handles.go). */
module ClaimCodec {
  import opened Wrappers
  import opened Hex

  datatype Action = Action(handle: string, isRelease: bool)

  const TEXT_PREFIX := "NFH:"
  const VERSION: char := 1 as char
  const CLAIM: char := 1 as char
  const RELEASE: char := 7 as char
  const NUL: char := 0 as char

  predicate IsHandleChar(c: char) {
    'a' <= c <= 'z' || '0' <= c <= '9' || c == '_'
  }

  predicate IsValidHandle(h: string) {
    3 <= |h| <= 31 && forall i :: 0 <= i < |h| ==> IsHandleChar(h[i])
  }

  // ---- Making ----

  /** The binary payload; a display name may follow it after a zero byte. */
  function Payload(a: Action): string {
    "NF" + [VERSION, if a.isRelease then RELEASE else CLAIM] + a.handle
  }

  /** `makeClaimPayload` and `makeReleasePayload`: the text envelope. */
  function MakePayload(a: Action): string
    requires IsBytes(a.handle)
  {
    TEXT_PREFIX + Encode(Payload(a))
  }

  // ---- Parsing ----

  /** The part before the first zero byte. */
  function BeforeNul(s: string): string {
    if |s| == 0 || s[0] == NUL then "" else [s[0]] + BeforeNul(s[1..])
  }

  function ParsePayload(payload: string): Option<Action> {
    if |payload| < 4 || !HasPrefix(payload, "NF") || payload[2] != VERSION then None
    else if payload[3] != CLAIM && payload[3] != RELEASE then None
    else
      var handle := BeforeNul(payload[4..]);
      if IsValidHandle(handle) then Some(Action(handle, payload[3] == RELEASE)) else None
  }

  function ParseRaw(raw: string): Option<Action> {
    if HasPrefix(raw, TEXT_PREFIX) then
      match Decode(TrimSpace(TrimPrefix(raw, TEXT_PREFIX)))
      case None => None
      case Some(inner) => ParsePayload(inner)
    else ParsePayload(raw)
  }

  /** The transaction data field, in hex: binary or text, or either of them in hex once more. */
  function ParseClaimData(dataHex: string): Option<Action> {
    match Decode(TrimPrefix(TrimSpace(dataHex), "0x"))
    case None => None
    case Some(raw) =>
      if ParseRaw(raw).Some? then ParseRaw(raw)
      else if !IsHexDigits(raw) then None
      else
        match Decode(raw)
        case None => None
        case Some(inner) => ParseRaw(inner)
  }

  // ---- What a payload is ----

  /** The payload of an action, alone or followed by a zero byte and anything. */
  ghost predicate IsPayloadOf(p: string, a: Action) {
    IsValidHandle(a.handle) && Payload(a) <= p && (p == Payload(a) || p[|Payload(a)|] == NUL)
  }

  lemma {:induction false} BeforeNulReads(handle: string, rest: string)
    requires forall i :: 0 <= i < |handle| ==> handle[i] != NUL
    requires rest == "" || rest[0] == NUL
    ensures BeforeNul(handle + rest) == handle
  {
    if |handle| > 0 {
      assert (handle + rest)[1..] == handle[1..] + rest;
      BeforeNulReads(handle[1..], rest);
    } else {
      assert handle + rest == rest;
    }
  }

  lemma {:induction false} BeforeNulIsPrefix(s: string)
    ensures BeforeNul(s) <= s
    ensures BeforeNul(s) == s || s[|BeforeNul(s)|] == NUL
  {
    if |s| > 0 && s[0] != NUL {
      BeforeNulIsPrefix(s[1..]);
      assert s == [s[0]] + s[1..];
    }
  }

  /** The parser accepts exactly the payloads, and reads each as its action. */
  lemma ParsesExactlyPayloads(p: string, a: Action)
    ensures ParsePayload(p) == Some(a) <==> IsPayloadOf(p, a)
  {
    if IsPayloadOf(p, a) {
      var rest := p[|Payload(a)|..];
      assert p == Payload(a) + rest;
      assert p[4..] == a.handle + rest;
      BeforeNulReads(a.handle, rest);
      assert ParsePayload(p) == Some(a);
    }
    if ParsePayload(p) == Some(a) {
      BeforeNulIsPrefix(p[4..]);
      assert p[..4] == "NF" + [VERSION, if a.isRelease then RELEASE else CLAIM];
      assert p == p[..4] + p[4..];
      assert Payload(a) == p[..4] + a.handle;
      assert p[..|Payload(a)|] == Payload(a);
    }
  }

  /** The bytes on the wire: "NF", version 1, 1 for a claim or 7 for a release, and a name of 3 to 31 small letters,
      digits and underscores; what follows a zero byte does not matter, and nothing else is accepted. */
  lemma WireBytes(name: string, code: char, tail: string)
    requires (forall i :: 0 <= i < |name| ==> name[i] != 0 as char) && (tail == "" || tail[0] == 0 as char)
    ensures ParsePayload("NF" + [1 as char, code] + name + tail) ==
      if (code == 1 as char || code == 7 as char) && 3 <= |name| <= 31
         && forall i :: 0 <= i < |name| ==> 'a' <= name[i] <= 'z' || '0' <= name[i] <= '9' || name[i] == '_'
      then Some(Action(name, code == 7 as char)) else None
  {
    var p := "NF" + [1 as char, code] + name + tail;
    assert p[4..] == name + tail && p[..2] == "NF" && p[2] == 1 as char && p[3] == code;
    BeforeNulReads(name, tail);
  }

  /** The raw bytes of an action: its payload, or the text envelope around its payload in hex. */
  ghost predicate IsRawOf(raw: string, a: Action) {
    || IsPayloadOf(raw, a)
    || (HasPrefix(raw, TEXT_PREFIX)
        && exists inner :: Decode(TrimSpace(TrimPrefix(raw, TEXT_PREFIX))) == Some(inner) && IsPayloadOf(inner, a))
  }

  lemma ParsesExactlyRaw(raw: string, a: Action)
    ensures ParseRaw(raw) == Some(a) <==> IsRawOf(raw, a)
  {
    ParsesExactlyPayloads(raw, a);
    if HasPrefix(raw, TEXT_PREFIX) {
      assert raw[2] == 'H';
      var decoded := Decode(TrimSpace(TrimPrefix(raw, TEXT_PREFIX)));
      if decoded.Some? {
        ParsesExactlyPayloads(decoded.value, a);
      }
    }
  }

  /** The three forms do not overlap: bytes that are hexadecimal text are never read as binary or as the envelope,
      and the envelope is never read as binary. */
  lemma FormsAreDisjoint(raw: string, a: Action)
    ensures IsHexDigits(raw) ==> ParseRaw(raw).None?
    ensures HasPrefix(raw, TEXT_PREFIX) ==> !IsPayloadOf(raw, a) && !IsHexDigits(raw)
    ensures IsPayloadOf(raw, a) ==> !IsHexDigits(raw)
  {
    assert DigitValue('N').None?;
    if HasPrefix(raw, TEXT_PREFIX) {
      assert raw[0] == 'N' && raw[2] == 'H';
    }
    if IsPayloadOf(raw, a) {
      assert raw[0] == Payload(a)[0];
    }
  }

  /** Transaction data is an action's exactly when its bytes are, or are hexadecimal text of bytes that are. */
  lemma ParsesExactlyClaimData(dataHex: string, a: Action)
    ensures ParseClaimData(dataHex) == Some(a) <==>
      match Decode(TrimPrefix(TrimSpace(dataHex), "0x"))
      case None => false
      case Some(raw) => IsRawOf(raw, a) || (Decode(raw).Some? && IsRawOf(Decode(raw).value, a))
  {
    match Decode(TrimPrefix(TrimSpace(dataHex), "0x"))
    case None =>
    case Some(raw) =>
      ParsesExactlyRaw(raw, a);
      FormsAreDisjoint(raw, a);
      DecodeIffHexText(raw);
      assert IsHexDigits(raw) <==> raw != "" && Decode(raw).Some?;
      assert !IsRawOf("", a);
      if IsHexDigits(raw) {
        ParsesExactlyRaw(Decode(raw).value, a);
      }
  }

  // ---- Round trips ----

  lemma DecodesBack(bytes: string)
    requires IsBytes(bytes)
    ensures Decode(TrimPrefix(TrimSpace(Encode(bytes)), "0x")) == Some(bytes)
  {
    EncodeIsHexText(bytes);
    HexTextIsTrimmed(Encode(bytes));
    DecodeEncode(bytes);
  }

  lemma EncodesAgain(bytes: string)
    requires IsBytes(bytes)
    ensures IsBytes(Encode(bytes)) && (bytes != "" ==> IsHexDigits(Encode(bytes)))
  {
    EncodeIsHexText(bytes);
    HexTextIsBytes(Encode(bytes));
  }

  /** Bytes of an action read back from hex, and from hex of hex. */
  lemma HexReadsBack(raw: string, a: Action)
    requires IsBytes(raw) && IsRawOf(raw, a)
    ensures IsBytes(Encode(raw))
    ensures ParseClaimData(Encode(raw)) == Some(a) && ParseClaimData(Encode(Encode(raw))) == Some(a)
  {
    assert raw != "" by { if IsPayloadOf(raw, a) { assert Payload(a) <= raw; } }
    DecodesBack(raw);
    EncodesAgain(raw);
    DecodesBack(Encode(raw));
    DecodeEncode(raw);
    ParsesExactlyClaimData(Encode(raw), a);
    ParsesExactlyClaimData(Encode(Encode(raw)), a);
  }

  lemma PayloadBytes(a: Action)
    requires IsValidHandle(a.handle)
    ensures IsBytes(a.handle) && IsBytes(Payload(a))
  {
    forall i | 0 <= i < |a.handle|
      ensures a.handle[i] as int < 256
    {
      assert IsHandleChar(a.handle[i]);
    }
  }

  /** Every valid action reads back from the binary form, with or without a display name after it, as it is and in
      double hex. */
  lemma BinaryRoundTrip(a: Action, tail: string)
    requires IsValidHandle(a.handle) && IsBytes(tail) && (tail == "" || tail[0] == NUL)
    ensures IsBytes(Payload(a) + tail) && IsBytes(Encode(Payload(a) + tail))
    ensures ParseClaimData(Encode(Payload(a) + tail)) == Some(a)
    ensures ParseClaimData(Encode(Encode(Payload(a) + tail))) == Some(a)
  {
    PayloadBytes(a);
    HexReadsBack(Payload(a) + tail, a);
  }

  /** The text envelope that the program makes reads back too, and fits the wallet's 64 characters exactly for
      handles of at most 26. */
  lemma TextRoundTrip(a: Action)
    requires IsValidHandle(a.handle)
    ensures IsBytes(a.handle) && IsBytes(MakePayload(a)) && IsBytes(Encode(MakePayload(a)))
    ensures ParseClaimData(Encode(MakePayload(a))) == Some(a)
    ensures ParseClaimData(Encode(Encode(MakePayload(a)))) == Some(a)
    ensures |MakePayload(a)| <= 64 <==> |a.handle| <= 26
  {
    PayloadBytes(a);
    EncodesAgain(Payload(a));
    EncodeIsHexText(Payload(a));
    HexTextIsTrimmed(Encode(Payload(a)));
    DecodeEncode(Payload(a));
    var text := MakePayload(a);
    assert TrimPrefix(text, TEXT_PREFIX) == Encode(Payload(a));
    assert IsPayloadOf(Payload(a), a);
    HexReadsBack(text, a);
  }

  /** A text envelope is "NFH:" and the payload in hex. */
  lemma EnvelopeOpens(payload: string)
    requires IsBytes(payload)
    ensures ParseRaw("NFH:" + Encode(payload)) == ParsePayload(payload)
  {
    var raw := "NFH:" + Encode(payload);
    assert raw[4..] == Encode(payload) && raw[..4] == "NFH:";
    EncodeIsHexText(payload);
    HexTextIsTrimmed(Encode(payload));
    DecodeEncode(payload);
  }
}
