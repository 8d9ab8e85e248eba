/** What the node reports: transactions and resolved handle claims (backend/nimiq_rpc.go,
    backend/handles_registry.go). */
module ChainTypes {
  import opened Wrappers
  import opened AddressText
  import opened Hex

  /** One reported transaction. Nodes name some fields in two ways; a missing index is None. */
  datatype RpcTx = RpcTx(
    hash: string, sender: string, from: string, recipient: string, to: string,
    data: string, recipientData: string, value: nat, blockNumber: nat,
    transactionIndex: Option<nat>, timestamp: int, fromType: int, toType: int)
  {
    function TxIndexOrZero(): nat {
      match transactionIndex case None => 0 case Some(i) => i
    }

    function Sender(): string { if sender != "" then sender else from }

    function Recipient(): string { if recipient != "" then recipient else to }

    function Data(): string { if data != "" then data else recipientData }
  }

  datatype HandleClaim = HandleClaim(
    handle: string, address: string, txHash: string, blockHeight: nat, txIndex: nat, claimedAt: int)

  /** The zero time of the Go runtime, in Unix seconds. */
  const NEVER := -62135596800

  const SWEEP_COOLDOWN_SECONDS := 5

  const ESCROW_REFERENCE_PREFIX := "NME1:"

  /** The trade reference carried by a deposit, "" when there is none. */
  function ParseTradeReference(dataHex: string): string {
    match Decode(TrimPrefix(TrimSpace(dataHex), "0x"))
    case None => ""
    case Some(text) => if HasPrefix(text, ESCROW_REFERENCE_PREFIX) then TrimPrefix(text, ESCROW_REFERENCE_PREFIX) else ""
  }

  /** The data a buyer is told to send reads back as the trade's reference. */
  lemma ReferenceReadsBack(reference: string)
    requires IsBytes(reference)
    ensures IsBytes(ESCROW_REFERENCE_PREFIX + reference)
    ensures ParseTradeReference(Encode(ESCROW_REFERENCE_PREFIX + reference)) == reference
  {
    var text := ESCROW_REFERENCE_PREFIX + reference;
    EncodeIsHexText(text);
    HexTextIsTrimmed(Encode(text));
    DecodeEncode(text);
  }

  /** The references read from data are those spelled out in it, in hex after the prefix, and no other text is one. */
  lemma ReferencesExactly(dataHex: string, reference: string)
    requires reference != ""
    ensures ParseTradeReference(dataHex) == reference <==> Decode(TrimPrefix(TrimSpace(dataHex), "0x")) == Some("NME1:" + reference)
  {
    match Decode(TrimPrefix(TrimSpace(dataHex), "0x"))
    case None =>
    case Some(text) =>
      if HasPrefix(text, "NME1:") {
        assert text == "NME1:" + text[5..];
      }
  }

  /** Nodes may name a field in either of two ways; where both are used the first name counts. */
  lemma EitherName(tx: RpcTx, sender: string, recipient: string, data: string)
    requires sender != "" && recipient != "" && data != ""
    ensures var first := tx.(sender := sender, recipient := recipient, data := data);
            first.Sender() == sender && first.Recipient() == recipient && first.Data() == data
    ensures var second := tx.(sender := "", from := sender, recipient := "", to := recipient, data := "", recipientData := data);
            second.Sender() == sender && second.Recipient() == recipient && second.Data() == data
  {
  }
}
