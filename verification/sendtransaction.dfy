/** sendtransaction.go: broadcasting a raw transaction through bitcoind, or
    else by POSTing it to each esplora endpoint until one accepts it. */
module SendTransaction {
  import opened Common
  import opened Text

  datatype RawTransactionResponse = RawTransactionResponse(success: bool, errMsg: string)

  /** {true, ""}: some source accepted the transaction. */
  const Accepted: RawTransactionResponse := RawTransactionResponse(true, "")

  /** The zero value the named result starts with. */
  const NoResponse: RawTransactionResponse := RawTransactionResponse(false, "")

  /** An answer to POST {endpoint}/tx that does not accept the transaction. */
  predicate Refused(r: Reply<string>) {
    r.ConnErr? || r.status >= 300
  }

  /** The failure a refusing answer records: the connection error's text,
      or the body the endpoint sent with its error status. */
  function FailureOf(r: Reply<string>): (f: RawTransactionResponse)
    requires Refused(r)
    ensures !f.success
  {
    match r
    case ConnErr(e) => RawTransactionResponse(false, e)
    case Resp(_, body) => RawTransactionResponse(false, body)
  }

  /** The endpoint loop with `resp` the failure recorded so far. */
  function SendToExplorers(rs: seq<Reply<string>>, resp: RawTransactionResponse): (r: RawTransactionResponse)
    ensures r.success ==> r == Accepted || r == resp
  {
    if rs == [] then resp
    else if Refused(rs[0]) then SendToExplorers(rs[1..], FailureOf(rs[0]))
    else Accepted
  }

  /** Whether the bitcoind path succeeds: bitcoind is present, the hex
      decodes, wire.MsgTx.BtcDecode accepts the bytes and bitcoind's
      SendRawTransaction call succeeds. */
  predicate NodeAccepts(txHex: string, bitcoind: bool, msgTxDecodes: seq<byte> -> bool, nodeSubmits: bool) {
    bitcoind && HexDecode(txHex).Ok? && msgTxDecodes(HexDecode(txHex).value) && nodeSubmits
  }

  /** sendRawTransaction as a function of what it consults. */
  function SendLookup(txHex: string, bitcoind: bool, msgTxDecodes: seq<byte> -> bool, nodeSubmits: bool,
                      rs: seq<Reply<string>>): (r: RawTransactionResponse)
    ensures r.success ==> r.errMsg == ""
  {
    if NodeAccepts(txHex, bitcoind, msgTxDecodes, nodeSubmits) then Accepted
    else SendToExplorers(rs, NoResponse)
  }

  /** The first endpoint that answers below 300 makes the broadcast a
      success with no message, whatever failed before it. */
  lemma {:induction false} FirstAcceptingEndpointWins(rs: seq<Reply<string>>, resp: RawTransactionResponse, k: nat)
    requires k < |rs| && !Refused(rs[k])
    requires forall j :: 0 <= j < k ==> Refused(rs[j])
    ensures SendToExplorers(rs, resp) == Accepted
  {
    if k > 0 {
      FirstAcceptingEndpointWins(rs[1..], FailureOf(rs[0]), k - 1);
    }
  }

  /** When every endpoint refuses, the last refusal is the result; with no
      endpoint at all it is the response the loop started with. */
  lemma {:induction false} AllEndpointsRefused(rs: seq<Reply<string>>, resp: RawTransactionResponse)
    requires forall j :: 0 <= j < |rs| ==> Refused(rs[j])
    ensures SendToExplorers(rs, resp) == if rs == [] then resp else FailureOf(rs[|rs| - 1])
  {
    if |rs| > 1 {
      AllEndpointsRefused(rs[1..], FailureOf(rs[0]));
    }
  }

  /** sendRawTransaction. `replies` are the endpoints' answers to the POST
      of the hex, in the order tried. */
  method SendRawTransaction(txHex: string, bitcoind: bool, msgTxDecodes: seq<byte> -> bool, nodeSubmits: bool,
                            replies: seq<Reply<string>>) returns (resp: RawTransactionResponse)
    ensures resp == SendLookup(txHex, bitcoind, msgTxDecodes, nodeSubmits, replies)
    ensures resp.success ==> resp.errMsg == ""
    ensures NodeAccepts(txHex, bitcoind, msgTxDecodes, nodeSubmits) ==> resp == Accepted
  {
    resp := NoResponse;
    if bitcoind {
      match HexDecode(txHex) {
        case Ok(txBytes) =>
          if msgTxDecodes(txBytes) && nodeSubmits {
            return Accepted;
          }
        case Err(_) =>
      }
    }

    for i := 0 to |replies|
      invariant SendToExplorers(replies[i..], resp) == SendToExplorers(replies, NoResponse)
    {
      assert replies[i..][1..] == replies[i + 1..];
      match replies[i] {
        case ConnErr(e) =>
          resp := RawTransactionResponse(false, e);
          continue;
        case Resp(status, body) =>
          if status >= 300 {
            resp := RawTransactionResponse(false, body);
            continue;
          }
          return Accepted;
      }
    }
  }
}
