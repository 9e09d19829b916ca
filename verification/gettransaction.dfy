/** gettransaction.go: a transaction's outputs, from bitcoind when it can
    fetch the transaction, else from the first esplora whose JSON decodes. */
module GetTransaction {
  import opened Common
  import opened Text

  datatype TxVout = TxVout(scriptPubKey: string, value: int)

  datatype TxResponse = TxResponse(txid: string, vout: seq<TxVout>)

  /** The zero TxResponse the named result starts with. */
  const EmptyTx: TxResponse := TxResponse("", [])

  /** An output as wire.TxOut holds it: satoshi value and locking script. */
  datatype TxOut = TxOut(value: int, pkScript: seq<byte>)

  /** Decoding an explorer's JSON into the named result `tx`: it succeeds,
      or fails with an error; either way the payload is `tx` as the decoder
      leaves it. The decoder writes over the `tx` it is given, so that value
      keeps whatever an earlier failed decode left in the fields this JSON
      does not set (and a `null` body leaves `tx` as it was); the model takes
      the resulting value per endpoint and does not relate it to the one
      before. */
  datatype TxDecode = Decoded(tx: TxResponse) | DecodeFailed(err: Error, left: TxResponse)

  /** The TxVout built from one output. */
  function VoutOf(o: TxOut): TxVout {
    TxVout(HexEncode(o.pkScript), o.value)
  }

  /** The response built from bitcoind's outputs. */
  function FromOutputs(txid: string, outputs: seq<TxOut>): TxResponse {
    TxResponse(txid, seq(|outputs|, i requires 0 <= i < |outputs| => VoutOf(outputs[i])))
  }

  /** An explorer answer that yields no transaction. */
  predicate Unusable(r: Reply<TxDecode>) {
    r.ConnErr? || r.body.DecodeFailed?
  }

  function ErrorOf(r: Reply<TxDecode>): Error
    requires Unusable(r)
  {
    if r.ConnErr? then r.err else r.body.err
  }

  /** The explorer loop with `tx` and `err` as they stand so far. */
  function TxFromExplorers(rs: seq<Reply<TxDecode>>, tx: TxResponse, err: MaybeError): (r: (TxResponse, MaybeError))
    ensures r.1.None? && r != (tx, err) ==> exists j :: 0 <= j < |rs| && rs[j].Resp? && rs[j].body == Decoded(r.0)
  {
    if rs == [] then (tx, err)
    else
      match rs[0]
      case ConnErr(e) => TxFromExplorers(rs[1..], tx, Some(e))
      case Resp(_, Decoded(t)) => (t, None)
      case Resp(_, DecodeFailed(e, left)) => TxFromExplorers(rs[1..], left, Some(e))
  }

  /** getTransaction as a function of what it consults. `nodeOutputs` are
      the outputs bitcoind's GetRawTransaction returns for the decoded txid
      (None when bitcoind is absent or the call fails). */
  function TxLookup(txid: string, nodeOutputs: Option<seq<TxOut>>, rs: seq<Reply<TxDecode>>): (TxResponse, MaybeError) {
    if HashStringDecodes(txid) && nodeOutputs.Some? then (FromOutputs(txid, nodeOutputs.value), None)
    else TxFromExplorers(rs, EmptyTx, None)
  }

  /** The first explorer whose JSON decodes wins, and its transaction is
      returned as decoded: its txid is not compared with the one asked for. */
  lemma {:induction false} FirstDecodedTxWins(rs: seq<Reply<TxDecode>>, tx: TxResponse, err: MaybeError, k: nat)
    requires k < |rs| && rs[k].Resp? && rs[k].body.Decoded?
    requires forall j :: 0 <= j < k ==> Unusable(rs[j])
    ensures TxFromExplorers(rs, tx, err) == (rs[k].body.tx, None)
  {
    if k > 0 {
      var tx' := if rs[0].ConnErr? then tx else rs[0].body.left;
      FirstDecodedTxWins(rs[1..], tx', Some(ErrorOf(rs[0])), k - 1);
    }
  }

  /** When no explorer yields a transaction, the error is the last one
      recorded (the starting error when there is no explorer). */
  lemma {:induction false} TxExplorersExhaustedError(rs: seq<Reply<TxDecode>>, tx: TxResponse, err: MaybeError)
    requires forall j :: 0 <= j < |rs| ==> Unusable(rs[j])
    ensures TxFromExplorers(rs, tx, err).1 == if rs == [] then err else Some(ErrorOf(rs[|rs| - 1]))
  {
    if |rs| > 1 {
      var tx' := if rs[0].ConnErr? then tx else rs[0].body.left;
      TxExplorersExhaustedError(rs[1..], tx', Some(ErrorOf(rs[0])));
    }
  }

  /** When no explorer yields a transaction and none of them got as far as
      decoding, `tx` is returned untouched: the zero TxResponse in
      getTransaction. */
  lemma {:induction false} UnreachableExplorersLeaveTx(rs: seq<Reply<TxDecode>>, tx: TxResponse, err: MaybeError)
    requires forall j :: 0 <= j < |rs| ==> rs[j].ConnErr?
    ensures TxFromExplorers(rs, tx, err).0 == tx
  {
    if rs != [] {
      UnreachableExplorersLeaveTx(rs[1..], tx, Some(rs[0].err));
    }
  }

  /** On exhaustion the returned `tx` is what the last failed decode left
      in it; later unreachable endpoints do not touch it. */
  lemma {:induction false} ExhaustedTxIsLastLeftover(rs: seq<Reply<TxDecode>>, tx: TxResponse, err: MaybeError, k: nat)
    requires k < |rs| && rs[k].Resp? && rs[k].body.DecodeFailed?
    requires forall j :: 0 <= j < k ==> Unusable(rs[j])
    requires forall j :: k < j < |rs| ==> rs[j].ConnErr?
    ensures TxFromExplorers(rs, tx, err).0 == rs[k].body.left
  {
    if k == 0 {
      UnreachableExplorersLeaveTx(rs[1..], rs[0].body.left, Some(rs[0].body.err));
    } else {
      var tx' := if rs[0].ConnErr? then tx else rs[0].body.left;
      ExhaustedTxIsLastLeftover(rs[1..], tx', Some(ErrorOf(rs[0])), k - 1);
    }
  }

  /** From bitcoind every scriptPubKey is the hex of the output's script and
      decodes back to it. */
  lemma NodeScriptsRoundTrip(txid: string, outputs: seq<TxOut>, i: nat)
    requires i < |outputs|
    ensures HexDecode(FromOutputs(txid, outputs).vout[i].scriptPubKey) == Ok(outputs[i].pkScript)
  {
    HexRoundTrip(outputs[i].pkScript);
  }

  /** getTransaction. `replies` are the outcomes of GET {endpoint}/tx/{txid}
      followed by the JSON decode, in the order tried. */
  method GetTransaction(txid: string, nodeOutputs: Option<seq<TxOut>>, replies: seq<Reply<TxDecode>>)
    returns (tx: TxResponse, err: MaybeError)
    ensures (tx, err) == TxLookup(txid, nodeOutputs, replies)
    ensures HashStringDecodes(txid) && nodeOutputs.Some? ==>
              && err.None? && tx.txid == txid
              && |tx.vout| == |nodeOutputs.value|
              && forall i :: 0 <= i < |tx.vout| ==>
                   tx.vout[i].value == nodeOutputs.value[i].value &&
                   tx.vout[i].scriptPubKey == HexEncode(nodeOutputs.value[i].pkScript)
    ensures replies == [] && !(HashStringDecodes(txid) && nodeOutputs.Some?) ==> (tx, err) == (EmptyTx, None)
  {
    tx, err := EmptyTx, None;
    if HashStringDecodes(txid) && nodeOutputs.Some? {
      var outputs := nodeOutputs.value;
      var vout := new TxVout[|outputs|];
      for i := 0 to |outputs|
        invariant forall j :: 0 <= j < i ==> vout[j] == VoutOf(outputs[j])
      {
        vout[i] := TxVout(HexEncode(outputs[i].pkScript), outputs[i].value);
      }
      assert vout[..] == FromOutputs(txid, outputs).vout;
      return TxResponse(txid, vout[..]), None;
    }

    for i := 0 to |replies|
      invariant TxFromExplorers(replies[i..], tx, err) == TxFromExplorers(replies, EmptyTx, None)
    {
      assert replies[i..][1..] == replies[i + 1..];
      match replies[i] {
        case ConnErr(e) =>
          err := Some(e);
          continue;
        case Resp(_, decode) =>
          match decode {
            case DecodeFailed(e, left) =>
              tx, err := left, Some(e);
              continue;
            case Decoded(t) =>
              tx := t;
          }
          return tx, None;
      }
    }
  }
}
