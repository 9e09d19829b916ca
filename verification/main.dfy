/** main.go: the esplora endpoint list and the JSON-RPC handlers lightningd
    calls (getrawblockbyheight, getchaininfo, estimatefees, getutxout), each
    turning what the lookups return into a response, an error code and an
    error. */
module Plugin {
  import opened Common
  import opened Text
  import GetBlock
  import GetTip
  import EstimateFees
  import GetTransaction

  /** esploras(): a list as long as `esplora` whose every entry is the one
      endpoint esplora[index % n], where `index` is the rand.Intn(10) draw.
      With an empty list the loop never runs, so the modulo is never taken. */
  method Esploras(esplora: seq<string>, index: int) returns (ss: seq<string>)
    requires 0 <= index < 10
    ensures |ss| == |esplora|
    ensures forall i :: 0 <= i < |ss| ==> ss[i] == esplora[index % |esplora|]
    ensures forall i, j :: 0 <= i < |ss| && 0 <= j < |ss| ==> ss[i] == ss[j]
  {
    var n := |esplora|;
    var a := new string[n];
    for i := 0 to n
      invariant forall j :: 0 <= j < i ==> a[j] == esplora[index % n]
    {
      a[i] := esplora[index % n];
    }
    ss := a[..];
  }

  /** A handler's return triple: the JSON response (None for null), the
      error code and the error. */
  datatype Answer<T> = Answer(resp: Option<T>, code: int, err: MaybeError)

  /** What running a handler comes to: it returns its triple, or it panics
      on a slice or index out of range and returns nothing. */
  datatype Handled<T> = Returns(answer: Answer<T>) | Panics(reason: string)

  // ---------------------------------------------------------------------
  // getrawblockbyheight

  /** {"blockhash", "block"}; None is JSON null. */
  datatype RawBlock = RawBlock(blockhash: Option<string>, block: Option<string>)

  const BlockUnavailable: RawBlock := RawBlock(None, None)

  /** The getrawblockbyheight handler over getBlock's (block, hash, err).
      Before answering with a block it logs hash[:26], which panics when
      the hash is shorter than 26 characters. */
  function RawBlockByHeight(block: string, hash: string, err: MaybeError): (r: Handled<RawBlock>)
    ensures r.Panics? <==> err.None? && block != "" && |hash| < 26
    ensures r.Returns? ==> r.answer.code == 0 && r.answer.err.None? && r.answer.resp.Some?
    ensures r.Returns? ==> (r.answer.resp.value.block.Some? <==> err.None? && block != "")
    ensures r.Returns? ==> (r.answer.resp.value.blockhash.Some? <==> r.answer.resp.value.block.Some?)
    ensures r.Returns? && r.answer.resp.value.block.Some? ==> r.answer.resp.value == RawBlock(Some(hash), Some(block))
  {
    if err.Some? then Returns(Answer(Some(BlockUnavailable), 0, None))
    else if block == "" then Returns(Answer(Some(BlockUnavailable), 0, None))
    else if |hash| < 26 then Panics("runtime error: slice bounds out of range [:26] with length " + FormatInt(|hash|))
    else Returns(Answer(Some(RawBlock(Some(hash), Some(block))), 0, None))
  }

  /** On mainnet, when the block came from an explorer, the handler does not
      panic (the verified hash is 64 characters long) and what it hands to
      lightningd is a block that parses, hashes to the returned blockhash
      and links to the cached parent. */
  lemma MainnetRawBlockIsVerified(height: int, cache: map<int, string>,
                                  nodeHash: Option<Hash>, hashReplies: seq<Reply<Result<string>>>,
                                  nodeBlock: Option<seq<byte>>, src: GetBlock.BlockSources, parse: GetBlock.BlockParser)
    requires !(nodeBlock.Some? && HashStringDecodes(GetBlock.HashLookup(nodeHash, hashReplies).0))
    ensures var (block, hash, err) := GetBlock.BlockLookup("bitcoin", height, cache, nodeHash, hashReplies, nodeBlock, src, parse);
            && RawBlockByHeight(block, hash, err).Returns?
            && var r := RawBlockByHeight(block, hash, err).answer.resp.value;
               (r.block.Some? ==>
                  exists b :: r.block.value == HexEncode(b) &&
                    GetBlock.VerifiedOnMainnet(b, height, cache, r.blockhash.value, parse))
  {
    var (block, hash, err) := GetBlock.BlockLookup("bitcoin", height, cache, nodeHash, hashReplies, nodeBlock, src, parse);
    if block != "" {
      GetBlock.MainnetBlockIsVerified(height, cache, nodeHash, hashReplies, nodeBlock, src, parse);
      var b :| block == HexEncode(b) && GetBlock.VerifiedOnMainnet(b, height, cache, hash, parse);
      assert |hash| == 2 * HashSize;
    }
  }

  /** Off mainnet nothing checks the hash an explorer served: when getHash
      gets the body "abc" and the first esplora endpoint serves a block,
      getBlock returns that block under the hash "abc", and the handler
      panics. */
  lemma ShortHashPanicsOffMainnet(network: string, height: int, cache: map<int, string>,
                                  status: int, raw: seq<byte>, src: GetBlock.BlockSources, parse: GetBlock.BlockParser)
    requires network == "testnet" || network == "signet" || network == "liquid"
    requires status < 404 && |raw| >= 200 && src.esplora == [Resp(status, raw)]
    ensures var (block, hash, err) := GetBlock.BlockLookup(network, height, cache, None, [Resp(status, Ok("abc"))], None, src, parse);
            (block, hash, err) == (HexEncode(raw), "abc", None) && RawBlockByHeight(block, hash, err).Panics?
  {
    AbcIsServed(status);
    GetBlock.FetchersDecide(network, height, cache, None, [Resp(status, Ok("abc"))], None, src, parse);
    FirstEsploraBlockAccepted(network, height, cache, status, raw, src, parse);
  }

  /** getHash takes the body "abc" of an explorer as the hash. */
  lemma AbcIsServed(status: int)
    requires status < 404
    ensures GetBlock.HashLookup(None, [Resp(status, Ok("abc"))]) == ("abc", None)
  {
    assert LeadingSpace("abc") == 0;
    assert TrimSpace("abc") == "abc";
    assert GetBlock.ClassifyHashReply(Resp(status, Ok("abc"))) == GetBlock.Served("abc");
  }

  /** Off mainnet the first esplora endpoint's block of 200 bytes or more is
      returned unchecked, whatever the hash. */
  lemma FirstEsploraBlockAccepted(network: string, height: int, cache: map<int, string>,
                                  status: int, raw: seq<byte>, src: GetBlock.BlockSources, parse: GetBlock.BlockParser)
    requires network == "testnet" || network == "signet" || network == "liquid"
    requires |raw| >= 200 && src.esplora == [Resp(status, raw)]
    ensures GetBlock.FirstAccepted(GetBlock.Verdicts(network, height, cache, "abc", parse, src), None) == (HexEncode(raw), None)
  {
    var vs := GetBlock.Verdicts(network, height, cache, "abc", parse, src);
    assert GetBlock.Candidate(GetBlock.Esplora, network, "abc", src) == GetBlock.Fetched(Some(raw), None);
    assert GetBlock.FetchersFor(network)[0] == GetBlock.Esplora;
    assert vs[0] == GetBlock.Accept(raw);
  }

  // ---------------------------------------------------------------------
  // getchaininfo

  datatype ChainInfo = ChainInfo(chain: string, headerCount: int, blockCount: int, ibd: bool)

  const TipFailure: string := "failed to get tip: "

  /** The getchaininfo handler over getTip's (tip, err): always the "main"
      chain, never in initial block download, with the tip as both the
      header and the block count; a failed tip is error code 20. */
  function ChainInfoAnswer(tip: int, err: MaybeError): (r: Answer<ChainInfo>)
    ensures r.err.Some? <==> err.Some?
    ensures err.Some? ==> r.resp.None? && r.code == 20 && r.err.value == TipFailure + err.value
    ensures err.None? ==> r.code == 0 && r.resp.Some?
    ensures r.resp.Some? ==>
              && r.resp.value.chain == "main" && !r.resp.value.ibd
              && r.resp.value.headerCount == r.resp.value.blockCount == tip
  {
    match err
    case Some(e) => Answer(None, 20, Some(TipFailure + e))
    case None => Answer(Some(ChainInfo("main", tip, tip, false)), 0, None)
  }

  /** With bitcoind answering, getchaininfo reports its header count as both
      counts, whatever the explorers would say. */
  lemma ChainInfoFromNode(headers: int, rs: seq<Reply<Result<string>>>)
    ensures var (tip, err) := GetTip.TipLookup(Some(headers), rs);
            ChainInfoAnswer(tip, err) == Answer(Some(ChainInfo("main", headers, headers, false)), 0, None)
  {
  }

  /** Without bitcoind and with at least one explorer, when no explorer
      body parses getchaininfo fails with code 20 carrying the last
      attempt's error. */
  lemma ChainInfoFromExplorers(rs: seq<Reply<Result<string>>>)
    requires rs != []
    requires forall j :: 0 <= j < |rs| ==> !GetTip.TipParsed(rs[j])
    ensures var (tip, err) := GetTip.TipLookup(None, rs);
            ChainInfoAnswer(tip, err) == Answer(None, 20, Some(TipFailure + GetTip.TipMiss(rs[|rs| - 1])))
  {
    GetTip.TipExhausted(rs, None);
  }

  /** Without bitcoind, once an explorer body parses getchaininfo answers
      with that first parsed height as both counts; with no explorer at all
      it answers with both counts 0. So the code-20 failure happens only
      when some explorer was tried and none parsed. */
  lemma ChainInfoFromFirstParsedTip(rs: seq<Reply<Result<string>>>, k: nat)
    requires k < |rs| && GetTip.TipParsed(rs[k])
    requires forall j :: 0 <= j < k ==> !GetTip.TipParsed(rs[j])
    ensures var (tip, err) := GetTip.TipLookup(None, rs);
            var h := ParseInt(rs[k].body.value).value;
            ChainInfoAnswer(tip, err) == Answer(Some(ChainInfo("main", h, h, false)), 0, None)
    ensures var (tip, err) := GetTip.TipLookup(None, []);
            ChainInfoAnswer(tip, err) == Answer(Some(ChainInfo("main", 0, 0, false)), 0, None)
  {
    GetTip.FirstParsedTipWins(rs, None, k);
  }

  // ---------------------------------------------------------------------
  // estimatefees

  /** The eight fee fields the estimatefees handler returns; None is JSON
      null. */
  datatype ChannelFees = ChannelFees(
    opening: Option<int>, mutualClose: Option<int>, unilateralClose: Option<int>,
    delayedToUs: Option<int>, htlcResolution: Option<int>, penalty: Option<int>,
    minAcceptable: Option<int>, maxAcceptable: Option<int>)

  const NoFees: ChannelFees := ChannelFees(None, None, None, None, None, None, None, None)

  /** Go's x / 2 on an int: the quotient truncated toward zero. */
  function HalfTowardZero(x: int): (q: int)
    ensures x >= 0 ==> 0 <= x - 2 * q <= 1
    ensures x < 0 ==> 0 <= 2 * q - x <= 1
  {
    if x >= 0 then x / 2 else -((-x) / 2)
  }

  /** The estimatefees handler over getFeeRatesFromEsplora's (feerates, err):
      slow (504 blocks) for opening and delayed-to-us, normal (10) for mutual
      close and HTLC resolution, very urgent (2) for unilateral close, urgent
      (5) for penalty, half of slow as the minimum and a hundred times very
      urgent as the maximum acceptable rate. A failure is not an error to
      lightningd: every field is null. */
  function EstimateFeesAnswer(feerates: map<string, real>, err: MaybeError): (r: Answer<ChannelFees>)
    ensures r.code == 0 && r.err.None? && r.resp.Some?
    ensures err.Some? ==> r.resp.value == NoFees
    ensures err.None? ==>
              var f := r.resp.value;
              && f.opening.Some? && f.mutualClose.Some? && f.unilateralClose.Some? && f.penalty.Some?
              && f.delayedToUs == f.opening && f.htlcResolution == f.mutualClose
              && f.opening.value == EstimateFees.Scaled(feerates, "504")
              && f.mutualClose.value == EstimateFees.Scaled(feerates, "10")
              && f.penalty.value == EstimateFees.Scaled(feerates, "5")
              && f.unilateralClose.value == EstimateFees.Scaled(feerates, "2")
              && f.minAcceptable == Some(HalfTowardZero(f.opening.value))
              && f.maxAcceptable == Some(f.unilateralClose.value * 100)
  {
    if err.Some? then Answer(Some(NoFees), 0, None)
    else
      var slow := EstimateFees.Scaled(feerates, "504");
      var normal := EstimateFees.Scaled(feerates, "10");
      var urgent := EstimateFees.Scaled(feerates, "5");
      var veryUrgent := EstimateFees.Scaled(feerates, "2");
      Answer(Some(ChannelFees(Some(slow), Some(normal), Some(veryUrgent), Some(slow), Some(normal),
                              Some(urgent), Some(HalfTowardZero(slow)), Some(veryUrgent * 100))), 0, None)
  }

  /** The handler and getFeeRates without bitcoind read the same table the
      same way: opening is the floor, and unilateral close, penalty and
      mutual close are the 2-, 5- and 10-block rates; when getFeeRates has
      no table the handler's fields are all null. */
  lemma EstimateFeesAgreesWithFeeRates(ps: seq<EstimateFees.FeeProbe>)
    ensures var (feerates, err) := EstimateFees.FeeTableFromExplorers(ps);
            var f := EstimateFeesAnswer(feerates, err).resp.value;
            var (fees, _) := EstimateFees.FeeRates(None, ps);
            && (fees.None? ==> f == NoFees)
            && (fees.Some? ==>
                  && f.opening == Some(fees.value.feeRateFloor)
                  && f.unilateralClose == Some(fees.value.feeRates[0].feeRate)
                  && f.penalty == Some(fees.value.feeRates[1].feeRate)
                  && f.mutualClose == Some(fees.value.feeRates[2].feeRate)
                  && f.delayedToUs == Some(fees.value.feeRates[3].feeRate))
  {
    EstimateFees.ExplorerFeeTable(ps);
  }

  // ---------------------------------------------------------------------
  // getutxout

  /** {"amount", "script"}; None is JSON null. */
  datatype UtxoResponse = UtxoResponse(amount: Option<int>, script: Option<string>)

  /** The getutxout handler over getTransaction's (tx, err). Indexing
      tx.Vout[vout] panics when `vout` is out of range. */
  function UtxOutAnswer(tx: GetTransaction.TxResponse, err: MaybeError, vout: int): (r: Handled<UtxoResponse>)
    ensures r.Panics? <==> err.None? && !(0 <= vout < |tx.vout|)
    ensures r.Returns? ==> r.answer.code == 0 && r.answer.err.None? && r.answer.resp.Some?
    ensures err.Some? ==> r == Returns(Answer(Some(UtxoResponse(None, None)), 0, None))
    ensures r.Returns? && err.None? ==>
              r.answer.resp.value == UtxoResponse(Some(tx.vout[vout].value), Some(tx.vout[vout].scriptPubKey))
  {
    if err.Some? then Returns(Answer(Some(UtxoResponse(None, None)), 0, None))
    else if !(0 <= vout < |tx.vout|) then
      if vout < 0 then Panics("runtime error: index out of range [" + FormatInt(vout) + "]")
      else Panics("runtime error: index out of range [" + FormatInt(vout) + "] with length " + FormatInt(|tx.vout|))
    else
      var output := tx.vout[vout];
      Returns(Answer(Some(UtxoResponse(Some(output.value), Some(output.scriptPubKey))), 0, None))
  }

  /** With bitcoind serving the transaction, getutxout returns the output's
      value and a script whose hex decodes back to the output's script. */
  lemma UtxOutFromNode(txid: string, outputs: seq<GetTransaction.TxOut>,
                       rs: seq<Reply<GetTransaction.TxDecode>>, vout: int)
    requires HashStringDecodes(txid) && 0 <= vout < |outputs|
    ensures var (tx, err) := GetTransaction.TxLookup(txid, Some(outputs), rs);
            && err.None? && UtxOutAnswer(tx, err, vout).Returns?
            && var r := UtxOutAnswer(tx, err, vout).answer.resp.value;
               && r.amount == Some(outputs[vout].value)
               && HexDecode(r.script.value) == Ok(outputs[vout].pkScript)
  {
    GetTransaction.NodeScriptsRoundTrip(txid, outputs, vout);
  }
}
