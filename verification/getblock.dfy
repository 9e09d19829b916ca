/** getblock.go: resolving a height to a block hash (bitcoind, then the
    esplora endpoints), fetching the block (bitcoind, then the fetchers the
    network allows) and, on mainnet, checking every fetched block against
    the resolved hash and the height cache before it is trusted. */
module GetBlock {
  import opened Common
  import opened Text

  /** chainhash.Hash.String() and hex.EncodeToString(reverseHash(h)): the
      hash shown with its bytes reversed, as Bitcoin displays it. */
  function DisplayHash(h: Hash): (s: string)
    ensures |s| == 2 * HashSize
  {
    HexEncode(Reverse(h))
  }

  /** The displayed text of a hash is one chainhash.Decode accepts, and as
      hex it spells the hash's bytes back to front. */
  lemma DisplayHashDecodes(h: Hash)
    ensures HexDecode(DisplayHash(h)) == Ok(Reverse(h))
    ensures HashStringDecodes(DisplayHash(h))
  {
    HexRoundTrip(Reverse(h));
  }

  // ---------------------------------------------------------------------
  // reverseHash

  function Reverse(h: seq<byte>): (r: seq<byte>)
    ensures |r| == |h|
  {
    seq(|h|, i requires 0 <= i < |h| => h[|h| - 1 - i])
  }

  /** Reversing twice gives the hash back. */
  lemma ReverseInvolution(h: seq<byte>)
    ensures Reverse(Reverse(h)) == h
  {
  }

  /** reverseHash: a fresh 32-byte slice holding the hash back to front. */
  method ReverseHash(h: Hash) returns (r: seq<byte>)
    ensures |r| == HashSize
    ensures forall i :: 0 <= i < HashSize ==> r[HashSize - 1 - i] == h[i]
    ensures r == Reverse(h)
  {
    var a := new byte[HashSize];
    for i := 0 to HashSize
      invariant forall j :: 0 <= j < i ==> a[HashSize - 1 - j] == h[j]
    {
      a[HashSize - 1 - i] := h[i];
    }
    r := a[..];
    forall k | 0 <= k < HashSize
      ensures r[k] == Reverse(h)[k]
    {
      assert r[HashSize - 1 - (HashSize - 1 - k)] == h[HashSize - 1 - k];
    }
  }

  // ---------------------------------------------------------------------
  // getHash

  /** How getHash treats one answer to GET {endpoint}/block-height/{height}:
      it serves a hash, it is passed over without touching the error
      (status 404 or above), or it fails and its error is recorded. */
  datatype HashAttempt = Served(hash: string) | Passed | Failed(err: Error)

  const NotAHash: string := "got something that isn't a block hash: "

  function ClassifyHashReply(r: Reply<Result<string>>): HashAttempt {
    match r
    case ConnErr(e) => Failed(e)
    case Resp(status, body) =>
      if status >= 404 then Passed
      else match body
        case Err(e) => Failed(e)
        case Ok(data) =>
          var h := TrimSpace(data);
          if |h| > 2 * HashSize then Failed(NotAHash + h[..2 * HashSize]) else Served(h)
  }

  /** The explorer loop of getHash with `err` the error recorded so far. */
  function HashFromExplorers(rs: seq<Reply<Result<string>>>, err: MaybeError): (r: (string, MaybeError))
    ensures |r.0| <= 2 * HashSize
    ensures r.1.Some? ==> r.0 == ""
    ensures r.1.Some? && err.None? ==> exists j :: 0 <= j < |rs| && ClassifyHashReply(rs[j]).Failed?
  {
    if rs == [] then ("", err)
    else
      match ClassifyHashReply(rs[0])
      case Served(h) => (h, None)
      case Passed => HashFromExplorers(rs[1..], err)
      case Failed(e) => HashFromExplorers(rs[1..], Some(e))
  }

  /** getHash: bitcoind's answer when it has one, else the explorer loop. */
  function HashLookup(node: Option<Hash>, rs: seq<Reply<Result<string>>>): (string, MaybeError) {
    if node.Some? then (DisplayHash(node.value), None) else HashFromExplorers(rs, None)
  }

  /** The error the explorer loop carries past one attempt that served nothing. */
  function AfterHashMiss(a: HashAttempt, err: MaybeError): MaybeError {
    if a.Failed? then Some(a.err) else err
  }

  /** The first explorer that serves a hash decides, whatever errors came
      before it: its trimmed body comes back with a nil error. */
  lemma {:induction false} FirstServedHashWins(rs: seq<Reply<Result<string>>>, err: MaybeError, k: nat)
    requires k < |rs| && ClassifyHashReply(rs[k]).Served?
    requires forall j :: 0 <= j < k ==> !ClassifyHashReply(rs[j]).Served?
    ensures HashFromExplorers(rs, err) == (ClassifyHashReply(rs[k]).hash, None)
  {
    if k > 0 {
      HashMissStep(rs, err);
      forall j | 0 <= j < k - 1
        ensures !ClassifyHashReply(rs[1..][j]).Served?
      {
        assert rs[1..][j] == rs[j + 1];
      }
      assert rs[1..][k - 1] == rs[k];
      FirstServedHashWins(rs[1..], AfterHashMiss(ClassifyHashReply(rs[0]), err), k - 1);
    }
  }

  /** When every explorer is passed over, the result is "" with the error
      the loop started with (nil for getHash). */
  lemma {:induction false} AllHashRepliesPassed(rs: seq<Reply<Result<string>>>, err: MaybeError)
    requires forall j :: 0 <= j < |rs| ==> ClassifyHashReply(rs[j]).Passed?
    ensures HashFromExplorers(rs, err) == ("", err)
  {
    if rs != [] {
      AllHashRepliesPassed(rs[1..], err);
    }
  }

  /** When no explorer serves a hash, the result is "" with the error of
      the last attempt that failed; later 404-or-above answers leave it. */
  lemma {:induction false} HashExhaustedKeepsLastFailure(rs: seq<Reply<Result<string>>>, err: MaybeError, k: nat)
    requires k < |rs| && ClassifyHashReply(rs[k]).Failed?
    requires forall j :: 0 <= j < k ==> !ClassifyHashReply(rs[j]).Served?
    requires forall j :: k < j < |rs| ==> ClassifyHashReply(rs[j]).Passed?
    ensures HashFromExplorers(rs, err) == ("", Some(ClassifyHashReply(rs[k]).err))
  {
    var err' := AfterHashMiss(ClassifyHashReply(rs[0]), err);
    HashMissStep(rs, err);
    var tail := rs[1..];
    forall j | k <= j < |tail|
      ensures ClassifyHashReply(tail[j]).Passed?
    {
      assert tail[j] == rs[j + 1];
    }
    if k == 0 {
      AllHashRepliesPassed(tail, err');
    } else {
      forall j | 0 <= j < k - 1
        ensures !ClassifyHashReply(tail[j]).Served?
      {
        assert tail[j] == rs[j + 1];
      }
      assert tail[k - 1] == rs[k];
      HashExhaustedKeepsLastFailure(tail, err', k - 1);
    }
  }

  /** An attempt that serves no hash hands the loop on to the next endpoint. */
  lemma HashMissStep(rs: seq<Reply<Result<string>>>, err: MaybeError)
    requires rs != [] && !ClassifyHashReply(rs[0]).Served?
    ensures HashFromExplorers(rs, err) == HashFromExplorers(rs[1..], AfterHashMiss(ClassifyHashReply(rs[0]), err))
  {
  }

  /** getHash. `node` is bitcoind's GetBlockHash answer (None when bitcoind
      is absent or the call fails); `replies` are the explorers' answers to
      GET {endpoint}/block-height/{height}, in the order tried. */
  method GetHash(node: Option<Hash>, replies: seq<Reply<Result<string>>>) returns (hash: string, err: MaybeError)
    ensures (hash, err) == HashLookup(node, replies)
    ensures node.Some? ==> |hash| == 2 * HashSize && err.None?
  {
    if node.Some? {
      return DisplayHash(node.value), None;
    }
    hash, err := "", None;
    for i := 0 to |replies|
      invariant HashFromExplorers(replies[i..], err) == HashFromExplorers(replies, None)
    {
      assert replies[i..][1..] == replies[i + 1..];
      match replies[i] {
        case ConnErr(e) =>
          err := Some(e);
          continue;
        case Resp(status, body) =>
          if status >= 404 {
            continue;
          }
          match body {
            case Err(e) =>
              err := Some(e);
              continue;
            case Ok(data) =>
              hash := TrimSpace(data);
              if |hash| > 2 * HashSize {
                err := Some(NotAHash + hash[..2 * HashSize]);
                continue;
              }
              return hash, None;
          }
      }
    }
    return "", err;
  }

  // ---------------------------------------------------------------------
  // The three block fetchers

  /** A fetcher's ([]byte, error); the slice is nil when `block` is None. */
  datatype Fetched = Fetched(block: Option<seq<byte>>, err: MaybeError)

  /** (nil, nil): the block is not available at this source yet. */
  const SoftMiss: Fetched := Fetched(None, None)

  /** blockFromBlockchainInfo, given the answer to
      GET https://blockchain.info/rawblock/{hash}?format=hex. The status is
      not looked at; a failed read only leaves the body short. */
  function BlockFromBlockchainInfo(hash: string, reply: Reply<string>): (r: Fetched)
    ensures r.block.Some? ==> r.err.None?
    ensures r.block.Some? <==> reply.Resp? && |reply.body| >= 100 && HexDecode(reply.body).Ok?
    ensures r.block.Some? ==> 100 <= 2 * |r.block.value| == |reply.body|
    ensures r == SoftMiss <==> reply.Resp? && |reply.body| < 100
    ensures r.block.Some? ==> HexDecode(reply.body).Ok? && r.block.value == HexDecode(reply.body).value
    ensures reply.ConnErr? ==> r == Fetched(None, Some(Unreachable(hash, "blockchain.info", reply.err)))
    ensures reply.Resp? && |reply.body| >= 100 && HexDecode(reply.body).Err? ==>
              r == Fetched(None, Some(InvalidHex("blockchain.info", HexDecode(reply.body).err)))
  {
    match reply
    case ConnErr(e) =>
      Fetched(None, Some(Unreachable(hash, "blockchain.info", e)))
    case Resp(_, body) =>
      if |body| < 100 then SoftMiss
      else
        match HexDecode(body)
        case Err(e) => Fetched(None, Some(InvalidHex("blockchain.info", e)))
        case Ok(bytes) => Fetched(Some(bytes), None)
  }

  /** "failed to get raw block {hash} from {site}: {err}". */
  function Unreachable(hash: string, site: string, e: Error): Error {
    "failed to get raw block " + hash + " from " + site + ": " + e
  }

  /** "block from {site} is invalid hex: {err}". */
  function InvalidHex(site: string, e: Error): Error {
    "block from " + site + " is invalid hex: " + e
  }

  /** blockFromBlockchair, given the decoded JSON `data` map (block hash to
      raw_block hex) of the blockchair answer. Only bitcoin and testnet are
      served; anything else is a soft miss before any request. */
  function BlockFromBlockchair(network: string, hash: string, reply: Reply<Result<map<string, string>>>): (r: Fetched)
    ensures network != "bitcoin" && network != "testnet" ==> r == SoftMiss
    ensures r.block.Some? ==> r.err.None? && reply.Resp? && reply.body.Ok? && hash in reply.body.value
    ensures reply.Resp? && reply.body.Ok? && hash !in reply.body.value ==> r == SoftMiss
    ensures reply.Resp? && reply.body.Err? && (network == "bitcoin" || network == "testnet") ==>
              r == Fetched(None, Some(reply.body.err))
    ensures reply.ConnErr? && (network == "bitcoin" || network == "testnet") ==>
              r == Fetched(None, Some(Unreachable(hash, "blockchair.com", reply.err)))
    ensures r.block.Some? ==> HexDecode(reply.body.value[hash]).Ok? && r.block.value == HexDecode(reply.body.value[hash]).value
    ensures (network == "bitcoin" || network == "testnet") && reply.Resp? && reply.body.Ok? && hash in reply.body.value &&
            HexDecode(reply.body.value[hash]).Err? ==>
              r == Fetched(None, Some(InvalidHex("blockchair", HexDecode(reply.body.value[hash]).err)))
    ensures (network == "bitcoin" || network == "testnet") && reply.Resp? && reply.body.Ok? && hash in reply.body.value &&
            HexDecode(reply.body.value[hash]).Ok? ==>
              r == Fetched(Some(HexDecode(reply.body.value[hash]).value), None)
  {
    if network != "bitcoin" && network != "testnet" then SoftMiss
    else
      match reply
      case ConnErr(e) =>
        Fetched(None, Some(Unreachable(hash, "blockchair.com", e)))
      case Resp(_, Err(e)) => Fetched(None, Some(e))
      case Resp(_, Ok(data)) =>
        if hash !in data then SoftMiss
        else
          match HexDecode(data[hash])
          case Err(e) => Fetched(None, Some(InvalidHex("blockchair", e)))
          case Ok(bytes) => Fetched(Some(bytes), None)
  }

  /** The endpoint loop of blockFromEsplora with `err` the last connection
      error so far: the first endpoint that answers decides. */
  function EsploraBlock(rs: seq<Reply<seq<byte>>>, err: MaybeError): (r: Fetched)
    ensures r.block.Some? ==> |r.block.value| >= 200
    ensures r.err.Some? ==> err.Some? || exists j :: 0 <= j < |rs| && rs[j].ConnErr?
  {
    if rs == [] then Fetched(None, err)
    else
      match rs[0]
      case ConnErr(e) => EsploraBlock(rs[1..], Some(e))
      case Resp(_, body) => if |body| < 200 then SoftMiss else Fetched(Some(body), err)
  }

  /** The first endpoint that answers decides: a body under 200 bytes is a
      soft miss, otherwise the body comes back together with the error of
      the unreachable endpoint just before it, if there was one. */
  lemma {:induction false} FirstReachableEsploraDecides(rs: seq<Reply<seq<byte>>>, err: MaybeError, k: nat)
    requires k < |rs| && rs[k].Resp?
    requires forall j :: 0 <= j < k ==> rs[j].ConnErr?
    ensures EsploraBlock(rs, err) ==
              if |rs[k].body| < 200 then SoftMiss
              else Fetched(Some(rs[k].body), if k == 0 then err else Some(rs[k - 1].err))
  {
    if k > 0 {
      FirstReachableEsploraDecides(rs[1..], Some(rs[0].err), k - 1);
    }
  }

  /** With no endpoint reachable the block is nil and the error is the last
      connection error (nil when the list is empty). */
  lemma {:induction false} UnreachableEsplorasKeepLastError(rs: seq<Reply<seq<byte>>>, err: MaybeError)
    requires forall j :: 0 <= j < |rs| ==> rs[j].ConnErr?
    ensures EsploraBlock(rs, err) == Fetched(None, if rs == [] then err else Some(rs[|rs| - 1].err))
  {
    if |rs| > 1 {
      UnreachableEsplorasKeepLastError(rs[1..], Some(rs[0].err));
    }
  }

  /** blockFromEsplora, given the answers to GET {endpoint}/block/{hash}/raw
      in the order tried (a failed read only leaves the body short). */
  method BlockFromEsplora(replies: seq<Reply<seq<byte>>>) returns (r: Fetched)
    ensures r == EsploraBlock(replies, None)
  {
    var err: MaybeError := None;
    var block: Option<seq<byte>> := None;
    for i := 0 to |replies|
      invariant block.None?
      invariant EsploraBlock(replies[i..], err) == EsploraBlock(replies, None)
    {
      assert replies[i..][1..] == replies[i + 1..];
      match replies[i] {
        case ConnErr(e) =>
          err := Some(e);
          continue;
        case Resp(_, body) =>
          block := Some(body);
          if |body| < 200 {
            return SoftMiss;
          }
          break;
      }
    }
    return Fetched(block, err);
  }

  // ---------------------------------------------------------------------
  // getBlock

  datatype Fetcher = BlockchainInfo | Blockchair | Esplora

  /** The fetchers getBlock tries, in order, for each network. */
  function FetchersFor(network: string): (fs: seq<Fetcher>)
    ensures BlockchainInfo in fs <==> network == "bitcoin"
    ensures Blockchair in fs <==> network == "bitcoin" || network == "testnet"
    ensures Esplora in fs <==> network == "bitcoin" || network == "testnet" || network == "signet" || network == "liquid"
    ensures forall i, j :: 0 <= i < j < |fs| ==> fs[i] != fs[j]
  {
    if network == "bitcoin" then [BlockchainInfo, Blockchair, Esplora]
    else if network == "testnet" then [Esplora, Blockchair]
    else if network == "signet" || network == "liquid" then [Esplora]
    else []
  }

  /** The network outcomes each fetcher meets for the resolved hash. */
  datatype BlockSources = BlockSources(
    blockchainInfo: Reply<string>,
    blockchair: Reply<Result<map<string, string>>>,
    esplora: seq<Reply<seq<byte>>>)

  /** What `try(hash)` returns for one fetcher. */
  function Candidate(f: Fetcher, network: string, hash: string, src: BlockSources): Fetched {
    match f
    case BlockchainInfo => BlockFromBlockchainInfo(hash, src.blockchainInfo)
    case Blockchair => BlockFromBlockchair(network, hash, src.blockchair)
    case Esplora => EsploraBlock(src.esplora, None)
  }

  method RunFetcher(f: Fetcher, network: string, hash: string, src: BlockSources) returns (r: Fetched)
    ensures r == Candidate(f, network, hash, src)
  {
    match f {
      case BlockchainInfo => r := BlockFromBlockchainInfo(hash, src.blockchainInfo);
      case Blockchair => r := BlockFromBlockchair(network, hash, src.blockchair);
      case Esplora => r := BlockFromEsplora(src.esplora);
    }
  }

  /** What btcutil.NewBlockFromBytes exposes of a block: the double-SHA-256
      hash of its header and the header's previous-block hash. */
  datatype BlockHeader = BlockHeader(hash: Hash, prevBlock: Hash)

  /** btcutil.NewBlockFromBytes with the hashing behind it. */
  type BlockParser = seq<byte> -> Result<BlockHeader>

  /** A block getBlock may trust on mainnet: it parses, its displayed hash is
      the resolved hash and, when the cache holds height-1, its displayed
      previous-block hash is that entry. */
  predicate VerifiedOnMainnet(b: seq<byte>, height: int, cache: map<int, string>, hash: string, parse: BlockParser) {
    && parse(b).Ok?
    && DisplayHash(parse(b).value.hash) == hash
    && (height - 1 in cache ==> DisplayHash(parse(b).value.prevBlock) == cache[height - 1])
  }

  function HashMismatch(blockhash: string, hash: string): Error {
    "fetched block hash " + blockhash + " doesn't match expected " + hash
  }

  function LinkMismatch(height: int, blockhash: string, prevHash: string, cached: string): Error {
    "block " + FormatInt(height) + " (" + blockhash + "): prev block hash " + FormatInt(height - 1)
    + " (" + prevHash + ") doesn't match what we know from previous block " + FormatInt(height - 1)
    + " (" + cached + ")"
  }

  /** What getBlock makes of one candidate: it is accepted, or skipped with
      `err` set to the given value (nil after a soft miss). */
  datatype Verdict = Accept(block: seq<byte>) | Reject(err: MaybeError)

  function CheckCandidate(network: string, height: int, cache: map<int, string>, hash: string,
                          parse: BlockParser, c: Fetched): (v: Verdict)
    ensures v.Accept? ==> c == Fetched(Some(v.block), None)
    ensures network == "bitcoin" && v.Accept? ==> VerifiedOnMainnet(v.block, height, cache, hash, parse)
    ensures (network == "bitcoin" && c.err.None? && c.block.Some? &&
             VerifiedOnMainnet(c.block.value, height, cache, hash, parse)) ==> v.Accept?
    ensures network != "bitcoin" ==> (v.Accept? <==> c.err.None? && c.block.Some?)
    ensures c.err.Some? || c.block.None? ==> v == Reject(c.err)
    ensures (network == "bitcoin" && c.err.None? && c.block.Some? &&
             !VerifiedOnMainnet(c.block.value, height, cache, hash, parse)) ==> v.Reject? && v.err.Some?
    ensures network == "bitcoin" && c.err.None? && c.block.Some? ==>
              var b := c.block.value;
              && (parse(b).Err? ==> v == Reject(Some(parse(b).err)))
              && (parse(b).Ok? && DisplayHash(parse(b).value.hash) != hash ==>
                    v == Reject(Some(HashMismatch(DisplayHash(parse(b).value.hash), hash))))
              && (parse(b).Ok? && DisplayHash(parse(b).value.hash) == hash &&
                  height - 1 in cache && DisplayHash(parse(b).value.prevBlock) != cache[height - 1] ==>
                    v == Reject(Some(LinkMismatch(height, hash, DisplayHash(parse(b).value.prevBlock), cache[height - 1]))))
  {
    if c.err.Some? || c.block.None? then Reject(c.err)
    else if network != "bitcoin" then Accept(c.block.value)
    else
      match parse(c.block.value)
      case Err(e) => Reject(Some(e))
      case Ok(header) =>
        var blockhash := DisplayHash(header.hash);
        if blockhash != hash then Reject(Some(HashMismatch(blockhash, hash)))
        else
          var prevHash := DisplayHash(header.prevBlock);
          if height - 1 in cache && prevHash != cache[height - 1] then
            Reject(Some(LinkMismatch(height, blockhash, prevHash, cache[height - 1])))
          else Accept(c.block.value)
  }

  /** The verdicts on the candidates of the network's fetchers, in order. */
  function Verdicts(network: string, height: int, cache: map<int, string>, hash: string,
                    parse: BlockParser, src: BlockSources): (vs: seq<Verdict>)
    ensures |vs| == |FetchersFor(network)|
  {
    var fs := FetchersFor(network);
    seq(|fs|, i requires 0 <= i < |fs| => CheckCandidate(network, height, cache, hash, parse, Candidate(fs[i], network, hash, src)))
  }

  /** The fetcher loop of getBlock with `err` the error set so far. */
  function FirstAccepted(vs: seq<Verdict>, err: MaybeError): (r: (string, MaybeError)) {
    if vs == [] then ("", err)
    else
      match vs[0]
      case Accept(b) => (HexEncode(b), None)
      case Reject(e) => FirstAccepted(vs[1..], e)
  }

  /** One turn of the fetcher loop: an accepted candidate ends it, a
      skipped one hands its error on to the next. */
  lemma FirstAcceptedStep(vs: seq<Verdict>, i: nat, err: MaybeError)
    requires i < |vs|
    ensures FirstAccepted(vs[i..], err) ==
              if vs[i].Accept? then (HexEncode(vs[i].block), None) else FirstAccepted(vs[i + 1..], vs[i].err)
  {
    assert vs[i..][1..] == vs[i + 1..];
  }

  /** The first accepted candidate wins: its bytes, hex encoded, with a nil
      error, whatever the candidates before it set. */
  lemma {:induction false} FirstAcceptedWins(vs: seq<Verdict>, err: MaybeError, k: nat)
    requires k < |vs| && vs[k].Accept?
    requires forall j :: 0 <= j < k ==> vs[j].Reject?
    ensures FirstAccepted(vs, err) == (HexEncode(vs[k].block), None)
  {
    if k > 0 {
      FirstAcceptedWins(vs[1..], vs[0].err, k - 1);
    }
  }

  /** With every candidate skipped, the block is empty and the error is the
      one the last candidate set: a trailing soft miss leaves it nil. */
  lemma {:induction false} FetchersExhausted(vs: seq<Verdict>, err: MaybeError)
    requires forall j :: 0 <= j < |vs| ==> vs[j].Reject?
    ensures FirstAccepted(vs, err) == ("", if vs == [] then err else vs[|vs| - 1].err)
  {
    if |vs| > 1 {
      FetchersExhausted(vs[1..], vs[0].err);
    }
  }

  /** A non-empty block with a nil error from the fetcher loop is the hex
      of some accepted candidate. */
  lemma {:induction false} FirstAcceptedIsAccepted(vs: seq<Verdict>, err: MaybeError)
    requires FirstAccepted(vs, err).0 != ""
    ensures FirstAccepted(vs, err).1.None?
    ensures exists k :: 0 <= k < |vs| && vs[k].Accept? && FirstAccepted(vs, err).0 == HexEncode(vs[k].block)
  {
    if vs[0].Reject? {
      FirstAcceptedIsAccepted(vs[1..], vs[0].err);
      var k :| 0 <= k < |vs[1..]| && vs[1..][k].Accept? && FirstAccepted(vs[1..], vs[0].err).0 == HexEncode(vs[1..][k].block);
      assert vs[k + 1] == vs[1..][k];
    }
  }

  /** getBlock as a function of everything it consults. `nodeBlock` is the
      raw block bitcoind returns for the resolved hash, re-encoded (None when
      bitcoind is absent or its fetch or encoding fails). */
  function BlockLookup(network: string, height: int, cache: map<int, string>,
                       nodeHash: Option<Hash>, hashReplies: seq<Reply<Result<string>>>,
                       nodeBlock: Option<seq<byte>>, src: BlockSources, parse: BlockParser): (string, string, MaybeError)
  {
    var (h, e) := HashLookup(nodeHash, hashReplies);
    if e.Some? || h == "" then ("", h, e)
    else if nodeBlock.Some? && HashStringDecodes(h) then (HexEncode(nodeBlock.value), h, None)
    else
      var (b, e') := FirstAccepted(Verdicts(network, height, cache, h, parse, src), None);
      (b, h, e')
  }

  /** How getBlock ends before and without the fetchers: the hash is always
      getHash's; a getHash error or an empty hash returns at once with no
      block; bitcoind's block wins when the hash decodes; with no fetcher for
      the network the block is "" with a nil error. */
  lemma BlockLookupShortcuts(network: string, height: int, cache: map<int, string>,
                             nodeHash: Option<Hash>, hashReplies: seq<Reply<Result<string>>>,
                             nodeBlock: Option<seq<byte>>, src: BlockSources, parse: BlockParser)
    ensures var (block, hash, err) := BlockLookup(network, height, cache, nodeHash, hashReplies, nodeBlock, src, parse);
            var (h, e) := HashLookup(nodeHash, hashReplies);
            && hash == h
            && (e.Some? ==> block == "" && hash == "" && err == e)
            && (e.None? && h == "" ==> block == "" && err.None?)
            && (e.None? && h != "" && nodeBlock.Some? && HashStringDecodes(h) ==>
                  block == HexEncode(nodeBlock.value) && err.None?)
            && (e.None? && FetchersFor(network) == [] && !(nodeBlock.Some? && HashStringDecodes(h)) ==>
                  block == "" && err.None?)
  {
  }

  /** getBlock gets past getHash and bitcoind to its fetcher loop: the hash
      came back non-empty with no error, and bitcoind's block is not used. */
  predicate ReachesFetchers(nodeHash: Option<Hash>, hashReplies: seq<Reply<Result<string>>>, nodeBlock: Option<seq<byte>>) {
    var (h, e) := HashLookup(nodeHash, hashReplies);
    e.None? && h != "" && !(nodeBlock.Some? && HashStringDecodes(h))
  }

  /** Past getHash and bitcoind, getBlock's outcome is the fetcher loop's
      under the resolved hash. */
  lemma FetchersDecide(network: string, height: int, cache: map<int, string>,
                       nodeHash: Option<Hash>, hashReplies: seq<Reply<Result<string>>>,
                       nodeBlock: Option<seq<byte>>, src: BlockSources, parse: BlockParser)
    requires ReachesFetchers(nodeHash, hashReplies, nodeBlock)
    ensures var h := HashLookup(nodeHash, hashReplies).0;
            var r := FirstAccepted(Verdicts(network, height, cache, h, parse, src), None);
            BlockLookup(network, height, cache, nodeHash, hashReplies, nodeBlock, src, parse) == (r.0, h, r.1)
  {
  }

  /** On mainnet blockchain.info is tried first: a block it serves that
      passes the checks is returned, whatever blockchair and esplora hold. */
  lemma MainnetPrefersBlockchainInfo(height: int, cache: map<int, string>,
                                     nodeHash: Option<Hash>, hashReplies: seq<Reply<Result<string>>>,
                                     nodeBlock: Option<seq<byte>>, src: BlockSources, parse: BlockParser)
    requires ReachesFetchers(nodeHash, hashReplies, nodeBlock)
    requires var h := HashLookup(nodeHash, hashReplies).0;
             CheckCandidate("bitcoin", height, cache, h, parse, BlockFromBlockchainInfo(h, src.blockchainInfo)).Accept?
    ensures var h := HashLookup(nodeHash, hashReplies).0;
            BlockLookup("bitcoin", height, cache, nodeHash, hashReplies, nodeBlock, src, parse) ==
              (HexEncode(BlockFromBlockchainInfo(h, src.blockchainInfo).block.value), h, None)
  {
    var h := HashLookup(nodeHash, hashReplies).0;
    FetchersDecide("bitcoin", height, cache, nodeHash, hashReplies, nodeBlock, src, parse);
    FirstAcceptedStep(Verdicts("bitcoin", height, cache, h, parse, src), 0, None);
  }

  /** On mainnet blockchair comes next: when blockchain.info's candidate is
      skipped, a blockchair block that passes the checks is returned,
      whatever esplora holds. */
  lemma MainnetBlockchairBeforeEsplora(height: int, cache: map<int, string>,
                                       nodeHash: Option<Hash>, hashReplies: seq<Reply<Result<string>>>,
                                       nodeBlock: Option<seq<byte>>, src: BlockSources, parse: BlockParser)
    requires ReachesFetchers(nodeHash, hashReplies, nodeBlock)
    requires var h := HashLookup(nodeHash, hashReplies).0;
             && CheckCandidate("bitcoin", height, cache, h, parse, BlockFromBlockchainInfo(h, src.blockchainInfo)).Reject?
             && CheckCandidate("bitcoin", height, cache, h, parse, BlockFromBlockchair("bitcoin", h, src.blockchair)).Accept?
    ensures var h := HashLookup(nodeHash, hashReplies).0;
            BlockLookup("bitcoin", height, cache, nodeHash, hashReplies, nodeBlock, src, parse) ==
              (HexEncode(BlockFromBlockchair("bitcoin", h, src.blockchair).block.value), h, None)
  {
    var h := HashLookup(nodeHash, hashReplies).0;
    var vs := Verdicts("bitcoin", height, cache, h, parse, src);
    FetchersDecide("bitcoin", height, cache, nodeHash, hashReplies, nodeBlock, src, parse);
    FirstAcceptedStep(vs, 0, None);
    FirstAcceptedStep(vs, 1, vs[0].err);
  }

  /** On testnet esplora is tried before blockchair: an esplora block is
      returned whatever blockchair would serve. */
  lemma TestnetPrefersEsplora(height: int, cache: map<int, string>,
                              nodeHash: Option<Hash>, hashReplies: seq<Reply<Result<string>>>,
                              nodeBlock: Option<seq<byte>>, src: BlockSources, parse: BlockParser)
    requires ReachesFetchers(nodeHash, hashReplies, nodeBlock)
    requires EsploraBlock(src.esplora, None).err.None? && EsploraBlock(src.esplora, None).block.Some?
    ensures BlockLookup("testnet", height, cache, nodeHash, hashReplies, nodeBlock, src, parse) ==
              (HexEncode(EsploraBlock(src.esplora, None).block.value), HashLookup(nodeHash, hashReplies).0, None)
  {
    var h := HashLookup(nodeHash, hashReplies).0;
    FetchersDecide("testnet", height, cache, nodeHash, hashReplies, nodeBlock, src, parse);
    FirstAcceptedStep(Verdicts("testnet", height, cache, h, parse, src), 0, None);
  }

  /** On testnet, when esplora yields no block, the outcome is blockchair's:
      its block, or else its error (nil after a soft miss), which replaces
      esplora's. */
  lemma TestnetFallsBackToBlockchair(height: int, cache: map<int, string>,
                                     nodeHash: Option<Hash>, hashReplies: seq<Reply<Result<string>>>,
                                     nodeBlock: Option<seq<byte>>, src: BlockSources, parse: BlockParser)
    requires ReachesFetchers(nodeHash, hashReplies, nodeBlock)
    requires EsploraBlock(src.esplora, None).err.Some? || EsploraBlock(src.esplora, None).block.None?
    ensures var h := HashLookup(nodeHash, hashReplies).0;
            var c := BlockFromBlockchair("testnet", h, src.blockchair);
            BlockLookup("testnet", height, cache, nodeHash, hashReplies, nodeBlock, src, parse) ==
              if c.err.None? && c.block.Some? then (HexEncode(c.block.value), h, None) else ("", h, c.err)
  {
    var h := HashLookup(nodeHash, hashReplies).0;
    var vs := Verdicts("testnet", height, cache, h, parse, src);
    var c := BlockFromBlockchair("testnet", h, src.blockchair);
    FetchersDecide("testnet", height, cache, nodeHash, hashReplies, nodeBlock, src, parse);
    assert vs[0] == Reject(EsploraBlock(src.esplora, None).err);
    assert vs[1] == CheckCandidate("testnet", height, cache, h, parse, c);
    FirstAcceptedStep(vs, 0, None);
    FirstAcceptedStep(vs, 1, vs[0].err);
    assert vs[2..] == [];
  }

  /** On mainnet a block that came from an explorer is returned only if it
      parses, hashes to the resolved hash and links to the cached parent. */
  lemma MainnetBlockIsVerified(height: int, cache: map<int, string>,
                               nodeHash: Option<Hash>, hashReplies: seq<Reply<Result<string>>>,
                               nodeBlock: Option<seq<byte>>, src: BlockSources, parse: BlockParser)
    requires !(nodeBlock.Some? && HashStringDecodes(HashLookup(nodeHash, hashReplies).0))
    requires BlockLookup("bitcoin", height, cache, nodeHash, hashReplies, nodeBlock, src, parse).0 != ""
    ensures var (block, hash, err) := BlockLookup("bitcoin", height, cache, nodeHash, hashReplies, nodeBlock, src, parse);
            err.None? &&
            exists b :: block == HexEncode(b) && VerifiedOnMainnet(b, height, cache, hash, parse)
  {
    var (h, e) := HashLookup(nodeHash, hashReplies);
    var vs := Verdicts("bitcoin", height, cache, h, parse, src);
    FirstAcceptedIsAccepted(vs, None);
    var k :| 0 <= k < |vs| && vs[k].Accept? && FirstAccepted(vs, None).0 == HexEncode(vs[k].block);
    assert VerifiedOnMainnet(vs[k].block, height, cache, h, parse);
  }

  /** The block engine: the network it serves and heightCache, the map from
      height to the displayed hash of a verified block. getBlock reads the
      cache and has no way to write it. */
  class BlockEngine {
    const network: string
    var heightCache: map<int, string>

    constructor (network: string)
      ensures this.network == network && heightCache == map[]
    {
      this.network := network;
      heightCache := map[];
    }

    /** The mainnet checks getBlock runs on a fetched block: it parses, its
        header hashes to `hash`, and its parent matches the height cache. */
    method VerifyBlock(height: int, hash: string, parse: BlockParser, raw: seq<byte>) returns (v: Verdict)
      ensures v == CheckCandidate("bitcoin", height, heightCache, hash, parse, Fetched(Some(raw), None))
    {
      match parse(raw) {
        case Err(e) =>
          return Reject(Some(e));
        case Ok(header) =>
          var computed := ReverseHash(header.hash);
          var blockhash := HexEncode(computed);
          if blockhash != hash {
            return Reject(Some(HashMismatch(blockhash, hash)));
          }
          var parent := ReverseHash(header.prevBlock);
          var prevHash := HexEncode(parent);
          if height - 1 in heightCache && prevHash != heightCache[height - 1] {
            return Reject(Some(LinkMismatch(height, blockhash, prevHash, heightCache[height - 1])));
          }
          return Accept(raw);
      }
    }

    /** getBlock's fetcher loop: each fetcher the network allows is tried in
        turn, and the first candidate that passes the checks is returned hex
        encoded; a skipped candidate sets `err`. */
    method TryFetchers(height: int, hash: string, src: BlockSources, parse: BlockParser)
      returns (block: string, err: MaybeError)
      ensures (block, err) == FirstAccepted(Verdicts(network, height, heightCache, hash, parse, src), None)
    {
      block, err := "", None;
      var fetchers := FetchersFor(network);
      ghost var vs := Verdicts(network, height, heightCache, hash, parse, src);
      for i := 0 to |fetchers|
        invariant FirstAccepted(vs[i..], err) == FirstAccepted(vs, None)
      {
        FirstAcceptedStep(vs, i, err);
        var candidate := RunFetcher(fetchers[i], network, hash, src);
        assert vs[i] == CheckCandidate(network, height, heightCache, hash, parse, candidate);
        if candidate.err.Some? || candidate.block.None? {
          err := candidate.err;
          continue;
        }
        var raw := candidate.block.value;
        if network == "bitcoin" {
          var verdict := VerifyBlock(height, hash, parse, raw);
          if verdict.Reject? {
            err := verdict.err;
            continue;
          }
        }

        return HexEncode(raw), None;
      }
    }

    /** getBlock(height). */
    method GetBlock(height: int, nodeHash: Option<Hash>, hashReplies: seq<Reply<Result<string>>>,
                    nodeBlock: Option<seq<byte>>, src: BlockSources, parse: BlockParser)
      returns (block: string, hash: string, err: MaybeError)
      ensures (block, hash, err) == BlockLookup(network, height, heightCache, nodeHash, hashReplies, nodeBlock, src, parse)
    {
      block := "";
      hash, err := GetHash(nodeHash, hashReplies);
      if err.Some? {
        return;
      }
      if hash == "" {
        return;
      }

      if nodeBlock.Some? && HashStringDecodes(hash) {
        return HexEncode(nodeBlock.value), hash, None;
      }

      block, err := TryFetchers(height, hash, src, parse);
    }
  }
}
