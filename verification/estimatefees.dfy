/** estimatefees.go: the node-facing fee table. bitcoind is used only when
    all four of its estimates are usable; otherwise the first esplora that
    answers GET {endpoint}/fee-estimates supplies a table of buckets. */
module EstimateFees {
  import opened Common

  /** One entry of EstimatedFees.FeeRates: a confirmation target in blocks
      and its rate in satoshi per kvB. */
  datatype FeeRate = FeeRate(blocks: int, feeRate: int)

  /** EstimatedFees as estimatefees.go declares it; every pointer in a
      returned value is non-nil. */
  datatype EstimatedFees = EstimatedFees(feeRateFloor: int, feeRates: seq<FeeRate>)

  /** One bitcoind EstimateSmartFee call: Err when the call fails, otherwise
      the result's FeeRate in BTC per kvB, which may be nil. */
  type SmartFee = Result<Option<real>>

  /** The four estimates getFeeRates asks bitcoind for: 2 blocks in
      conservative mode, 6, 12 and 100 blocks in economical mode. */
  datatype NodeEstimates = NodeEstimates(in2: SmartFee, in6: SmartFee, in12: SmartFee, in100: SmartFee)

  /** Go's int(x) for a float: truncation toward zero. */
  function Trunc(x: real): (n: int)
    ensures x >= 0.0 ==> n as real <= x < n as real + 1.0
    ensures x < 0.0 ==> n as real - 1.0 < x <= n as real
  {
    if x >= 0.0 then x.Floor else -((-x).Floor)
  }

  predicate Usable(f: SmartFee) { f.Ok? && f.value.Some? }

  /** satPerKbP: BTC per kvB to satoshi per kvB, truncated. */
  function SatPerKb(f: SmartFee): (n: int)
    requires Usable(f)
    ensures f.value.value >= 0.0 ==> n as real <= f.value.value * 100000000.0 < n as real + 1.0
    ensures f.value.value < 0.0 ==> n as real - 1.0 < f.value.value * 100000000.0 <= n as real
  {
    Trunc(f.value.value * 100000000.0)
  }

  predicate AllUsable(n: NodeEstimates) {
    Usable(n.in2) && Usable(n.in6) && Usable(n.in12) && Usable(n.in100)
  }

  /** The table built from bitcoind's four estimates. */
  function FromNode(n: NodeEstimates): EstimatedFees
    requires AllUsable(n)
  {
    EstimatedFees(SatPerKb(n.in100),
      [FeeRate(2, SatPerKb(n.in2)), FeeRate(6, SatPerKb(n.in6)),
       FeeRate(12, SatPerKb(n.in12)), FeeRate(100, SatPerKb(n.in100))])
  }

  /** feerates[bucket] on a Go map: a missing bucket reads as 0. */
  function Bucket(table: map<string, real>, bucket: string): real {
    if bucket in table then table[bucket] else 0.0
  }

  /** int(feerates[bucket] * 1000). */
  function Scaled(table: map<string, real>, bucket: string): int {
    Trunc(Bucket(table, bucket) * 1000.0)
  }

  /** The table built from an esplora fee table: slow is the 504-block
      bucket, normal 10, urgent 5 and very urgent 2. */
  function FromTable(table: map<string, real>): EstimatedFees {
    var slow := Scaled(table, "504");
    var normal := Scaled(table, "10");
    var urgent := Scaled(table, "5");
    var veryUrgent := Scaled(table, "2");
    EstimatedFees(slow,
      [FeeRate(2, veryUrgent), FeeRate(5, urgent), FeeRate(10, normal), FeeRate(504, slow)])
  }

  // ---------------------------------------------------------------------
  // getFeeRatesFromEsplora

  /** The answer to GET {endpoint}/fee-estimates: the status line (w.Status)
      and the JSON body decoded as a map from bucket to BTC per kvB. */
  datatype FeeBody = FeeBody(statusLine: string, table: Result<map<string, real>>)

  /** One endpoint tried and what came back from it. */
  datatype FeeProbe = FeeProbe(endpoint: string, reply: Reply<FeeBody>)

  const NoUsableEsplora: Error := "none of the esploras returned usable responses"

  /** What the first endpoint that answers makes getFeeRatesFromEsplora
      return: a status of 300 or more is an error naming the endpoint,
      otherwise the outcome of the JSON decode. */
  function EsploraAnswer(p: FeeProbe): (r: (map<string, real>, MaybeError))
    requires p.reply.Resp?
    ensures p.reply.status >= 300 ==> r.1 == Some(p.endpoint + " error: " + p.reply.body.statusLine)
    ensures r.1.None? <==> p.reply.status < 300 && p.reply.body.table.Ok?
    ensures r.1.None? ==> r.0 == p.reply.body.table.value
    ensures p.reply.status < 300 && p.reply.body.table.Err? ==> r.1 == Some(p.reply.body.table.err)
  {
    if p.reply.status >= 300 then (map[], Some(p.endpoint + " error: " + p.reply.body.statusLine))
    else
      match p.reply.body.table
      case Ok(m) => (m, None)
      case Err(e) => (map[], Some(e))
  }

  /** getFeeRatesFromEsplora over the endpoints still to try. */
  function FeeTableFromExplorers(ps: seq<FeeProbe>): (r: (map<string, real>, MaybeError)) {
    if ps == [] then (map[], Some(NoUsableEsplora))
    else if ps[0].reply.ConnErr? then FeeTableFromExplorers(ps[1..])
    else EsploraAnswer(ps[0])
  }

  /** The first endpoint that answers decides, and no later endpoint is
      tried, even when its answer is an error. */
  lemma {:induction false} FirstAnsweringEsploraDecides(ps: seq<FeeProbe>, k: nat)
    requires k < |ps| && ps[k].reply.Resp?
    requires forall j :: 0 <= j < k ==> ps[j].reply.ConnErr?
    ensures FeeTableFromExplorers(ps) == EsploraAnswer(ps[k])
  {
    if k > 0 {
      FirstAnsweringEsploraDecides(ps[1..], k - 1);
    }
  }

  /** When no endpoint can be reached, or there is none, the connection
      errors are dropped and a fixed error is returned. */
  lemma {:induction false} NoEsploraAnswers(ps: seq<FeeProbe>)
    requires forall j :: 0 <= j < |ps| ==> ps[j].reply.ConnErr?
    ensures FeeTableFromExplorers(ps) == (map[], Some(NoUsableEsplora))
  {
    if ps != [] {
      NoEsploraAnswers(ps[1..]);
    }
  }

  /** getFeeRatesFromEsplora. */
  method GetFeeRatesFromEsplora(probes: seq<FeeProbe>) returns (feerates: map<string, real>, err: MaybeError)
    ensures (feerates, err) == FeeTableFromExplorers(probes)
  {
    feerates, err := map[], None;
    for i := 0 to |probes|
      invariant feerates == map[]
      invariant FeeTableFromExplorers(probes[i..]) == FeeTableFromExplorers(probes)
    {
      assert probes[i..][1..] == probes[i + 1..];
      var endpoint := probes[i].endpoint;
      match probes[i].reply {
        case ConnErr(e) =>
          err := Some(e);
          continue;
        case Resp(status, body) =>
          if status >= 300 {
            err := Some(endpoint + " error: " + body.statusLine);
            return;
          }
          match body.table {
            case Ok(m) =>
              feerates, err := m, None;
            case Err(e) =>
              err := Some(e);
          }
          return;
      }
    }
    err := Some(NoUsableEsplora);
  }

  // ---------------------------------------------------------------------
  // getFeeRates

  predicate StrictlyIncreasingBlocks(rates: seq<FeeRate>) {
    forall i, j :: 0 <= i < j < |rates| ==> rates[i].blocks < rates[j].blocks
  }

  /** getFeeRates. `node` is None when bitcoind is absent. */
  function FeeRates(node: Option<NodeEstimates>, probes: seq<FeeProbe>): (r: (Option<EstimatedFees>, MaybeError))
    ensures r.0.Some? <==> r.1.None?
    ensures r.0.Some? ==> |r.0.value.feeRates| == 4 && StrictlyIncreasingBlocks(r.0.value.feeRates)
    ensures r.0.Some? ==> r.0.value.feeRateFloor == r.0.value.feeRates[3].feeRate
  {
    if node.Some? && AllUsable(node.value) then (Some(FromNode(node.value)), None)
    else
      var (table, err) := FeeTableFromExplorers(probes);
      if err.Some? then (None, err) else (Some(FromTable(table)), None)
  }

  /** With all four bitcoind estimates usable, the explorers are never
      consulted: the result is the same whatever they would answer, with
      targets 2, 6, 12 and 100, each paired with its own estimate, and the
      100-block rate as floor. */
  lemma NodeEstimatesSuffice(n: NodeEstimates, ps: seq<FeeProbe>, ps': seq<FeeProbe>)
    requires AllUsable(n)
    ensures FeeRates(Some(n), ps) == FeeRates(Some(n), ps')
    ensures var fees := FeeRates(Some(n), ps).0.value;
            && (forall i :: 0 <= i < 4 ==> fees.feeRates[i].blocks == [2, 6, 12, 100][i])
            && fees.feeRates[0].feeRate == SatPerKb(n.in2)
            && fees.feeRates[1].feeRate == SatPerKb(n.in6)
            && fees.feeRates[2].feeRate == SatPerKb(n.in12)
            && fees.feeRates[3].feeRate == SatPerKb(n.in100)
            && fees.feeRateFloor == SatPerKb(n.in100)
  {
  }

  /** A single failed call or nil rate disqualifies bitcoind entirely: the
      result is what the explorers alone give. */
  lemma NodeAllOrNothing(n: NodeEstimates, ps: seq<FeeProbe>)
    requires !AllUsable(n)
    ensures FeeRates(Some(n), ps) == FeeRates(None, ps)
  {
  }

  /** From the explorers the targets are 2, 5, 10 and 504 blocks, read from
      the buckets of the same names and scaled by 1000, and the 504-block
      rate is the floor; a failed lookup yields no table and its error. */
  lemma ExplorerFeeTable(ps: seq<FeeProbe>)
    ensures var (table, err) := FeeTableFromExplorers(ps);
            var (fees, err') := FeeRates(None, ps);
            && (err.Some? ==> fees.None? && err' == err)
            && (err.None? ==>
                  && fees.Some? && err'.None?
                  && (forall i :: 0 <= i < 4 ==> fees.value.feeRates[i].blocks == [2, 5, 10, 504][i])
                  && fees.value.feeRates[0].feeRate == Trunc(Bucket(table, "2") * 1000.0)
                  && fees.value.feeRates[1].feeRate == Trunc(Bucket(table, "5") * 1000.0)
                  && fees.value.feeRates[2].feeRate == Trunc(Bucket(table, "10") * 1000.0)
                  && fees.value.feeRates[3].feeRate == Trunc(Bucket(table, "504") * 1000.0)
                  && fees.value.feeRateFloor == Trunc(Bucket(table, "504") * 1000.0))
  {
  }
}
