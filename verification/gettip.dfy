/** gettip.go: the chain tip height, from bitcoind's header count or else
    from the first esplora whose GET {endpoint}/blocks/tip/height body
    parses as a base-10 int64. */
module GetTip {
  import opened Common
  import opened Text

  /** An explorer answer whose body was read and parses. */
  predicate TipParsed(r: Reply<Result<string>>) {
    r.Resp? && r.body.Ok? && ParseInt(r.body.value).Ok?
  }

  /** The error an answer that yields no tip records: the connection, read
      or parse error. */
  function TipMiss(r: Reply<Result<string>>): Error
    requires !TipParsed(r)
  {
    match r
    case ConnErr(e) => e
    case Resp(_, Err(e)) => e
    case Resp(_, Ok(data)) => ParseInt(data).err
  }

  /** The explorer loop with `err` the error recorded so far. */
  function TipFromExplorers(rs: seq<Reply<Result<string>>>, err: MaybeError): (r: (int, MaybeError))
    ensures Int64Min <= r.0 <= Int64Max
    ensures r.1.Some? ==> r.0 == 0
  {
    if rs == [] then (0, err)
    else if TipParsed(rs[0]) then (ParseInt(rs[0].body.value).value, None)
    else TipFromExplorers(rs[1..], Some(TipMiss(rs[0])))
  }

  /** getTip as a function of what it consults. `node` is the Headers count
      of bitcoind's GetBlockChainInfo (None when bitcoind is absent or the
      call fails). */
  function TipLookup(node: Option<int>, rs: seq<Reply<Result<string>>>): (int, MaybeError) {
    if node.Some? then (node.value, None) else TipFromExplorers(rs, None)
  }

  /** The first body that parses gives the tip, with a nil error. */
  lemma {:induction false} FirstParsedTipWins(rs: seq<Reply<Result<string>>>, err: MaybeError, k: nat)
    requires k < |rs| && TipParsed(rs[k])
    requires forall j :: 0 <= j < k ==> !TipParsed(rs[j])
    ensures TipFromExplorers(rs, err) == (ParseInt(rs[k].body.value).value, None)
  {
    if k > 0 {
      FirstParsedTipWins(rs[1..], Some(TipMiss(rs[0])), k - 1);
    }
  }

  /** When no body parses the tip is 0 and the error is the last attempt's
      (nil when there are no endpoints). */
  lemma {:induction false} TipExhausted(rs: seq<Reply<Result<string>>>, err: MaybeError)
    requires forall j :: 0 <= j < |rs| ==> !TipParsed(rs[j])
    ensures TipFromExplorers(rs, err) == (0, if rs == [] then err else Some(TipMiss(rs[|rs| - 1])))
  {
    if |rs| > 1 {
      TipExhausted(rs[1..], Some(TipMiss(rs[0])));
    }
  }

  /** The body is not trimmed: a height followed or preceded by white space
      (a trailing newline, say) is skipped like any parse error. */
  lemma SpacedTipIsSkipped(status: int, digits: string, c: char)
    requires IsSpace(c)
    ensures !TipParsed(Resp(status, Ok(digits + [c])))
    ensures !TipParsed(Resp(status, Ok([c] + digits)))
  {
    ParseIntRejectsSpace(digits, c);
  }

  /** getTip. `replies` are the explorers' answers (with the body as read)
      in the order tried. */
  method GetTip(node: Option<int>, replies: seq<Reply<Result<string>>>) returns (tip: int, err: MaybeError)
    ensures (tip, err) == TipLookup(node, replies)
    ensures node.Some? ==> tip == node.value && err.None?
  {
    if node.Some? {
      return node.value, None;
    }

    tip, err := 0, None;
    for i := 0 to |replies|
      invariant TipFromExplorers(replies[i..], err) == TipFromExplorers(replies, None)
    {
      assert replies[i..][1..] == replies[i + 1..];
      match replies[i] {
        case ConnErr(e) =>
          err := Some(e);
          continue;
        case Resp(_, body) =>
          match body {
            case Err(e) =>
              err := Some(e);
              continue;
            case Ok(data) =>
              match ParseInt(data) {
                case Err(e) =>
                  err := Some(e);
                  continue;
                case Ok(v) =>
                  tip := v;
              }
          }
          return tip, None;
      }
    }
    return 0, err;
  }
}
