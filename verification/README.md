# trustedcoin, modelled in Dafny

trustedcoin is a Core Lightning plugin. It stands in for bitcoind as lightningd's Bitcoin backend. lightningd asks it for:

- block hashes and raw blocks by height;
- the chain tip;
- fee estimates;
- transaction outputs;
- broadcasting a transaction.

Each lookup first asks a local bitcoind when one is configured. Otherwise it falls back to public block explorers: the esplora endpoints, blockchain.info and blockchair.com. On mainnet, a block fetched from an explorer is trusted only if three checks pass:

- it parses;
- its header hashes to the hash resolved for the height;
- its parent hash agrees with the height cache.

The model covers the lookups in getblock.go, gettip.go, estimatefees.go, gettransaction.go and sendtransaction.go. It also covers the endpoint list and four JSON-RPC handlers of main.go.

How the model is built:

- **Network outcomes are inputs.** Every HTTP exchange becomes a `Reply`: a connection error, or a status with a body, given as the body read or the outcome of decoding it. A fallback loop receives the replies of the endpoints it would try, in order. A bitcoind call becomes an `Option` that is None when bitcoind is absent or the call fails.
- **Loops are proved against a recursive function.** Each fallback loop is a `method` with the loop as written in Go: `continue` on a miss, `return` on success, and the named results updated as the code updates them. The method is proved equal to a recursive function whose accumulator is the loop's state. Lemmas about that function state what the loop promises: the first usable answer wins, and on exhaustion the last error is returned.
- **The fetched-block checks.** `GetBlock.CheckCandidate` states them, and `GetBlock.MainnetBlockIsVerified` carries them through the whole of `getBlock`.
- **The height cache is a class field.** It is a field of `GetBlock.BlockEngine`. `getBlock` only reads it, so `GetBlock` carries no `modifies` clause. getBlock's one Go function is three methods here: `GetBlock` holds the early returns, `TryFetchers` the fetcher loop, and `VerifyBlock` the mainnet checks inside that loop.

Files:

- `common.dfy`: nilable values, errors, bytes, hashes and `Reply`.
- `text.dfy`: the Go library behaviour the lookups rely on. This is `strings.TrimSpace`, `encoding/hex` (lowercase base 16, RFC 4648 section 8), what `chainhash.Decode` accepts, `strconv.ParseInt(s, 10, 64)`, and `%d` formatting.
- `getblock.dfy`, `gettip.dfy`, `estimatefees.dfy`, `gettransaction.dfy`, `sendtransaction.dfy`: one module per Go file.
- `main.dfy`: module `Plugin`, for main.go's `esploras` and handlers.

Some behaviours of the code as written, stated by the lemmas below:

- **Short hashes panic off mainnet.** Off mainnet nothing checks the hash an explorer serves. A served hash of fewer than 26 characters, with a block found for it, makes the getrawblockbyheight handler's `hash[:26]` panic (`Plugin.ShortHashPanicsOffMainnet`).
- **Earlier connection errors are kept (blockFromEsplora).** It returns the block together with the connection error of the endpoint tried just before it. getBlock then skips that block as a failed fetch (`GetBlock.FirstReachableEsploraDecides`).
- **The tip body is not trimmed.** A height followed by a newline does not parse, and that endpoint is skipped (`GetTip.SpacedTipIsSkipped`).
- **No txid check.** getTransaction returns `tx` as the first successful decode leaves it. It does not compare the txid (`GetTransaction.FirstDecodedTxWins`). After failed decodes it returns what the last failed decode left behind (`GetTransaction.ExhaustedTxIsLastLeftover`).
- **Connection errors are dropped (getFeeRatesFromEsplora).** The first endpoint that answers at all decides. When none answers, the connection errors are replaced by a fixed message (`EstimateFees.NoEsploraAnswers`).
- **The height cache is never written.** `heightCache` is read at getblock.go:80 and written nowhere in these files. The parent-hash check therefore never rejects a block in a running process. The model keeps the check, over whatever the cache holds.
- **main.go and the other files are from different revisions.**
  - main.go's `esploras()` takes no argument. The lookups call `esploras(network)`.
  - main.go's estimatefees handler calls `getFeeRatesFromEsplora` directly. Its result has eight named fields, where estimatefees.go's `EstimatedFees` has two.
  - Each module is modelled as its own file is written.

## Model

| member | source | states |
|---|---|---|
| Text.TrimSpace | getblock.go:123 | The result is the input with its leading white space and its trailing white space cut off: it starts right after the leading run, everything after it is white space, and a non-empty result neither starts nor ends with white space |
| Text.HexEncode | getblock.go:89 | The encoding is twice as long as the bytes and uses only lowercase hex digits |
| Text.HexDecode | getblock.go:157-160 | Decoding succeeds exactly for even-length hex text in either letter case, yielding half as many bytes, byte i being 16 times the value of digit 2i plus the value of digit 2i+1. Otherwise the error is "odd length" exactly when every character is a hex digit, else "invalid byte" |
| Text.HexRoundTrip | getblock.go:89 | Decoding the hex encoding of any bytes gives them back |
| Text.HexEncodeInjective | getblock.go:72-73 | Equal hex strings come from equal bytes, so comparing displayed hashes compares the hashes |
| Text.ParseInt | gettip.go:32 | A parse succeeds exactly for an optionally signed, non-empty run of decimal digits whose value fits in int64 (down to -2^63 after a minus sign). The value's magnitude is the digits' value, and it is negative only after a minus sign |
| Text.ParseIntAcceptsPadded | gettip.go:32 | Every text with no sign, "+" or "-", any number of leading zeros and the digits of an int64 magnitude parses to that signed value |
| Text.ParseIntRejectsSpace | gettip.go:26-32 | A number with white space before or after it does not parse |
| Text.HashStringDecodes | getblock.go:32 | chainhash.Decode accepts a string exactly when it has at most 64 characters, all hex digits. The string, padded to even length, then decodes to at most 32 bytes |
| Text.FormatInt | getblock.go:83 | `%d` text starts with '-' exactly for a negative number, and is otherwise all digits. The digits after the sign have the number's magnitude as their value and have no leading zero |
| Text.ParseFormatRoundTrip | getblock.go:83 | The `%d` text of any int64 parses back to the same value |
| GetBlock.DisplayHash | getblock.go:100 | A hash is displayed as 64 characters |
| GetBlock.DisplayHashDecodes | getblock.go:136-142 | The displayed hash hex-decodes to the byte-reversed hash, and chainhash.Decode accepts it |
| GetBlock.ReverseInvolution | getblock.go:136-142 | Reversing a hash twice gives it back |
| GetBlock.ReverseHash | getblock.go:136-142 | reverseHash returns a 32-byte slice whose byte 31-i is byte i of the hash, that is the reversal |
| GetBlock.HashFromExplorers | getblock.go:105-133 | The hash returned is at most 64 characters long. It is empty whenever there is an error, and an error always comes from some failed attempt |
| GetBlock.FirstServedHashWins | getblock.go:105-131 | The first explorer that serves a trimmed body of at most 64 characters decides, with a nil error, whatever failed before it |
| GetBlock.HashMissStep | getblock.go:105-128 | An attempt that serves no hash passes the loop on to the next endpoint, recording its error if it failed |
| GetBlock.AllHashRepliesPassed | getblock.go:113-115 | Answers with status 404 or above are skipped without touching the error. If all are such, the result is "" with the error unchanged |
| GetBlock.HashExhaustedKeepsLastFailure | getblock.go:105-133 | With no hash served, the result is "" with the error of the last failed attempt (connection, read, or a body over 64 characters) |
| GetBlock.GetHash | getblock.go:96-134 | getHash equals the specification: bitcoind's displayed hash when it answers (64 characters, nil error), else the explorer loop |
| GetBlock.BlockFromBlockchainInfo | getblock.go:144-163 | A body under 100 bytes is a soft miss (nil, nil). A longer body gives a block exactly when it is valid hex, and the block is the decoded bytes. A connection error gives "failed to get raw block {hash} from blockchain.info: {err}". Invalid hex gives "block from blockchain.info is invalid hex: {err}" |
| GetBlock.BlockFromBlockchair | getblock.go:165-203 | Networks other than bitcoin and testnet give a soft miss. On those two, a connection error gives "failed to get raw block {hash} from blockchair.com: {err}". Data holding the hash with valid hex gives exactly the decoded bytes with a nil error, and a block comes from nowhere else. A missing hash is a soft miss. A JSON error is passed through. Invalid hex gives "block from blockchair is invalid hex: {err}" |
| GetBlock.EsploraBlock | getblock.go:205-228 | A returned block has at least 200 bytes. An error comes only from a connection failure |
| GetBlock.FirstReachableEsploraDecides | getblock.go:209-227 | The first endpoint that answers decides: under 200 bytes is a soft miss, otherwise its body together with the preceding endpoint's connection error |
| GetBlock.UnreachableEsplorasKeepLastError | getblock.go:209-227 | With every endpoint unreachable the block is nil and the error is the last connection error |
| GetBlock.BlockFromEsplora | getblock.go:205-228 | blockFromEsplora's loop equals the specification EsploraBlock |
| GetBlock.FetchersFor | getblock.go:43-54 | blockchain.info is used exactly on bitcoin. blockchair is used exactly on bitcoin and testnet. esplora is used exactly on bitcoin, testnet, signet and liquid. No fetcher is listed twice |
| GetBlock.RunFetcher | getblock.go:57 | Running a fetcher gives its candidate (block, error) |
| GetBlock.CheckCandidate | getblock.go:58-90 | A candidate is accepted only when it holds a block with a nil error. On bitcoin it is accepted exactly when the block parses, hashes to the resolved hash and links to the cached parent. Elsewhere it is accepted without checks. A fetch error or missing block is skipped with the fetch's error. A failed mainnet check always sets a non-nil error: the parse error, "fetched block hash … doesn't match expected …", or the prev-block-hash mismatch message |
| GetBlock.Verdicts | getblock.go:56-57 | There is one verdict per fetcher of the network |
| GetBlock.FirstAcceptedStep | getblock.go:56-90 | One pass of the fetcher loop: an accepted candidate returns its hex with a nil error, and a skipped one passes its error on to the rest |
| GetBlock.FirstAcceptedWins | getblock.go:56-90 | The first accepted candidate is returned hex encoded with a nil error, whatever the skipped ones set |
| GetBlock.FetchersExhausted | getblock.go:56-93 | With every candidate skipped, the block is "" and the error is the last candidate's (nil after a soft miss) |
| GetBlock.FirstAcceptedIsAccepted | getblock.go:89-90 | A non-empty block from the fetcher loop is the hex of an accepted candidate, with a nil error |
| GetBlock.MainnetBlockIsVerified | getblock.go:63-90 | On mainnet an explorer block is returned only if it parses, hashes to the returned hash and matches the cached parent |
| GetBlock.BlockEngine.constructor | getblock.go:18 | The height cache starts empty |
| GetBlock.BlockEngine.VerifyBlock | getblock.go:63-87 | The mainnet checks, run over the engine's height cache, give exactly CheckCandidate's verdict on the fetched block |
| GetBlock.BlockEngine.TryFetchers | getblock.go:56-93 | The fetcher loop, run over the engine's height cache, equals FirstAccepted over the network's verdicts |
| GetBlock.FetchersDecide | getblock.go:20-93 | Once getHash gave a hash with no error and bitcoind's block was not used, getBlock's outcome is the fetcher loop's under that hash |
| GetBlock.BlockEngine.GetBlock | getblock.go:20-94 | getBlock, run over the engine's height cache, equals the specification BlockLookup |
| GetBlock.MainnetPrefersBlockchainInfo | getblock.go:43-93 | On bitcoin, a blockchain.info block that passes the checks is returned, whatever blockchair and esplora hold |
| GetBlock.MainnetBlockchairBeforeEsplora | getblock.go:43-93 | On bitcoin, when blockchain.info's candidate is skipped, a blockchair block that passes the checks is returned, whatever esplora holds |
| GetBlock.TestnetPrefersEsplora | getblock.go:43-93 | On testnet, a block from esplora is returned, whatever blockchair holds |
| GetBlock.TestnetFallsBackToBlockchair | getblock.go:43-93 | On testnet, when esplora yields no block, the outcome is blockchair's block, or else its error, replacing esplora's |
| GetBlock.BlockLookupShortcuts | getblock.go:20-54 | The hash returned is getHash's. A getHash error or an empty hash returns at once with no block. bitcoind's block wins when the hash decodes. With no fetcher for the network the block is "" with a nil error |
| EstimateFees.Trunc | estimatefees.go:32 | int(x) truncates toward zero |
| EstimateFees.SatPerKb | estimatefees.go:31-34 | The BTC/kvB rate times 1e8 is truncated toward zero: the result is within one below (or, for a negative rate, above) the exact product |
| EstimateFees.EsploraAnswer | estimatefees.go:89-95 | A status of 300 or more is the error "{endpoint} error: {status}". Otherwise the table comes back exactly when the JSON decodes, and a decode error is returned as the error |
| EstimateFees.FirstAnsweringEsploraDecides | estimatefees.go:81-96 | The first endpoint that answers decides, even with an error; later endpoints are not tried |
| EstimateFees.NoEsploraAnswers | estimatefees.go:81-99 | With no endpoint reachable, the result is an empty table and "none of the esploras returned usable responses" |
| EstimateFees.GetFeeRatesFromEsplora | estimatefees.go:80-100 | getFeeRatesFromEsplora equals the specification FeeTableFromExplorers |
| EstimateFees.FeeRates | estimatefees.go:21-78 | A table is returned exactly when no error is. It has four entries with strictly increasing targets, and the floor is the last entry's rate |
| EstimateFees.NodeEstimatesSuffice | estimatefees.go:23-48 | With all four bitcoind estimates usable, explorers are ignored. The targets are 2, 6, 12 and 100 blocks, each with its own estimate in sat/kvB, and the 100-block rate is the floor |
| EstimateFees.NodeAllOrNothing | estimatefees.go:28-29 | One failed call or nil rate makes the result exactly the explorer-only result |
| EstimateFees.ExplorerFeeTable | estimatefees.go:53-77 | From explorers the targets are 2, 5, 10 and 504, each read from its bucket (a missing bucket reads as 0) times 1000 and truncated. The 504 rate is the floor. An error gives no table |
| SendTransaction.FailureOf | sendtransaction.go:35-46 | A refused attempt is recorded as a failure |
| SendTransaction.SendToExplorers | sendtransaction.go:33-51 | A success from the endpoint loop is {true, ""} or the response it started with |
| SendTransaction.SendLookup | sendtransaction.go:17-51 | A successful broadcast never carries an error message |
| SendTransaction.FirstAcceptingEndpointWins | sendtransaction.go:33-49 | The first endpoint answering below 300 makes the result {true, ""}, whatever was refused before it |
| SendTransaction.AllEndpointsRefused | sendtransaction.go:33-51 | When every endpoint refuses, the result is the last refusal: the connection error text, or the body sent with a status of 300 or more |
| SendTransaction.SendRawTransaction | sendtransaction.go:17-52 | sendRawTransaction equals the specification. A success has an empty message. bitcoind accepting the decoded transaction gives {true, ""} |
| GetTransaction.TxFromExplorers | gettransaction.go:50-67 | A nil error with a changed result means some explorer's decode succeeded, leaving the returned transaction in `tx` |
| GetTransaction.FirstDecodedTxWins | gettransaction.go:50-65 | The first explorer whose JSON decodes decides, with a nil error. Its txid is not compared with the one requested |
| GetTransaction.TxExplorersExhaustedError | gettransaction.go:50-67 | With no transaction decoded, the error is the last connection or decode error |
| GetTransaction.UnreachableExplorersLeaveTx | gettransaction.go:26-67 | If no explorer got as far as decoding, the returned transaction is the zero value |
| GetTransaction.ExhaustedTxIsLastLeftover | gettransaction.go:58-67 | After failed decodes, the returned transaction is what the last failed decode left in it |
| GetTransaction.NodeScriptsRoundTrip | gettransaction.go:32-39 | From bitcoind, every scriptPubKey decodes back to the output's locking script |
| GetTransaction.GetTransaction | gettransaction.go:26-68 | getTransaction equals the specification. From bitcoind the txid is the requested one and output i has the value and hex script of output i. With no explorer and no bitcoind it is the zero value with a nil error |
| GetTip.TipFromExplorers | gettip.go:18-41 | The tip is an int64, and it is 0 whenever there is an error |
| GetTip.FirstParsedTipWins | gettip.go:18-39 | The first body that parses gives the tip with a nil error |
| GetTip.TipExhausted | gettip.go:18-41 | With no body parsing, the tip is 0 and the error is the last connection, read or parse error |
| GetTip.SpacedTipIsSkipped | gettip.go:26-32 | A height with white space around it does not parse, so that endpoint is skipped |
| GetTip.GetTip | gettip.go:9-42 | getTip equals the specification. bitcoind's header count is returned when it answers |
| Plugin.Esploras | main.go:20-28 | The list is as long as the configured one, and every entry is the one endpoint chosen by the draw modulo the length |
| Plugin.RawBlockByHeight | main.go:41-63 | The handler panics exactly when getBlock returns a block with a nil error and a hash shorter than 26 characters. Otherwise the code is 0 with a nil error, and blockhash and block are both null exactly when getBlock failed or found no block, else they are the hash and the block |
| Plugin.MainnetRawBlockIsVerified | main.go:49-63 | On mainnet an explorer block never makes the handler panic, and what it returns parses, hashes to the returned blockhash and links to the cached parent |
| Plugin.ShortHashPanicsOffMainnet | main.go:49-58 | On testnet, signet and liquid, an explorer that serves the hash "abc" and an esplora body of 200 bytes or more make getBlock return that block under "abc" with a nil error, and the handler panics |
| Plugin.ChainInfoAnswer | main.go:70-83 | A tip error gives code 20 with "failed to get tip: " and the error. Otherwise the chain is "main", not in IBD, with the tip as both header and block count |
| Plugin.ChainInfoFromNode | main.go:71-83 | With bitcoind answering, both counts are its header count |
| Plugin.ChainInfoFromExplorers | main.go:71-74 | Without bitcoind, when at least one explorer was tried and no body parses, the answer is code 20 carrying the last attempt's error |
| Plugin.ChainInfoFromFirstParsedTip | main.go:71-83 | Without bitcoind, the first explorer body that parses gives that height as both counts with code 0, and no explorers at all give both counts 0 |
| Plugin.HalfTowardZero | main.go:116 | Go's x / 2 truncates toward zero |
| Plugin.EstimateFeesAnswer | main.go:90-119 | A lookup failure gives all-null fields with code 0. Otherwise opening and delayed-to-us are slow, mutual close and HTLC resolution normal, unilateral close very urgent and penalty urgent. The minimum is slow/2 and the maximum very urgent × 100 |
| Plugin.EstimateFeesAgreesWithFeeRates | main.go:92-119 | The handler and getFeeRates without bitcoind agree: opening is the floor, and unilateral close, penalty, mutual close and delayed-to-us are the 2-, 5-, 10- and 504-block rates |
| Plugin.UtxOutAnswer | main.go:140-155 | A lookup error gives null amount and script with code 0. Otherwise the handler panics exactly when vout is out of range, and else the amount and script are output vout's value and script |
| Plugin.UtxOutFromNode | main.go:144-154 | With bitcoind serving the transaction, the amount is the output's value and the script decodes to its locking script |

## Left out

- **HTTP, JSON and bitcoind RPC.** They are inputs. Each HTTP exchange and decode is a `Reply` outcome, and each bitcoind call is an `Option`. URL construction, `defer Body.Close()` and logging (`p.Logf`) are not modelled.
- **What bitcoind's calls return.** `chainhash.Decode` is modelled only by what it accepts: at most 64 hex digits. A failed `BtcEncode` of bitcoind's block is folded into bitcoind having no block.
- **Block parsing and hashing.** `btcutil.NewBlockFromBytes` and double SHA-256 are a function parameter (`BlockParser`). `wire.MsgTx.BtcDecode` is a predicate parameter.
- **Randomness.** The `rand.Intn(10)` draw in `esploras` is a parameter between 0 and 9. The lookups take the replies of whatever endpoints they would try, so which endpoints `esploras` yields does not matter to them.
- **The sendrawtransaction handler (main.go:121-136).** It calls `sendRawTransaction` with a buffer and expects an error back. sendtransaction.go's `sendRawTransaction` takes a string and returns one value. The two do not fit together, so the handler is not part of this model.
- **sendRawTransaction's shared buffer.** It POSTs one `bytes.Buffer` to every endpoint, so an endpoint after the first may receive an already-drained body. The model does not track request bodies.
- **Floating point.** Fee rates are exact reals. IEEE-754 rounding of the products by 1e8 and 1000, and out-of-range float-to-int conversions, are not modelled.
- **Integer widths.** Overflow of `very_urgent * 100` and the int32 `Headers` widening are not modelled. Integers are unbounded.
- **Partial fee tables.** A fee-estimate JSON decode that fails part way is not modelled. On error the model returns an empty table; no caller reads the table in that case.
- **Characters are bytes.** There is no UTF-8 decoding of text.
- Text.TrimSpace: trims only the six ASCII white-space characters. Go also trims U+0085, U+00A0 and other Unicode white space.
- Text.HexDecode: the invalid-byte error is the fixed prefix "encoding/hex: invalid byte". Go appends the offending character.
- Text.ParseInt: a syntax error is always reported before a range error. Go reports whichever it meets first while scanning. The input is quoted verbatim, without `strconv.Quote` escaping.
- **What a panic does.** A handler panic is the outcome `Panics`, carrying Go's runtime error text. What the panic then does to the plugin process and to lightningd is not modelled.
- GetTransaction.TxFromExplorers: each endpoint's decode outcome is an input, taken as `tx` stands after that decode. Go decodes into the named result, so fields the JSON omits keep what an earlier failed decode left there, and a `null` body leaves `tx` unchanged. The model does not tie one endpoint's outcome to the `tx` before it.
