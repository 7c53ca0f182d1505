# stellar-dark-pool in Dafny

A model of the sequential core of the stellar-dark-pool repository. It has five parts:

- the order book of the matching engine, a continuous double auction with price-time priority;
- the engine that admits orders and keeps a local copy of the vault balances;
- the canonical order message that clients sign (SEP-0053 prefix), with the address and trade-id conversions that build a settlement call;
- the Soroban settlement contract, a vault of i128 balances with deposit, withdraw, trade settlement, fee routing, settlement records and per-user trade history;
- the deterministic JSON form and the compose-hash checks of the two attestation scripts.

Stateful parts are classes whose methods update fields: `Book.OrderBook`, `Engine.MatchingEngine` and `Settlement.SettlementContract`. Each method is proved against a specification function or predicate. Pure parts are functions with lemmas about them.

Files, one module each:

| file | module | models |
|---|---|---|
| wrappers.dfy | Wrappers | Option, Result |
| numbers.dfy | Numbers | Python `Decimal` with its exponent, `str(Decimal)`, `str(int)`, `int()` truncation, bytes, the i128 range |
| types.dfy | Types | the records and enumerations of matching-engine/src/types.py |
| text.dfy | Text | string order, `join`/`split`, `rstrip`, `replace`, UTF-8, `hex`/`fromhex` |
| json.dfy | Json | parsed JSON values, `sort_object`, `get_compose_hash` |
| orderbook.dfy | Book | matching-engine/src/orderbook.py |
| engine.dfy | Engine | matching-engine/src/engine.py |
| stellar.dfy | Stellar | the non-network parts of matching-engine/src/stellar.py |
| signer.dfy | Signer | scripts/sign_order.py |
| attestation.dfy | Attestation | the decisions of scripts/compute_compose_hash.py and scripts/verify_remote_attestation.py |
| settlement.dfy | Settlement | contracts/settlement/src/lib.rs and storage.rs |

Modelling choices:

- **Order book.**
  - Prices and quantities are exact `real`s: Python's `Decimal` is exact.
  - A side is a `map<real, seq<string>>` of FIFO queues of order ids.
  - `orders` maps ids to `Order` values.
  - `Book.OrderBook.Valid` is the book invariant:
    - no level is empty;
    - no id repeats in a queue;
    - every queued order is in `orders`, on that side, priced at its level, with quantity left;
    - `0 <= filled <= quantity`.
- **Foreign calls become parameters.** Trade ids and trade times are functions of the trade's index (`tradeId`, `clock`). Parameters also stand for SHA-256, base64, Ed25519, strkey, contract-id derivation, `json.loads`/`json.dumps` and network fetches.
- **Panics.** A Soroban panic aborts the invocation and the host discards its storage writes. The model returns `Panicked` with the storage as it was. i128 overflow panics, as with overflow checks on.

## Model

| member | source | states |
|---|---|---|
| Numbers.Trunc | matching-engine/src/engine.py:90 | `int()` of an exact value truncates toward zero: for x >= 0 the result r satisfies r <= x < r + 1; for x < 0 it satisfies r - 1 < x <= r |
| Numbers.TrailingZeroKeepsText | matching-engine/src/stellar.py:172-174 | Decimal("1.50") and Decimal("1.5") are the same number 1.5 but print as "1.50" and "1.5" |
| Types.NewOrder | matching-engine/src/types.py:34-47 | an Order built from its required fields has filled 0, status Pending, no price, no expiration and an empty signature, so its remaining quantity is its quantity |
| Text.RStrip | scripts/verify_remote_attestation.py:173 | `rstrip(c)` returns a prefix of s, drops only trailing c's, and the result does not end in c |
| Text.RStripExtra | scripts/verify_remote_attestation.py:173 | one more trailing c does not change the stripped text |
| Text.Remove | matching-engine/src/stellar.py:395 | `replace(c, '')` leaves no c and never lengthens the text |
| Text.RemoveAppend | matching-engine/src/stellar.py:395 | removing a character distributes over concatenation |
| Text.FromHexHex | matching-engine/src/stellar.py:396 | `bytes.fromhex` of the hex text of some bytes gives those bytes back |
| Text.Utf8Append | scripts/sign_order.py:52 | the UTF-8 encoding of a concatenation is the concatenation of the encodings |
| Text.SplitJoin | matching-engine/src/stellar.py:136 | joining the pieces of `split(c)` with c gives the string back |
| Text.SplitPieces | matching-engine/src/stellar.py:136-137 | `split(c)` gives one more piece than there are c's, and no piece contains c |
| Text.Hex | matching-engine/src/stellar.py:396 | the hex text of n bytes has 2n characters, all hex digits |
| Book.RefreshStatus | matching-engine/src/orderbook.py:143-147 | only the status changes: Filled once filled >= quantity, PartiallyFilled while 0 < filled < quantity, otherwise unchanged |
| Book.Without | matching-engine/src/orderbook.py:165 | the filtered queue holds exactly the ids of the queue other than the cancelled one |
| Book.WithoutKeepsOrder | matching-engine/src/orderbook.py:165 | filtering keeps time priority: a queue without the id is returned as it is, and in a queue without repeats the id's one entry is cut out with the entries before and after it kept in order |
| Book.BestPrice | matching-engine/src/orderbook.py:35-73 | the level picked exists and no other level is better for the incoming side: lowest ask for a Buy, highest bid for a Sell |
| Book.TopLevels | matching-engine/src/orderbook.py:170-184 | lists min(20, number of levels) distinct levels, best first, each with the total remaining quantity of its queue; every level left out is no better than all listed ones |
| Book.EnqueueValid | matching-engine/src/orderbook.py:129-141 | appending a priced order with quantity left at the tail of its own level keeps the side sound |
| Book.RemoveValid | matching-engine/src/orderbook.py:160-167 | removing an id from a level, and the level when it empties, keeps the side sound |
| Book.CancelledLeavesBook | matching-engine/src/orderbook.py:160-167 | once removed from its own level, a cancelled order is queued at no price of its side |
| Book.StoreIncoming | matching-engine/src/orderbook.py:103-109 | storing the matched order with its refreshed status, and resting it under the GTC rule, keeps both sides and the table sound |
| Book.MatchExit | matching-engine/src/orderbook.py:28-101 | when the loop stops, the incoming side's own orders are untouched, and an order with quantity left has no level it could still trade with |
| Book.StepDequeued | matching-engine/src/orderbook.py:56-64 | a pass over one level that dequeues only orders it made full keeps every order gone from the opposing side full; orders at other levels are not touched |
| Book.LeftTraded | matching-engine/src/orderbook.py:56-64 | an order no longer at the opposing level it was queued at traded in this match and is full |
| Book.OrderBook.constructor | matching-engine/src/orderbook.py:17-22 | a new book for a pair is empty and sound |
| Book.OrderBook.GetOrder | matching-engine/src/orderbook.py:193-194 | returns the stored order exactly when the id is known, None otherwise |
| Book.OrderBook.FillAtLevel | matching-engine/src/orderbook.py:41-61 | trades from the head of the level in queue order, each for min(incoming remaining, resting remaining) at the level price. Each resting order's filled grows by exactly that amount. It is dequeued exactly when that fill makes it full: the dequeued orders are full, and the one left at the head after a trade still has quantity. The loop stops early only when the incoming order is full |
| Book.OrderBook.MatchAgainst | matching-engine/src/orderbook.py:28-101 | see the MatchResult bullets below the table |
| Book.OrderBook.MatchOrder | matching-engine/src/orderbook.py:24-111 | the book stays sound; the trades satisfy MatchResult; the order is stored, filled by the traded total, with its refreshed status; its own side gains it at the tail of its level only when it is GTC with quantity left and a price, so IOC, FOK and market orders never rest |
| Book.OrderBook.AddOrderToBook | matching-engine/src/orderbook.py:129-141 | a priced order is appended at the tail of its price level on its own side, the level created when absent; a market order changes nothing |
| Book.OrderBook.CancelOrder | matching-engine/src/orderbook.py:152-167 | unknown id: no change; another user: "Unauthorized" and no change; the owner: status Cancelled whatever it was, and, when the price is truthy, the id is removed from its level, emptied levels disappear and the id is left in no level of either side; the book stays sound |
| Book.OrderBook.GetSnapshot | matching-engine/src/orderbook.py:169-191 | bids highest first and asks lowest first, at most 20 each, each level with its remaining total (the TopLevels property) |
| Engine.CacheKeyInjective | matching-engine/src/engine.py:80 | for users without ':' the key `user:asset` determines user and asset |
| Engine.CheckPair | matching-engine/src/engine.py:44-53 | an order pair is admitted iff its contract pair is the configured pair or its reverse; Reversed only for the reverse |
| Engine.RequiredMinor | matching-engine/src/engine.py:68-90 | the required amount in 10^7 units truncated toward zero; 0 for a Buy without a truthy price |
| Engine.Credit | matching-engine/src/engine.py:120-123 | the delta is added to the key when cached; no key is created or removed |
| Engine.Cached | matching-engine/src/engine.py:83-87 | a missed lookup stores what was fetched, when the fetch succeeded; cached values are kept |
| Engine.ApplyTradesKeys | matching-engine/src/engine.py:62-63 | trades never add or remove a cached key |
| Engine.ApplyTradesOthers | matching-engine/src/engine.py:100-111 | a key of no trade party keeps its balance |
| Engine.TradeConservesAsset | matching-engine/src/engine.py:100-123 | when buyer's and seller's keys for an asset are cached, their combined balance is unchanged by a trade |
| Engine.MatchingEngine.constructor | matching-engine/src/engine.py:15-21 | no book, no assets, an empty cache, not initialised |
| Engine.MatchingEngine.Initialize | matching-engine/src/engine.py:23-38 | does nothing once initialised; otherwise sets base when asset A is read, and initialises with a fresh empty book iff both assets are read; the cache is untouched |
| Engine.MatchingEngine.UpdateLocalBalance | matching-engine/src/engine.py:120-123 | the cache becomes Credit of the old cache |
| Engine.MatchingEngine.ProcessTrade | matching-engine/src/engine.py:100-111 | buyer +base and -quote, seller -base and +quote, amounts int(q·10^7) and int(q·p·10^7), cached keys only |
| Engine.MatchingEngine.ProcessTrades | matching-engine/src/engine.py:62-63 | the cache after the loop is the trades applied in order |
| Engine.MatchingEngine.CheckBalance | matching-engine/src/engine.py:67-98 | the cached or fetched balance is compared with RequiredMinor; the fetched value is cached even when the check fails; a ValueError from the lookup is raised, any other failure lets the order through |
| Engine.MatchingEngine.SubmitOrder | matching-engine/src/engine.py:40-65 | see the SubmitOrder bullets below the table |
| Engine.MatchingEngine.CancelOrder | matching-engine/src/engine.py:125-127 | initialises if needed; NotInitialized when still not; Unauthorized iff the order exists and belongs to someone else, with nothing changed; an unknown id changes nothing; the owner's order becomes Cancelled, is removed from its own side's level when its price is truthy and is then queued on neither side, the opposing side unchanged; the cache is untouched |
| Engine.MatchingEngine.GetOrder | matching-engine/src/engine.py:129-131 | initialises if needed and is initialised iff it was or both assets are read; NotInitialized when still not; otherwise the stored order iff the id is known; orders, levels and cache unchanged |
| Engine.MatchingEngine.GetSnapshot | matching-engine/src/engine.py:133-135 | initialises if needed and is initialised iff it was or both assets are read; NotInitialized when still not; otherwise the book's snapshot (the TopLevels property) for the configured pair, stamped `now`; orders, levels and cache unchanged |
| Stellar.CreateOrderMessage | matching-engine/src/stellar.py:163-181 | the list built by appends and joined by `|` is OrderMessage: the fixed field order, with the optional price and expiration segments |
| Stellar.OptionalSegments | matching-engine/src/stellar.py:171-179 | a `price:` segment exists iff the order has a price; an `expiration:` segment exists iff it has an expiration |
| Stellar.QuantityChangesMessage | matching-engine/src/stellar.py:174 | other fields fixed, two quantities give the same message iff they print the same |
| Stellar.TrailingZeroChangesMessage | matching-engine/src/stellar.py:172-174 | quantity 1.50 and quantity 1.5 are equal but produce different messages |
| Stellar.SampleMessage | matching-engine/src/stellar.py:163-181 | the message of a priced GTC buy without expiration is `order_id:test-123\|user:GAXYZ...\|pair:XLM/USDC\|side:Buy\|type:Limit\|price:1.5\|quantity:100\|tif:GTC\|timestamp:1234567890` |
| Stellar.VerifyOrderSignature | matching-engine/src/stellar.py:183-197 | true iff the base64 signature decodes and verifies under the public key over SHA-256 of the UTF-8 of the prefixed message; it never raises |
| Stellar.PayloadSplits | matching-engine/src/stellar.py:186-187 | the prefixed payload is the prefix's bytes followed by the message's bytes |
| Stellar.CreditAsset | matching-engine/src/stellar.py:132-140 | besides XLM and native, a string is an asset iff it has exactly one ':', and then it is CODE:ISSUER with neither part holding ':' |
| Stellar.CreditRoundTrip | matching-engine/src/stellar.py:136-138 | reading `code:issuer` back gives Credit(code, issuer) |
| Stellar.GetContractAddress | matching-engine/src/stellar.py:142-157 | a 56-character C address is returned unchanged; a failure carries "Could not derive contract ID for s", and only happens when the asset cannot be read or its contract id cannot be derived |
| Stellar.HexContractAddress | matching-engine/src/stellar.py:146-149 | 64 hex digits of 32 bytes are encoded as that contract |
| Stellar.NativeContractAddress | matching-engine/src/stellar.py:133-155 | "XLM" and "native" both give the native asset's contract id |
| Stellar.ZeroPad | matching-engine/src/stellar.py:401 | `b'\x00' * n` is n zero bytes, none when n <= 0 |
| Stellar.TradeIdBytes | matching-engine/src/stellar.py:393-401 | succeeds iff the hyphen-free id is hex; up to 32 bytes are kept as a prefix and right-padded with zeros to 32; longer ones are kept as they are |
| Stellar.UuidHex | matching-engine/src/stellar.py:395 | removing the hyphens of a UUID's text gives the hex of its 16 bytes |
| Stellar.UuidTradeId | matching-engine/src/stellar.py:393-401 | a UUID trade id becomes its 16 bytes followed by 16 zero bytes |
| Stellar.ToI128 | matching-engine/src/stellar.py:418-420 | succeeds iff the value fits an i128 |
| Stellar.ToU64 | matching-engine/src/stellar.py:412 | succeeds iff the value fits a u64 |
| Stellar.ArgKeysSorted | matching-engine/src/stellar.py:403-414 | the instruction map's keys are written in strictly increasing order |
| Stellar.BuildSettlementArgs | matching-engine/src/stellar.py:388-416 | succeeds iff both asset addresses derive, the trade id converts, all four addresses are valid, the amounts fit i128 and the timestamp fits u64; then the ten values, in key order, are the amounts as i128s, the normalised asset addresses, the users, the timestamp as u64 and the padded trade id |
| Signer.Str | scripts/sign_order.py:32-46 | a JSON string formats as itself, an int in decimal, null as "None" |
| Signer.Segment | scripts/sign_order.py:32-43 | a segment reads iff the order is a dict holding the key, and is the tag followed by the formatted value |
| Signer.OptionalSegment | scripts/sign_order.py:38-46 | one segment iff the key is present and not null, none otherwise |
| Signer.ClientHead | scripts/sign_order.py:31-36 | five segments, read from a dict |
| Signer.ClientFields | scripts/sign_order.py:31-47 | eight segments plus one each for a present price and a present expiration |
| Signer.ClientMessage | scripts/sign_order.py:48 | a message exists iff every required field could be read |
| Signer.AppendSegments | scripts/sign_order.py:31-47 | the appends build exactly ClientFields, a missing field raising at its own step |
| Signer.ClientSignature | scripts/sign_order.py:19-65 | on success the result is base64 of the key's signature over SHA-256 of the prefixed message |
| Signer.SignOrder | scripts/sign_order.py:19-65 | the steps compute ClientSignature |
| Signer.OrderJson | scripts/sign_order.py:28 | the order's JSON form encodes every field the signer reads |
| Signer.ClientMessageAgrees | scripts/sign_order.py:31-48 | for any JSON object holding the order's fields under the API's keys, the client's message is the server's OrderMessage. Key order and extra keys are free, and asset_pair may be any dict whose base and quote hold the pair |
| Signer.SignedOrderVerifies | scripts/sign_order.py:50-65 | a signature the client produces for an order is accepted by the server's verification for that order, given matching keys and round-tripping base64 |
| Json.SortObject | scripts/compute_compose_hash.py:28-35 | dicts stay dicts with as many items, lists stay lists of the same length, scalars are returned unchanged |
| Json.SortMembers | scripts/compute_compose_hash.py:31 | the sorted items are a permutation of the items |
| Json.SortMembersSorted | scripts/compute_compose_hash.py:31 | the sorted items have strictly increasing keys |
| Json.SortedUnique | scripts/compute_compose_hash.py:31 | two key-sorted permutations of the same items are equal |
| Json.SortObjectCanonical | scripts/compute_compose_hash.py:28-35 | every dict at every depth of the result has its keys in order |
| Json.CanonicalFixpoint | scripts/compute_compose_hash.py:28-35 | a value already in that form is returned unchanged |
| Json.SortObjectIdempotent | scripts/compute_compose_hash.py:28-35 | sorting twice is sorting once |
| Json.SortObjectMembers | scripts/compute_compose_hash.py:31 | each key keeps its (sorted) value; no key is added or lost |
| Json.SortObjectOrderIndependent | scripts/compute_compose_hash.py:31 | dicts with the same items in any insertion order sort to the same value |
| Json.SortObjectListOrder | scripts/compute_compose_hash.py:33 | list order is kept: sorting a concatenation concatenates the sorted parts |
| Json.Clean | scripts/compute_compose_hash.py:56 | an item is kept iff it is in the dict and its value is not None; nested values are kept whole |
| Json.CleanAppendNull | scripts/compute_compose_hash.py:56 | a top-level None item is dropped |
| Json.ComposeHash | scripts/compute_compose_hash.py:45-62 | a hash exists iff the value is a dict, and it is all hex digits |
| Json.ComposeHashOrderIndependent | scripts/compute_compose_hash.py:45-62 | the hash depends on the dict's items, not their order |
| Json.ComposeHashIgnoresNull | scripts/compute_compose_hash.py:56 | a top-level None item does not change the hash |
| Json.GetFound | scripts/verify_remote_attestation.py:143 | `get(k)` finds a value iff some item has key k, and that item is in the dict |
| Json.Index | scripts/verify_remote_attestation.py:120-122 | `d[k]` succeeds iff d is a dict holding k |
| Json.Iterate | scripts/verify_remote_attestation.py:154 | a list iterates its items; an iterable is empty iff it is falsy |
| Attestation.ExtractAppCompose | scripts/verify_remote_attestation.py:107-130 | the top-level app_compose first, then tcb_info.app_compose, else None; a string value is parsed as JSON; a scalar response raises |
| Attestation.ComposeEvent | scripts/verify_remote_attestation.py:154-158 | the first compose-hash event, every earlier one a dict without that name; None iff no event is one; an error only at a non-dict before any match |
| Attestation.AttestedHash | scripts/verify_remote_attestation.py:133-158 | None for a missing or empty event log; a found payload is the one of the first compose-hash event |
| Attestation.ExtractComposeHash | scripts/verify_remote_attestation.py:133-158 | the search loop returns AttestedHash |
| Attestation.CompareWithAttestation | scripts/compute_compose_hash.py:86-115 | exit code 0 iff MATCH, and MATCH only for a dict attestation |
| Attestation.MatchMeans | scripts/compute_compose_hash.py:91-103 | MATCH iff the first compose-hash event's payload is the computed hash |
| Attestation.FirstComposeEvent | scripts/compute_compose_hash.py:92-96 | the search returns the first compose-hash event |
| Attestation.NoEventIsParseError | scripts/compute_compose_hash.py:91-115 | no compose-hash event is reported as a parse error |
| Attestation.ScriptsAgree | scripts/verify_remote_attestation.py:143-158 | when the command-line check says MATCH, the remote extractor finds the same hash |
| Attestation.BaseUrl | scripts/verify_remote_attestation.py:173 | the base URL does not end in '/' |
| Attestation.TrailingSlashIgnored | scripts/verify_remote_attestation.py:173-220 | a trailing slash does not change the /info and /attestation URLs |
| Attestation.ComputedHash | scripts/verify_remote_attestation.py:196-217 | a hash iff a non-empty app-compose dict is found, and then it is that dict's compose hash |
| Attestation.CompareAttested | scripts/verify_remote_attestation.py:219-272 | true iff the attestation is fetched and its extracted hash is the non-empty computed one |
| Attestation.CheckAttestation | scripts/verify_remote_attestation.py:219-272 | the fetch-extract-compare steps compute CompareAttested |
| Attestation.VerifyRemoteAttestation | scripts/verify_remote_attestation.py:161-272 | the early-return procedure computes Verdict |
| Attestation.VerifiedMeans | scripts/verify_remote_attestation.py:161-272 | true iff both fetches succeed, a non-empty app-compose dict is found and the attested hash equals its non-empty hash |
| Attestation.MissingMeansFalse | scripts/verify_remote_attestation.py:196-239 | a missing app-compose or a missing attested hash gives False, not an exception |
| Settlement.CheckPositive | contracts/settlement/src/lib.rs:19-23 | returns iff the amount is positive |
| Settlement.WriteBalance | contracts/settlement/src/storage.rs:49-55 | a write changes the reading of that (user, asset) and of no other |
| Settlement.AddedBalanceEffect | contracts/settlement/src/storage.rs:58-61 | panics iff old + amount leaves i128; otherwise that balance is old + amount and no other changes |
| Settlement.SubtractedBalanceEffect | contracts/settlement/src/storage.rs:64-70 | panics iff the balance is below the amount or the difference leaves i128; otherwise that balance is old - amount and no other changes |
| Settlement.UpdatesStayI128 | contracts/settlement/src/storage.rs:58-70 | updates that return keep every balance in i128 |
| Settlement.UpdatesStayNonNegative | contracts/settlement/src/storage.rs:58-70 | adding a non-negative amount, or a subtraction that returns, keeps every balance non-negative |
| Settlement.DepositEffect | contracts/settlement/src/lib.rs:48-68 | panics iff the amount is not positive, the token is not a supported asset, or the sum overflows; otherwise exactly that balance grows by the amount |
| Settlement.WithdrawEffect | contracts/settlement/src/lib.rs:71-90 | panics iff the amount is not positive or exceeds the balance, for any token; otherwise exactly that balance drops by the amount |
| Settlement.SettledByTransfers | contracts/settlement/src/lib.rs:109-199 | a settlement that returns Success had both assets supported, an engine set, amount plus fee within i128 and covered by both parties, and the vault after is the six moves applied in order |
| Settlement.UnsettledKeepsVault | contracts/settlement/src/lib.rs:119-152 | every result other than Success is InvalidMatchingProof or InsufficientBalance and leaves the vault unchanged |
| Settlement.SettleRejects | contracts/settlement/src/lib.rs:119-152 | see the SettleRejects bullets below the table |
| Settlement.TransferSteps | contracts/settlement/src/lib.rs:160-182 | transfers that return passed through the six intermediate vaults, one per storage call |
| Settlement.TransfersDelta | contracts/settlement/src/lib.rs:160-182 | after the transfers every balance is the old one plus Delta, the sum of the six moves that concern it |
| Settlement.SettleEffect | contracts/settlement/src/lib.rs:160-186 | see the SettleEffect bullets below the table |
| Settlement.SupplyMoved | contracts/settlement/src/lib.rs:160-186 | a move of one balance changes the supply of that asset over a list of distinct users holding the mover by the amount, and no other asset's supply |
| Settlement.TransfersConserve | contracts/settlement/src/lib.rs:160-186 | with non-negative fees the transfers keep each asset's supply over any distinct users including buyer, seller and admin |
| Settlement.SettleConserves | contracts/settlement/src/lib.rs:109-200 | with non-negative fees every settle_trade that returns keeps each asset's supply over those users |
| Settlement.TransfersKeepNonNegative | contracts/settlement/src/lib.rs:160-182 | with non-negative amounts and fees, transfers keep a non-negative vault non-negative |
| Settlement.SettleKeepsNonNegative | contracts/settlement/src/lib.rs:109-200 | with non-negative amounts and fees, a non-negative vault stays non-negative |
| Settlement.ReplayAfterSettlement | contracts/settlement/src/lib.rs:109-200 | with no duplicate-id check, replaying a settled instruction of 100 base for 150 quote on balances of 200 settles on what is left and returns InsufficientBalance for the buyer's 50 |
| Settlement.AppendedTrades | contracts/settlement/src/storage.rs:91-111 | recording appends the trade id once to the buyer's and to the seller's history (once in all when they coincide), other histories unchanged |
| Settlement.Collect | contracts/settlement/src/storage.rs:135-141 | no more records than ids, exactly as many when every id has a record, all of them stored records |
| Settlement.CollectSnoc | contracts/settlement/src/storage.rs:135-141 | one more id adds its record, if any, at the end |
| Settlement.HistoryStart | contracts/settlement/src/storage.rs:128-133 | the window starts within the history and holds min(limit, len) ids |
| Settlement.SettlementContract.constructor | contracts/settlement/src/lib.rs:32-36 | admin and the two assets stored; no engine, empty vault, records and histories |
| Settlement.SettlementContract.SetMatchingEngine | contracts/settlement/src/lib.rs:40-44 | the engine is set and nothing else changes |
| Settlement.SettlementContract.GetAssetA | contracts/settlement/src/lib.rs:97-100 | returns the stored asset A |
| Settlement.SettlementContract.GetAssetB | contracts/settlement/src/lib.rs:102-105 | returns the stored asset B |
| Settlement.SettlementContract.GetBalance | contracts/settlement/src/storage.rs:40-46 | the stored balance, 0 for a pair never written |
| Settlement.SettlementContract.GetSettlement | contracts/settlement/src/storage.rs:114-117 | the record under the trade id iff one is stored, None otherwise |
| Settlement.SettlementContract.AddBalance | contracts/settlement/src/storage.rs:58-61 | the vault becomes AddedBalance of the old one, unchanged on a panic; nothing else changes |
| Settlement.SettlementContract.SubtractBalance | contracts/settlement/src/storage.rs:64-70 | the vault becomes SubtractedBalance of the old one, unchanged on a panic; nothing else changes |
| Settlement.SettlementContract.Deposit | contracts/settlement/src/lib.rs:48-68 | the vault becomes DepositOutcome of the old one, unchanged on a panic; balances stay i128 |
| Settlement.SettlementContract.Withdraw | contracts/settlement/src/lib.rs:71-90 | the vault becomes WithdrawOutcome of the old one, unchanged on a panic; balances stay i128 |
| Settlement.SettlementContract.RecordSettlement | contracts/settlement/src/storage.rs:72-112 | the record replaces any earlier one under its trade id, with price and quantity 0; the histories are Appended; nothing else changes |
| Settlement.SettlementContract.SettleTrade | contracts/settlement/src/lib.rs:109-200 | the result and the vault are SettleOutcome of the old state, the vault unchanged on a panic; records and histories change only on Success; configuration unchanged |
| Settlement.SettlementContract.MoveFunds | contracts/settlement/src/lib.rs:156-186 | the six storage calls compute Transfers, rolled back on a panic |
| Settlement.SettlementContract.CollectFees | contracts/settlement/src/lib.rs:171-186 | each strictly positive fee is credited to the admin in base then quote; on a panic the vault is restored |
| Settlement.SettlementContract.GetTradeHistory | contracts/settlement/src/storage.rs:119-143 | the stored records of the user's last min(limit, len) trade ids, oldest first, ids without a record skipped, at most limit of them; none for an empty history |

The longer contracts, in full:

- **Book.OrderBook.MatchAgainst** (the predicate `MatchResult`):
  - Every trade is against an order resting on the opposite side at a level the incoming limit reaches (a Buy never above its limit, a Sell never below), at that level's price.
  - Levels are consumed best price first. Within a level, resting orders are taken in queue order from the head.
  - Each opposing level is what is left of its old queue after orders left its head. An order leaves only when it traded and is full, and a level is gone only when all its orders have left. Every order still queued has quantity left.
  - No resting order trades twice.
  - Each trade is for min(incoming remaining, resting remaining) > 0.
  - Each resting order that traded is filled by exactly its trade's quantity. All other orders are unchanged.
  - Unless the order is full, no level it could still trade with is left.
- **Engine.MatchingEngine.SubmitOrder**:
  - An underivable contract address or an unsupported pair fails before any lookup and leaves the cache and the book unchanged.
  - A reversed pair is admitted as it is.
  - The order fails iff the balance check fails. The book is then unchanged and the cache holds only what the check fetched.
  - Otherwise the book's match runs, with the book's MatchOrder contract. The trades, the resting orders and the opposing side satisfy MatchResult against the book as it was. The order is stored with what it traded, its own side is Rested under the GTC rule, and the cache is the trades applied in order.
- **Settlement.SettleRejects**:
  - Unsupported base or quote gives InvalidMatchingProof with the vault unchanged.
  - Supported assets with no engine panic.
  - With an engine set, InsufficientBalance with the vault unchanged iff the buyer has less quote than quote + fee_quote, or the seller less base than base + fee_base.
- **Settlement.SettleEffect** (on Success, with distinct parties and assets):
  - The buyer's quote drops by quote + fee_quote and its base rises by base.
  - The seller's base drops by base + fee_base and its quote rises by quote.
  - The admin gains each strictly positive fee.
  - No one else changes.

## Left out

- Network and process I/O: the Soroban RPC calls of matching-engine/src/stellar.py, `get_vault_balance`, submission and polling of settlement transactions, and key loading. The engine sees the service as an `Engine.Oracle` value of results.
- Cryptography and encodings are function parameters with no properties assumed: SHA-256, base64, Ed25519 signing and verification, strkey encoding and asset contract-id derivation. Only `Signer.SignedOrderVerifies` assumes that signing and verification match and that base64 round-trips, and it says so in its requires.
- `async`/`await`: each engine call is one atomic step, so the race between the balance check and matching is not modelled.
- matching-engine/src/api.py is not part of this model. Its checks (quantity > 0, price > 0) appear only as `0 <= filled <= quantity` in the requires of `Book.OrderBook.MatchOrder` and `Engine.MatchingEngine.SubmitOrder`.
- Book.OrderBook.MatchOrder and Engine.MatchingEngine.SubmitOrder require an order id that is not yet in the book. Python would keep the earlier order object queued under a reused id, and then two queue entries could name one table entry.
- Decimal context precision (28 significant digits) is not modelled: arithmetic is exact. Prices and quantities in the book are their values, while message texts keep the Decimal's exponent.
- `uuid.uuid4()` and `time.time()` are the `tradeId` and `clock` parameters, indexed by the trade's position, and the `now` parameter of the snapshot.
- Soroban host effects: `require_auth`, token transfers into and out of the contract, `log!` and events. Only their storage effects are modelled. `Settlement.SettlementContract.SetMatchingEngine` does not model the admin's authorisation.
- Settlement.SettlementContract.GetTradeHistory takes `limit` as an unbounded natural, not a u32; the history length is never near 2^32.
- Attestation I/O: fetching over TLS, reading files, printing, `sys.exit` and `json.loads`/`json.dumps` themselves are parameters or outcomes (`Attestation.Outcome.ExitCode`).
- matching-engine/src/main.py and matching-engine/src/config.py (process bootstrap and configuration) are not part of this model.
- Signer.Str: floats, lists and dicts are formatted by a `repr` parameter, not by Python's float printing.
- Order expiration is carried and signed but never enforced, as in the engine.
