# uniswap-v4-rpc handlers, modelled in Dafny

The server is a small gin service in front of a Uniswap v4 deployment. It
has one handler per route:

- initialize a pool at price 1:1;
- swap with the server key;
- swap paid from a user's tokens under an EIP-2612 permit;
- add full-range liquidity with the server key;
- add liquidity under two permits;
- approve both routers for both hard-coded currencies.

Three helpers are shared: a balance reader, the permit signer and an
EIP-191 signature check.

This project models those handlers and helpers as pure functions and short
methods over an explicit environment (`Environment.Env`). The environment
holds:

- a stubbed chain, with code, balances, nonces, gas price, permit nonces,
  domain separators, approvals and receipts, and whether the node accepts
  a transaction;
- the cryptographic primitives (keccak256, secp256k1 signing and recovery,
  EIP-155 transaction signing), as uninterpreted functions;
- go-ethereum's ABI encoder, as an uninterpreted function behind the
  method lookup and the argument check `Pack` performs;
- the configured addresses and keys;
- the clock reading.

Every chain interaction a handler makes is recorded as an `Event`. This
lets the contracts state ordering and "nothing is sent after a failure"
properties about the trace each handler returns.

The modules follow the program:

- `Common`: integers, bytes, the left-padded ABI word.
- `Crypto`: primitives, keyed transactor, address derivation.
- `Abi`: argument kinds, go-ethereum's overload renaming, `Pack`.
- `Environment`: chain stub, events, responses.
- `EthereumUtils`: `pkg/utils/ethereum_utils.go`.
- `Signature`: `internal/ethereum/signature.go`.
- `Reconcile`: the balance, sign and send steps the handlers share.
- `Initialize`, `Swap`, `SwapPermit`, `AddLiquidity`,
  `AddLiquidityPermit`, `ApproveTokens`: one module per handler file.

Reference definitions that the contracts compare against:

- `Reconcile.BalancesAt`: the balances readable at an epoch.
- `Reconcile.Lands`: the transaction is signed and accepted.
- `Reconcile.RelayTx`: the transaction a permit handler relays.
- `Reconcile.TransactorTx`: the transaction a handler holding a transactor sends.
- `Reconcile.RelayFailsFast`: how the relay stops early (panic, missing
  balances, nonce or gas price), stated once for both permit handlers.
- `SwapPermit.SwapPermitPacked`, `AddLiquidityPermit.AddLiquidityPermitPacked`:
  the permits are signed and the call packs.
- `EthereumUtils.PlannedApprovals`: the approval attempts of a successful run.
- `EthereumUtils.ApprovalSucceeds`.
- One `…Completes` predicate per handler.

An epoch counts the transactions the request has had accepted so far. Code
and balances are read at epoch 0 before a handler's transaction, at 1 after
it, and at 4 after the four approvals.

## Model

| member | source | states |
|---|---|---|
| Crypto.KeyedTransactor | internal/handlers/initalize.go:76-79 | no transactor exactly when the chain id is missing, the keyed transactor's only error; otherwise its `From` is the server key's address, for every chain id |
| Crypto.TransactorIsSigner | internal/handlers/initalize.go:76-84 | when recovery inverts signing, every signature the key makes recovers to the transactor's `From`, so the nonce read for `From` is the nonce of the account that signs |
| Common.WordRoundTrip | pkg/utils/ethereum_utils.go:186-190 | every uint256 left-padded to 32 bytes is exactly one word and decodes back to the value |
| Common.MaxUint256IsPowMinusOne | pkg/utils/ethereum_utils.go:21 | the approval amount `1<<256 - 1` is 2^256 - 1 |
| Common.FirstByteDecides | internal/ethereum/contracts.go:1381-1388 | for equal-length addresses a smaller first byte means a smaller number, the order the manager checks currencies by |
| Abi.MethodTable | internal/ethereum/contracts.go:31 | after go-ethereum's overload renaming, each method name the handlers pack finds the declaration it means; the three-input `modifyLiquidity` is only reachable as "modifyLiquidity0" |
| Abi.FreeNameIsFresh | internal/ethereum/contracts.go:31 | the name go-ethereum's conflict renaming picks is never one already registered, for every raw name and registry, so the search's cut-off never changes the answer |
| Abi.LPRouterNames | internal/ethereum/contracts.go:333-494 | the liquidity router's declarations are registered as modifyLiquidity, modifyLiquidity0, modifyLiquidityWithPermit |
| Abi.ConformingArgumentsPack | internal/handlers/swap.go:65-70 | arguments that conform to the looked-up inputs are handed to the encoder, so `Pack` only fails inside it |
| Abi.ConformsConcat | internal/handlers/swapPermit.go:82-92 | argument lists that conform piecewise conform when concatenated |
| EthereumUtils.GetBalance | pkg/utils/ethereum_utils.go:59-95 | a zero token and then a zero owner fail before any query; code is read first; balanceOf is called iff both are non-zero and code is non-empty; Ok iff that call answers, with its value |
| EthereumUtils.CheckContractDeployment | pkg/utils/ethereum_utils.go:122-132 | one code query; Ok iff the code is non-empty; empty code is `NoContractCode(address)` |
| EthereumUtils.BalanceReadImpliesDeployed | pkg/utils/ethereum_utils.go:70-77 | a successful balance read implies the deployment check passes and starts with the same query |
| EthereumUtils.SubmitApproval | pkg/utils/ethereum_utils.go:36-53 | one attempt to approve 2^256 - 1 with the given nonce, recorded before the binding is called; success iff the approval is submitted, mined and its status is non-zero |
| EthereumUtils.ApproveInOrder | pkg/utils/ethereum_utils.go:29-54 | the nested loops: for any plan, the approvals attempted are a prefix of the planned ones with nonces n, n+1, ...; no error iff every planned approval succeeds; on error all earlier ones succeeded and the last attempted failed; only approval attempts and receipt waits are recorded |
| EthereumUtils.ApproveTokens | pkg/utils/ethereum_utils.go:20-57 | pending nonce read once, as the first event and never again; the approvals attempted are a prefix of (c0,SR),(c0,LP),(c1,SR),(c1,LP) with nonces n..n+3; no error iff all four succeed; on error every earlier approval succeeded and the last one attempted failed |
| EthereumUtils.ApprovalsOfConcat | pkg/utils/ethereum_utils.go:29-54 | the approvals of a concatenated trace are the approvals of its parts, in order |
| EthereumUtils.StructPreimageLayout | pkg/utils/ethereum_utils.go:184-191 | the permit struct preimage is 192 bytes: typehash, owner and spender padded with 12 zero bytes, and value, nonce and deadline as words that decode back |
| EthereumUtils.DigestPreimageLayout | pkg/utils/ethereum_utils.go:193-197 | the digest preimage is 66 bytes: 0x19 0x01, the domain separator, the struct hash |
| EthereumUtils.SplitJoinRoundTrip | pkg/utils/ethereum_utils.go:218-220 | r, s and v = recovery id + 27 (uint8) lose nothing: joining them gives the raw signature back, and a raw id of 0 or 1 gives v = 27 or 28 |
| EthereumUtils.GeneratePermitSignature | pkg/utils/ethereum_utils.go:164-244 | a nonce failure is the only error returned; a failed domain-separator fetch signs over the zero separator; a signing error panics; otherwise v, r, s join back into exactly the signature of the EIP-712 permit digest |
| Signature.StripRecoveryId | internal/ethereum/signature.go:14-16 | a 65-byte signature loses exactly its last byte; other lengths are unchanged |
| Signature.VerifySignature | internal/ethereum/signature.go:10-35 | true iff recovery over keccak(prefix, keccak(message)) of the stripped signature succeeds and derives the given address; a recovery error is false |
| Signature.VerifySignatureNeverAccepts | internal/ethereum/signature.go:14-27 | when recovery needs 65 bytes, as go-ethereum's does, no signature of any length is ever accepted |
| Signature.NormalizeRecoveryId | internal/ethereum/signature.go:14-16 | keeps length and r ‖ s; brings a recovery id of 27 or more down by 27, else unchanged |
| Signature.VerifySignatureFixed | internal/ethereum/signature.go:10-35 | the corrected check: true iff recovery of the full 65 bytes, with the id normalized, derives the address |
| Signature.FixedAcceptsGenuineSignatures | internal/ethereum/signature.go:20-34 | when recovery inverts signing, a key's signature over the prefixed message is accepted for its address, in raw and in +27 form |
| Signature.GenuineSignatureRejected | internal/ethereum/signature.go:14-27 | the discrepancy: a genuine signature that the corrected check accepts is rejected as written |
| Reconcile.ReadBalances | internal/handlers/swap.go:32-43 | the trace is currency0's read, followed by currency1's only when currency0's succeeded; the first error names its currency; Ok iff both are readable, with those values |
| Reconcile.Delta | internal/handlers/swap.go:101-102 | before + delta = after per currency, and a delta is negative iff the balance fell |
| Reconcile.SignAndSend | internal/handlers/swap.go:74-86 | a signing failure submits nothing; otherwise exactly the signed transaction is submitted and success iff the node accepts it, answering its hash |
| Reconcile.Settle | internal/handlers/swap.go:74-109 | only the given transaction is submitted, and when it is signed its submission is the first event; the answer is the hash with both balance pairs and their delta iff it lands and the after-balances read, and that hash was submitted; if it does not land, 500 with no later reads; every failure is 500 |
| Reconcile.Dispatch | internal/handlers/swapPermit.go:115-163 | with no keyed transactor (the discarded chain-id error) the handler panics before any further query, and otherwise never panics; a missing pending nonce is 500 after that one query, a missing gas price 500 after the nonce and gas queries; otherwise it relays exactly `RelayTx` and reconciles with the submitted hash; every failure is 500 |
| Reconcile.Relay | internal/handlers/swapPermit.go:97-163 | chain id, then the owner's before-balances, then the relay; unreadable balances are 500 with nothing sent; it panics iff the balances were read and the chain id is missing; a missing nonce or gas price is 500 with nothing sent; both before-reads precede every submission; the answered hash was submitted |
| Reconcile.PackAndRelay | internal/handlers/swapPermit.go:82-163 | a pack failure is 500 with nothing sent; once packed, the relay's early stops (`RelayFailsFast`): unreadable balances, a missing nonce or gas price are 500 with nothing sent and a panic happens iff the balances were read and the chain id is missing; success iff the relayed transaction lands and both balance pairs are readable, answering the submitted hash, pairs and delta |
| Reconcile.PackAndSettle | internal/handlers/swap.go:32-109 | the part `Swap` and `AddLiquidity` share once they hold a transactor: unreadable before-balances are 500 before the pack with nothing sent; a pack failure is 500 with nothing sent; success iff the before-balances, the pack, the landing and the after-balances succeed, answering the submitted hash, both pairs and delta; only `TransactorTx` is sent, after both before-reads; no reads after a failed send |
| Initialize.CreateTransactor | internal/handlers/initalize.go:70-94 | chain id, then the keyed transactor (it cannot fail once the chain id is known), then the pending nonce of the server key's address, then the gas price; each failure stops with exactly the queries made so far; Ok iff chain id, nonce and gas price answer, with those values |
| Initialize.CreatePoolKey | internal/handlers/initalize.go:96-116 | currencies kept in the caller's order, fee 3000, tick spacing 60 |
| Initialize.CreatePoolKeyKeepsCallerOrder | internal/handlers/initalize.go:96-116 | the key is acceptable to the manager iff the caller passed the currencies in order, and never for both orders |
| Initialize.HardcodedCurrenciesOrdered | internal/handlers/swap.go:19-20 | the hard-coded currency0 is strictly below currency1 |
| Initialize.PoolKeyConforms | internal/ethereum/contracts.go:117-182 | the key fits the PoolKey tuple: fee within uint24, tick spacing within int24 |
| Initialize.SqrtPriceIsOneInQ96 | internal/handlers/initalize.go:35 | the starting price is 2^96, i.e. 1.0 in Q64.96 |
| Initialize.InitializeArgsConform | internal/ethereum/contracts.go:692-729 | (key, 2^96, "") fits the manager's `initialize` |
| Initialize.Initialize | internal/handlers/initalize.go:17-68 | 400 with no query when the body does not bind (a zero address counts as missing); once it binds every failure is 500, the transactor's first; success iff the transactor answers and the transaction to the manager (its nonce, gas 500000, no value) lands, answering the hash that was submitted |
| Initialize.InitializePacks | internal/handlers/initalize.go:45-49 | packing `initialize` only fails inside the encoder, for every request |
| Swap.SwapParamsConform | internal/handlers/swap.go:22-24 | zeroForOne, 10^7 and 4295128740 fit (bool, int256, uint160) |
| Swap.SwapArgsConform | internal/ethereum/contracts.go:117-182 | (key, params, settings, "") fits the swap router's `swap` in count, kinds and widths |
| Swap.SwapPacks | internal/handlers/swap.go:45-70 | so packing `swap` only fails inside the encoder, for every encoder |
| Swap.Swap | internal/handlers/swap.go:17-110 | 500 on every failure; a transactor failure sends nothing; unreadable before-balances are 500 before the pack, with nothing sent; success iff transactor, before-balances, pack, landing and after-balances all succeed, answering the submitted hash, both pairs and delta; only that transaction is sent, after both before-reads; no reads after a failed send |
| SwapPermit.WithSlippage | internal/handlers/swapPermit.go:65-66 | amount * 11 / 10 rounded down: 10v <= 11a < 10v + 10 |
| SwapPermit.SwapWithPermitArgs | internal/handlers/swapPermit.go:82-92 | user, the swap's four arguments, then the permit's own deadline, v, r, s |
| SwapPermit.SwapWithPermitConforms | internal/ethereum/contracts.go:183-253 | those nine arguments fit `swapWithPermit` for every uint8 v and deadline below 2^256 |
| SwapPermit.SwapWithPermitPacks | internal/handlers/swapPermit.go:82-96 | so packing `swapWithPermit` only fails inside the encoder |
| SwapPermit.SignedSwapPermitRelays | internal/handlers/swapPermit.go:82-163 | once the permit is signed, the permit's events followed by the relay of the packed `swapWithPermit` call succeed iff the whole handler completes, answer the submitted hash, both pairs and delta, and submit nothing but `SwapPermitTx` |
| SwapPermit.SignedSwapPermitFailsFast | internal/handlers/swapPermit.go:97-163 | once the permit is signed, the handler keeps the relay's early stops after the permit's events and reads both before-balances before any submission |
| SwapPermit.PermitTailConforms | internal/ethereum/contracts.go:183-253 | a deadline below 2^256 and a uint8 v with two 32-byte r and s fit (uint256, uint8, bytes32, bytes32), the permit tail of `swapWithPermit` |
| SwapPermit.SwapPermit | internal/handlers/swapPermit.go:19-164 | the permit is requested for currency0, the user, the swap router, 11000000 and now + 3600; its refusal is 500 and its signing error a panic, neither sending anything; the packed call carries that same deadline; it panics iff signing panics or, once packed, the before-balances are read and the chain id is missing; unreadable before-balances, a missing nonce or gas price send nothing; every failure is 500; success iff every step succeeds, answering the submitted hash; only the relayed transaction is sent, after both before-reads |
| AddLiquidity.TicksAligned | internal/handlers/addLiquidity.go:25-26 | both range ends are multiples of the tick spacing 60 and the range is symmetric and non-empty |
| AddLiquidity.ModifyLiquidityParamsConform | internal/handlers/addLiquidity.go:83-93 | (-887220, 887220, 10^20, zero salt) fits (int24, int24, int256, bytes32) |
| AddLiquidity.ModifyLiquidityArgsConform | internal/ethereum/contracts.go:385-432 | (key, params, "") fits the three-input `modifyLiquidity`, registered as "modifyLiquidity0" |
| AddLiquidity.ThreeArgumentPackRefused | internal/handlers/addLiquidity.go:95-99 | packing those three arguments under "modifyLiquidity" fails for every encoder |
| AddLiquidity.Preflight | internal/handlers/addLiquidity.go:36-64 | transactor, network id, then deployment of currency0 and currency1, each failure 500 before any balance read; a transactor failure makes no chain check; currency1's code is read only after currency0's passed; each deployment failure names its currency |
| AddLiquidity.AddLiquidityWith | internal/handlers/addLiquidity.go:17-145 | 500 on every failure with nothing sent before the pack; a transactor failure records only the transactor's queries; a failed preflight reads no balance; unreadable before-balances are 500 before the pack; success iff preflight, before-balances, pack, landing and after-balances succeed, answering the submitted hash and echoing fee 3000, spacing 60 and 10^20; the transaction goes to the liquidity router with the transactor's nonce and 500000 gas; no reads after a failed send |
| AddLiquidity.AddLiquidityAsWritten | internal/handlers/addLiquidity.go:95-99 | as written the handler never sends a transaction and never succeeds |
| AddLiquidity.AddLiquidity | internal/handlers/addLiquidity.go:17-145 | corrected: the contract of the handler with the three-input call: every failure 500, a transactor failure records only its queries, a failed preflight reads no balance, unreadable before-balances fail before the pack; succeeds iff the chain lets every step through, answering the submitted hash and both pairs; only the encoded three-input call is sent, after both before-reads; no reads after a failed send |
| AddLiquidityPermit.AddLiquidityWithPermitArgs | internal/handlers/addLiquidityPermit.go:83-93 | user, key, params, "", false, false, deadline, then v, r, s of currency0 and of currency1 |
| AddLiquidityPermit.AddLiquidityWithPermitConforms | internal/ethereum/contracts.go:435-494 | those thirteen arguments fit `modifyLiquidityWithPermit` |
| AddLiquidityPermit.AddLiquidityWithPermitPacks | internal/handlers/addLiquidityPermit.go:83-97 | so packing only fails inside the encoder |
| AddLiquidityPermit.RequestPermit | internal/handlers/addLiquidityPermit.go:70-80 | one permit for the liquidity router, 10^20 and the shared deadline; a refusal is 500 naming the currency, a signing error a panic |
| AddLiquidityPermit.PermitPair | internal/handlers/addLiquidityPermit.go:70-80 | token0's permit first; token1's is requested iff token0's was signed; the answer is the first unsigned outcome or both signatures |
| AddLiquidityPermit.SecondPermitOnlyAfterFirst | internal/handlers/addLiquidityPermit.go:70-80 | for the hard-coded currencies, the currency1 permit is requested exactly when currency0's was signed |
| AddLiquidityPermit.SignedLiquidityPermitsRelay | internal/handlers/addLiquidityPermit.go:83-165 | once both permits are signed, the permits' events followed by the relay of the packed call succeed iff the whole handler completes, answer the submitted hash, both pairs and delta, and submit nothing but `AddLiquidityPermitTx` |
| AddLiquidityPermit.SignedLiquidityPermitsFailFast | internal/handlers/addLiquidityPermit.go:99-165 | once both permits are signed, the handler keeps the relay's early stops after the permits' events and reads both before-balances before any submission |
| AddLiquidityPermit.AddLiquidityPermit | internal/handlers/addLiquidityPermit.go:19-165 | both permits agree on owner, spender, value and deadline; a permit failure ends the request with nothing sent; the packed call carries that deadline; it panics iff a permit's signing panics or, once packed, the before-balances are read and the chain id is missing; unreadable before-balances, a missing nonce or gas price send nothing; every failure is 500; success iff every step succeeds, answering the submitted hash; only the relayed transaction (10^6 gas) is sent, after both before-reads |
| ApproveTokens.ReportEntry | internal/handlers/approveTokens.go:36-45 | the balance when it can be read after the approvals, else the read error, which does not fail the request |
| ApproveTokens.Report | internal/handlers/approveTokens.go:34-46 | exactly one entry per currency |
| ApproveTokens.ReadReport | internal/handlers/approveTokens.go:35-46 | the report after the approvals, and its reads: currency0's balance read, then currency1's, at the view four transactions on |
| ApproveTokens.ApproveAndReport | internal/handlers/approveTokens.go:26-48 | after the transactor: a 200 report iff all four approvals from the pending nonce succeed, else 500 naming the approval error; on success the entries are the report, the approvals are exactly the planned ones and the trace ends with currency0's then currency1's balance read; nothing is submitted |
| ApproveTokens.ApproveTokens | internal/handlers/approveTokens.go:14-49 | 500 on transactor failure with no approval; a 200 report iff all four approvals succeed, else 500; on success the approvals made are exactly the planned ones; balances are read only after success, at the view four transactions on, and the trace ends with currency0's read followed by currency1's; no other transaction is sent |

## Left out

- HTTP and JSON plumbing is not modelled: routing, gin's context, response bodies and messages, and logging.
- Configuration loading, the client dial and `MakeAddrAndKey` are not modelled. The user address and keys are fields of `Config`.
- go-ethereum's `bind.NewKeyedTransactorWithChainID` is not part of this model. It is taken to fail only for a nil chain id and otherwise to set `From` to the key's address. So `createTransactor` has no keyed-transactor error, and a permit handler panics on the transactor only when its discarded chain-id query failed.
- keccak256, secp256k1 signing and recovery, EIP-155 signing and the ERC-20 bindings are parameters, not implementations.
  - `Crypto.SignatureRecovers` and `Crypto.RecoveryNeeds65Bytes` state the two secp256k1 facts the findings use.
- The ABI encoder's byte layout is not modelled. `Abi.Pack` models only the method lookup, go-ethereum's overload renaming and the kind check.
  - A Go struct whose field names do not match the tuple components is a Go-level refusal. It is folded into the encoder returning None.
- The log-only parts of `GeneratePermitSignature` are not modelled: the unused Swap typehash, the "encoded permit" hash, the recovered signer and the derived address. None of them influences the result.
- Nonces are unbounded naturals. `createTransactor` converts the pending nonce through int64 and back to uint64, which is the identity below 2^63.
- `time.Now().Unix()` is the parameter `Env.now` and is taken to be non-negative.
- gin's panic recovery is out of scope. A handler that panics is answered `Panicked`.
- Gas limits, gas prices and nonces are modelled only as the values placed in the transaction, not their effect on the chain.
- Concurrency between requests is out of scope. Each request sees one chain view per epoch.
- PoolKey validation is not modelled because the code has none. The pool manager reverts with `CurrenciesOutOfOrderOrEqual` unless currency0 is below currency1 (internal/ethereum/contracts.go:1381-1388). `createPoolKey` neither sorts nor checks the currencies, and the model follows the code: see `Initialize.CreatePoolKeyKeepsCallerOrder`.
- Initialize.Initialize: gin's `binding:"required"` is modelled only as refusing a missing or all-zero address.
  - A malformed hex string is folded into "does not bind". JSON decoding itself is not modelled.

## Findings

| source | as written | input that shows it | evidently intended | confidence | as-written member | corrected member |
|---|---|---|---|---|---|---|
| internal/handlers/addLiquidity.go:95 | packs "modifyLiquidity" with (key, params, hookData). go-ethereum registers the first, five-input overload under that name and the three-input one as "modifyLiquidity0", so the argument count never matches | any request: `Pack` returns an error for every chain and encoder, and the handler answers 500 after reading the balances | call the three-input overload, which is reachable as "modifyLiquidity0" | not executed | AddLiquidity.AddLiquidityAsWritten (with AddLiquidity.ThreeArgumentPackRefused) | AddLiquidity.AddLiquidity (with AddLiquidity.ModifyLiquidityArgsConform) |
| internal/ethereum/signature.go:14-16 | strips the recovery id before `crypto.Ecrecover`, which only accepts 65-byte signatures | a genuine 65-byte signature by the address's key over the prefixed message: recovery gets 64 bytes, errors, and the check answers false | recover from all 65 bytes, normalizing a 27/28 recovery id to 0/1 | not executed | Signature.VerifySignatureNeverAccepts (with Signature.GenuineSignatureRejected) | Signature.VerifySignatureFixed (with Signature.FixedAcceptsGenuineSignatures) |
