/**
 What the handlers run against, as values instead of the source's global
 singletons (`ethereum.Client`, `ethereum.PrivateKey`, the contract
 addresses): a stubbed chain, the cryptographic primitives, the call
 encoder, the configured addresses and keys, and the clock reading.

 Every chain interaction a handler makes is recorded as an `Event`, so that
 ordering and "nothing is sent after a failure" can be stated about the
 returned trace.
 */
module Environment {
  import opened Common
  import opened Crypto
  import opened Abi

  /**
   The chain as the program sees it through `ethclient`. Views that a
   submitted transaction can change (code and balances) take an epoch: the
   number of transactions the current request has had accepted so far.
   None is an RPC error.
   */
  datatype Chain = Chain(
    chainId: Option<nat>,
    networkId: Option<nat>,
    pendingNonce: Address -> Option<nat>,
    gasPrice: Option<nat>,
    codeAt: (Address, nat) -> Option<Bytes>,
    /** ERC-20 `balanceOf(owner)` on a token. */
    balanceOf: (Address, Address, nat) -> Option<nat>,
    /** ERC-20 permit `nonces(owner)` on a token. */
    permitNonce: (Address, Address) -> Option<nat>,
    /** ERC-20 `DOMAIN_SEPARATOR()` on a token. */
    domainSeparator: Address -> Option<Hash>,
    /**
     The binding's `token.Approve(auth, spender, amount)` with `auth.Nonce`
     set: the hash of the submitted approval, None on error.
     */
    approve: (Address, Address, nat, nat) -> Option<Hash>,
    /** `bind.WaitMined`: the receipt status, None on error. */
    waitMined: Hash -> Option<nat>,
    /** `SendTransaction` of a signed transaction: whether the node accepted it. */
    send: (Tx, Hash) -> bool
  )

  /**
   The configured contract addresses and keys. `user` and `userKey` are what
   `MakeAddrAndKey("alice")` returns; `serverKey` is `ethereum.PrivateKey`.
   */
  datatype Config = Config(
    swapRouter: Address,
    lpRouter: Address,
    manager: Address,
    hook: Address,
    serverKey: PrivateKey,
    user: Address,
    userKey: PrivateKey
  )

  datatype Env = Env(
    chain: Chain,
    crypto: Primitives,
    /**
     go-ethereum's encoder behind `Pack`, once the method is found and the
     argument kinds match; None stands for refusals the kind check does not
     see (Go-level type mismatches).
     */
    encode: (Contract, string, seq<AbiValue>) -> Option<Bytes>,
    config: Config,
    /** `time.Now().Unix()` at the moment a permit deadline is computed. */
    now: nat
  )

  /** The currencies hard-coded in the swap, liquidity and approval handlers. */
  const Currency0: Address :=
    [0xAA, 0x29, 0x2E, 0x86, 0x11, 0xAD, 0xF2, 0x67, 0xE5, 0x63,
     0xF3, 0x34, 0xEE, 0x42, 0x32, 0x0A, 0xC9, 0x6D, 0x04, 0x63]
  const Currency1: Address :=
    [0xF9, 0x53, 0xB3, 0xA2, 0x69, 0xD8, 0x0E, 0x3E, 0xB0, 0xF2,
     0x94, 0x76, 0x30, 0xDA, 0x97, 0x6B, 0x89, 0x6A, 0x8C, 0x5B]

  datatype Event =
    | ChainIdQuery
    | NetworkIdQuery
    | PendingNonceQuery(account: Address)
    | GasPriceQuery
    | CodeQuery(address: Address, epoch: nat)
    | BalanceQuery(token: Address, owner: Address, epoch: nat)
    | PermitNonceQuery(token: Address, owner: Address)
    | DomainSeparatorQuery(token: Address)
    /** A call of `GeneratePermitSignature` with these arguments. */
    | PermitRequested(token: Address, owner: Address, spender: Address, value: nat, deadline: nat)
    | Packed(contract: Contract, methodName: string, args: seq<AbiValue>)
    /** A signed transaction handed to `SendTransaction`. */
    | Submitted(tx: Tx, hash: Hash)
    /**
     A call of the token binding's `Approve` with these arguments; the
     approval reaches the node only when that call returns a transaction.
     */
    | ApprovalAttempted(token: Address, spender: Address, amount: nat, nonce: nat)
    | MinedWait(hash: Hash)

  /** A result together with the chain interactions that produced it. */
  datatype Traced<+T, +E> = Traced(result: Result<T, E>, events: seq<Event>)

  datatype BalanceError =
    | ZeroTokenAddress
    | ZeroOwnerAddress
    | CodeQueryFailed
    | NoContractCode(address: Address)
    | BalanceCallFailed

  /**
   Why `createTransactor` failed. The keyed transactor's own error (a nil
   chain id) cannot arise there: the chain id was just read successfully.
   */
  datatype TransactorError = ChainIdFailed | PendingNonceFailed | GasPriceFailed

  datatype ApproveError =
    | ApprovalNonceFailed
    | ApproveCallFailed(token: Address, router: Address)
    | WaitMinedFailed(token: Address, router: Address)
    | ApprovalReverted(token: Address, router: Address)

  datatype PermitError = PermitNonceFailed

  /** Why a handler answered with an error status. */
  datatype Failure =
    | BadRequest
    | TransactorFailed(transactorError: TransactorError)
    | NetworkIdFailed
    | ContractCheckFailed(currency: nat, cause: BalanceError)
    | BalanceBeforeFailed(currency: nat, cause: BalanceError)
    | BalanceAfterFailed(currency: nat, cause: BalanceError)
    | PermitFailed(currency: nat, permitError: PermitError)
    | PackFailed
    | NonceQueryFailed
    | GasPriceQueryFailed
    | SignFailed
    | SendFailed
    | ApprovalFailed(approveError: ApproveError)

  datatype Balances = Balances(currency0: nat, currency1: nat)
  datatype Deltas = Deltas(currency0: int, currency1: int)

  datatype BalanceEntry = Approved(balance: nat) | BalanceUnavailable(cause: BalanceError)

  /** The parameters the add-liquidity response echoes. */
  datatype LiquidityEcho = LiquidityEcho(currency0: Address, currency1: Address, fee: nat, tickSpacing: nat, liquidityAmount: nat)

  /**
   What a handler answers. Every variant except `Failed` is a 200 response;
   `Panicked` is a handler that panics (a nil dereference or an index out of
   range) instead of answering.
   */
  datatype Response =
    | Failed(status: nat, failure: Failure)
    | Initialized(initializeTxHash: Hash)
    | Reconciled(txHash: Hash, before: Balances, after: Balances, delta: Deltas)
    | LiquidityAdded(txHash: Hash, before: Balances, after: Balances, delta: Deltas, params: LiquidityEcho)
    | ApprovedBalances(entries: map<Address, BalanceEntry>)
    | Panicked

  /** No transaction was handed to the node. */
  predicate NoSubmission(events: seq<Event>) {
    forall e :: e in events ==> !e.Submitted?
  }

  /** No code or balance was read after a transaction of this request was accepted. */
  predicate NoLaterReads(events: seq<Event>) {
    forall e :: e in events ==> !(e.BalanceQuery? && e.epoch > 0) && !(e.CodeQuery? && e.epoch > 0)
  }

  /** Every transaction handed to the node is `tx`. */
  predicate OnlySubmits(events: seq<Event>, tx: Tx) {
    forall e :: e in events && e.Submitted? ==> e.tx == tx
  }

  /** `e` was recorded before every submission in the trace. */
  predicate PrecedesSubmission(events: seq<Event>, e: Event) {
    forall j :: 0 <= j < |events| && events[j].Submitted? ==> e in events[..j]
  }

  /** The trace properties are properties of each event, so they split over concatenation. */
  lemma TraceConcat(a: seq<Event>, b: seq<Event>)
    ensures NoSubmission(a + b) <==> NoSubmission(a) && NoSubmission(b)
    ensures NoLaterReads(a + b) <==> NoLaterReads(a) && NoLaterReads(b)
    ensures forall tx :: OnlySubmits(a + b, tx) <==> OnlySubmits(a, tx) && OnlySubmits(b, tx)
  {
  }

  /** An event recorded before the first submission precedes every submission, whatever follows. */
  lemma PrecedesLaterSubmissions(prefix: seq<Event>, e: Event, rest: seq<Event>)
    requires e in prefix && NoSubmission(prefix)
    ensures PrecedesSubmission(prefix + rest, e)
  {
    var all := prefix + rest;
    forall j | 0 <= j < |all| && all[j].Submitted?
      ensures e in all[..j]
    {
      assert j >= |prefix|;
      assert all[..j][..|prefix|] == prefix;
    }
  }

  /** A submission-free prefix does not disturb what precedes the submissions that follow it. */
  lemma PrecedesAcrossPrefix(prefix: seq<Event>, rest: seq<Event>, e: Event)
    requires NoSubmission(prefix) && PrecedesSubmission(rest, e)
    ensures PrecedesSubmission(prefix + rest, e)
  {
    var all := prefix + rest;
    forall j | 0 <= j < |all| && all[j].Submitted?
      ensures e in all[..j]
    {
      assert j >= |prefix|;
      var k := j - |prefix|;
      assert rest[k] == all[j];
      assert e in rest[..k];
      assert all[..j] == prefix + rest[..k];
    }
  }
}
