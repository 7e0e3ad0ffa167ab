/**
 internal/handlers/initalize.go: the transactor every server-signed handler
 starts from, the pool key every handler builds, and the handler that
 initializes a pool at price 1:1.
 */
module Initialize {
  import opened Common
  import opened Crypto
  import opened Abi
  import opened Environment
  import opened Reconcile

  /** The fields of `bind.TransactOpts` the handlers use. */
  datatype Auth = Auth(from: Address, chainId: nat, nonce: nat, gasPrice: nat)

  /**
   `createTransactor()`: chain id, then the keyed transactor for the server
   key (which cannot fail once the chain id is known), then the pending
   nonce of its address, then the suggested gas price; the first error is
   returned and nothing after it is queried.
   */
  function CreateTransactor(env: Env): (r: Traced<Auth, TransactorError>)
    ensures env.chain.chainId.None? ==> r == Traced(Err(ChainIdFailed), [ChainIdQuery])
    ensures env.chain.chainId.Some? ==>
      var from := AddressOf(env.crypto, env.config.serverKey);
      && (env.chain.pendingNonce(from).None? ==>
            r == Traced(Err(PendingNonceFailed), [ChainIdQuery, PendingNonceQuery(from)]))
      && (env.chain.pendingNonce(from).Some? && env.chain.gasPrice.None? ==>
            r == Traced(Err(GasPriceFailed), [ChainIdQuery, PendingNonceQuery(from), GasPriceQuery]))
    ensures r.result.Ok? <==>
      && env.chain.chainId.Some?
      && env.chain.pendingNonce(AddressOf(env.crypto, env.config.serverKey)).Some?
      && env.chain.gasPrice.Some?
    ensures r.result.Ok? ==>
      var from := r.result.value.from;
      && Some(from) == KeyedTransactor(env.crypto, env.config.serverKey, env.chain.chainId)
      && r.result.value == Auth(from, env.chain.chainId.value, env.chain.pendingNonce(from).value, env.chain.gasPrice.value)
      && r.events == [ChainIdQuery, PendingNonceQuery(from), GasPriceQuery]
    ensures |r.events| > 0 && r.events[0] == ChainIdQuery && NoSubmission(r.events) && NoLaterReads(r.events)
    ensures forall e :: e in r.events ==> e.ChainIdQuery? || e.PendingNonceQuery? || e.GasPriceQuery?
  {
    match env.chain.chainId
    case None => Traced(Err(ChainIdFailed), [ChainIdQuery])
    case Some(id) =>
      var from := KeyedTransactor(env.crypto, env.config.serverKey, env.chain.chainId).value;
      var queried := [ChainIdQuery, PendingNonceQuery(from)];
      match env.chain.pendingNonce(from)
      case None => Traced(Err(PendingNonceFailed), queried)
      case Some(nonce) =>
        match env.chain.gasPrice
        case None => Traced(Err(GasPriceFailed), queried + [GasPriceQuery])
        case Some(price) => Traced(Ok(Auth(from, id, nonce, price)), queried + [GasPriceQuery])
  }

  // ---------------------------------------------------------------------
  // Pool key
  // ---------------------------------------------------------------------

  datatype PoolKey = PoolKey(currency0: Address, currency1: Address, fee: nat, tickSpacing: int, hooks: Address)

  const PoolFee: nat := 3000
  const PoolTickSpacing: int := 60

  /**
   `createPoolKey(token0, token1, hook)`: the currencies are taken in the
   order given, neither sorted nor checked, with the fixed fee and tick
   spacing.
   */
  function CreatePoolKey(token0: Address, token1: Address, hook: Address): (k: PoolKey)
    ensures k.currency0 == token0 && k.currency1 == token1 && k.hooks == hook
    ensures k.fee == 3000 && k.tickSpacing == 60
  {
    PoolKey(token0, token1, PoolFee, PoolTickSpacing, hook)
  }

  /** The `PoolKey` tuple as the encoder receives it. */
  function PoolKeyValue(k: PoolKey): AbiValue {
    TupleV([AddressV(k.currency0), AddressV(k.currency1), UintV(k.fee), IntV(k.tickSpacing), AddressV(k.hooks)])
  }

  /**
   What the pool manager demands of a key (it reverts with
   `CurrenciesOutOfOrderOrEqual` otherwise): currency0 strictly below
   currency1 as numbers.
   */
  predicate CurrenciesOrdered(k: PoolKey) {
    AddressValue(k.currency0) < AddressValue(k.currency1)
  }

  /** The key is acceptable to the pool manager exactly when the caller passed the currencies in order. */
  lemma CreatePoolKeyKeepsCallerOrder(token0: Address, token1: Address, hook: Address)
    ensures CurrenciesOrdered(CreatePoolKey(token0, token1, hook)) <==> AddressValue(token0) < AddressValue(token1)
    ensures !CurrenciesOrdered(CreatePoolKey(token1, token0, hook)) || !CurrenciesOrdered(CreatePoolKey(token0, token1, hook))
  {
  }

  /** The two currencies hard-coded in the swap, liquidity and approval handlers are in order. */
  lemma HardcodedCurrenciesOrdered(hook: Address)
    ensures CurrenciesOrdered(CreatePoolKey(Currency0, Currency1, hook))
    ensures Currency0 != Currency1
  {
    FirstByteDecides(Currency0, Currency1);
  }

  /** The key encodes losslessly: the fee fits uint24 and the tick spacing int24. */
  lemma PoolKeyConforms(k: PoolKey)
    requires k.fee == PoolFee && k.tickSpacing == PoolTickSpacing
    ensures Matches(PoolKeyValue(k), PoolKeyT) && InRange(PoolKeyValue(k), PoolKeyT)
  {
    Int24Bounds();
    var fs := PoolKeyValue(k).fields;
    var ts := PoolKeyT.components;
    assert Matches(fs[0], ts[0]) && InRange(fs[0], ts[0]);
    assert Matches(fs[1], ts[1]) && InRange(fs[1], ts[1]);
    assert Matches(fs[2], ts[2]) && InRange(fs[2], ts[2]);
    assert Matches(fs[3], ts[3]) && InRange(fs[3], ts[3]);
    assert Matches(fs[4], ts[4]) && InRange(fs[4], ts[4]);
    assert Conforms(fs, ts);
    TupleConforms(fs, ts);
  }

  // ---------------------------------------------------------------------
  // The handler
  // ---------------------------------------------------------------------

  /** sqrt(1) in Q64.96 fixed point: the 1:1 starting price. */
  const SqrtPriceOneToOne: nat := 79228162514264337593543950336

  lemma SqrtPriceIsOneInQ96()
    ensures SqrtPriceOneToOne == Pow(2, 96)
  {
    TwoPowers();
  }

  /**
   The JSON body after binding: None when it is malformed or a field is
   missing. `binding:"required"` also refuses a field holding its zero
   value, so the all-zero address is refused like a missing one.
   */
  datatype InitializeRequest = InitializeRequest(currency0: Address, currency1: Address)

  predicate Binds(request: Option<InitializeRequest>) {
    request.Some? && request.value.currency0 != ZeroAddress && request.value.currency1 != ZeroAddress
  }

  function InitializeArgs(k: PoolKey): seq<AbiValue> {
    [PoolKeyValue(k), UintV(SqrtPriceOneToOne), BytesV([])]
  }

  /** The initialize arguments are exactly what the manager's `initialize` takes. */
  lemma InitializeArgsConform(k: PoolKey)
    requires k.fee == PoolFee && k.tickSpacing == PoolTickSpacing
    ensures Conforms(InitializeArgs(k), InitializeInputs)
    ensures Lookup(Manager, "initialize") == Some(InitializeInputs)
  {
    PoolKeyConforms(k);
    SqrtPriceIsOneInQ96();
    PowMonotone(2, 97, 160);
    assert Pow(2, 97) == 2 * Pow(2, 96);
    MethodTable();
    var args := InitializeArgs(k);
    assert Matches(args[0], InitializeInputs[0]) && InRange(args[0], InitializeInputs[0]);
    assert Matches(args[1], InitializeInputs[1]) && InRange(args[1], InitializeInputs[1]);
    assert Matches(args[2], InitializeInputs[2]) && InRange(args[2], InitializeInputs[2]);
  }

  /** The transaction `Initialize` means to send for a request, given the transactor. */
  function InitializeTx(env: Env, auth: Auth, request: InitializeRequest): Option<Tx> {
    var k := CreatePoolKey(request.currency0, request.currency1, env.config.hook);
    match Pack(env.encode, Manager, "initialize", InitializeArgs(k))
    case None => None
    case Some(data) => Some(Tx(auth.nonce, env.config.manager, 0, 500000, auth.gasPrice, data))
  }

  /** Every step of `Initialize` succeeds for this request. */
  ghost predicate InitializeCompletes(env: Env, request: Option<InitializeRequest>) {
    && Binds(request)
    && CreateTransactor(env).result.Ok?
    && var auth := CreateTransactor(env).result.value;
       InitializeTx(env, auth, request.value).Some? &&
       Lands(env, InitializeTx(env, auth, request.value).value, auth.chainId, env.config.serverKey)
  }

  /**
   `Initialize`: 400 when the body does not bind; otherwise transactor,
   pack of `initialize(key, 2^96, "")`, a transaction to the manager with
   the transactor's nonce and gas price and a 500000 gas limit, signing and
   sending, each failure answering 500 and ending the request.
   */
  method Initialize(env: Env, request: Option<InitializeRequest>) returns (resp: Response, events: seq<Event>)
    ensures !Binds(request) ==> resp == Failed(400, BadRequest) && events == []
    ensures Binds(request) && CreateTransactor(env).result.Err? ==>
      resp == Failed(500, TransactorFailed(CreateTransactor(env).result.error)) && NoSubmission(events)
    ensures resp.Initialized? <==> InitializeCompletes(env, request)
    ensures resp.Initialized? ==>
      var auth := CreateTransactor(env).result.value;
      var tx := InitializeTx(env, auth, request.value).value;
      && tx.nonce == auth.nonce && tx.to == env.config.manager && tx.value == 0 && tx.gas == 500000
      && resp.initializeTxHash == env.crypto.signTx(tx, auth.chainId, env.config.serverKey).value
      && Submitted(tx, resp.initializeTxHash) in events
    ensures Binds(request) && resp.Failed? ==> resp.status == 500
    ensures NoSubmission(events) || (Binds(request) && CreateTransactor(env).result.Ok? &&
      var tx := InitializeTx(env, CreateTransactor(env).result.value, request.value);
      tx.Some? && OnlySubmits(events, tx.value))
    ensures resp.Failed? || resp.Initialized?
  {
    if !Binds(request) {
      return Failed(400, BadRequest), [];
    }
    var req := request.value;
    var t := CreateTransactor(env);
    events := t.events;
    if t.result.Err? {
      return Failed(500, TransactorFailed(t.result.error)), events;
    }
    var auth := t.result.value;
    var k := CreatePoolKey(req.currency0, req.currency1, env.config.hook);
    var args := InitializeArgs(k);
    events := events + [Packed(Manager, "initialize", args)];
    var data := Pack(env.encode, Manager, "initialize", args);
    if data.None? {
      return Failed(500, PackFailed), events;
    }
    var tx := Tx(auth.nonce, env.config.manager, 0, 500000, auth.gasPrice, data.value);
    assert InitializeTx(env, auth, req) == Some(tx);
    var sent := SignAndSend(env, tx, auth.chainId, env.config.serverKey);
    events := events + sent.events;
    if sent.result.Err? {
      return Failed(500, sent.result.error), events;
    }
    return Initialized(sent.result.value), events;
  }

  /**
   Given a request that binds and a chain that answers, the only way the
   pool is not initialized is the manager's encoder refusing or the node
   refusing the transaction: the arguments always fit the method.
   */
  lemma InitializePacks(env: Env, request: InitializeRequest)
    ensures var k := CreatePoolKey(request.currency0, request.currency1, env.config.hook);
      Pack(env.encode, Manager, "initialize", InitializeArgs(k)) == env.encode(Manager, "initialize", InitializeArgs(k))
  {
    var k := CreatePoolKey(request.currency0, request.currency1, env.config.hook);
    InitializeArgsConform(k);
    ConformingArgumentsPack(env.encode, Manager, "initialize", InitializeArgs(k));
  }
}
