/**
 internal/handlers/addLiquidity.go: a server-signed full-range liquidity
 position on the hard-coded pool, after checking that both currencies are
 deployed contracts.
 */
module AddLiquidity {
  import opened Common
  import opened Crypto
  import opened Abi
  import opened Environment
  import opened EthereumUtils
  import opened Reconcile
  import opened Initialize
  import opened Swap

  /** The widest tick range aligned to the spacing of 60, and 10^20 units of liquidity. */
  const MinTick: int := -887220
  const MaxTick: int := 887220
  const LiquidityAmount: nat := 100000000000000000000

  /** Both ends of the range are multiples of the pool's tick spacing and the range is not empty. */
  lemma TicksAligned()
    ensures MinTick % PoolTickSpacing == 0 && MaxTick % PoolTickSpacing == 0
    ensures MinTick < MaxTick && MinTick == -MaxTick
  {
  }

  /** `ModifyLiquidityParams{tickLower, tickUpper, liquidityDelta, salt = 0}`. */
  function ModifyLiquidityParamsValue(): AbiValue {
    TupleV([IntV(MinTick), IntV(MaxTick), IntV(LiquidityAmount), FixedBytesV(ZeroHash)])
  }

  lemma ModifyLiquidityParamsConform()
    ensures Matches(ModifyLiquidityParamsValue(), ModifyLiquidityParamsT)
    ensures InRange(ModifyLiquidityParamsValue(), ModifyLiquidityParamsT)
  {
    Int24Bounds();
    TwoTo128();
    var fs := ModifyLiquidityParamsValue().fields;
    var ts := ModifyLiquidityParamsT.components;
    assert Matches(fs[0], ts[0]) && InRange(fs[0], ts[0]);
    assert Matches(fs[1], ts[1]) && InRange(fs[1], ts[1]);
    assert Matches(fs[2], ts[2]) && InRange(fs[2], ts[2]);
    assert Matches(fs[3], ts[3]) && InRange(fs[3], ts[3]);
    TupleConforms(fs, ts);
  }

  /** key, params, hookData = "": the three arguments the handler packs. */
  function ModifyLiquidityArgs(env: Env): seq<AbiValue> {
    [PoolKeyValue(HardcodedPool(env)), ModifyLiquidityParamsValue(), BytesV([])]
  }

  /**
   The three arguments fit the router's three-input `modifyLiquidity`,
   which the encoder knows as "modifyLiquidity0".
   */
  lemma ModifyLiquidityArgsConform(env: Env)
    ensures Conforms(ModifyLiquidityArgs(env), ModifyLiquidityInputs)
    ensures Pack(env.encode, LPRouter, "modifyLiquidity0", ModifyLiquidityArgs(env))
         == env.encode(LPRouter, "modifyLiquidity0", ModifyLiquidityArgs(env))
  {
    var args := ModifyLiquidityArgs(env);
    PoolKeyConforms(HardcodedPool(env));
    ModifyLiquidityParamsConform();
    assert Matches(args[2], ModifyLiquidityInputs[2]) && InRange(args[2], ModifyLiquidityInputs[2]);
    MethodTable();
    ConformingArgumentsPack(env.encode, LPRouter, "modifyLiquidity0", args);
  }

  /**
   Packed under the bare name, the same three arguments are refused for
   every encoder: "modifyLiquidity" is the first declaration, which takes
   five inputs.
   */
  lemma ThreeArgumentPackRefused(env: Env)
    ensures Pack(env.encode, LPRouter, "modifyLiquidity", ModifyLiquidityArgs(env)) == None
  {
    MethodTable();
  }

  /** The parameters the response echoes. */
  const Echo: LiquidityEcho := LiquidityEcho(Currency0, Currency1, PoolFee, PoolTickSpacing as nat, LiquidityAmount)

  /** The transaction the handler means to send: to the liquidity router, the transactor's nonce and gas price, 500000 gas. */
  function AddLiquidityTx(env: Env, auth: Auth, methodName: string): Option<Tx> {
    TransactorTx(env, auth.nonce, auth.gasPrice, 500000, LPRouter, methodName, ModifyLiquidityArgs(env), env.config.lpRouter)
  }

  /** The checks before the balances are read: transactor, network id, both currencies deployed. */
  ghost predicate PreflightPasses(env: Env) {
    && CreateTransactor(env).result.Ok?
    && env.chain.networkId.Some?
    && CheckContractDeployment(env.chain, Currency0, 0).result.Ok?
    && CheckContractDeployment(env.chain, Currency1, 0).result.Ok?
  }

  /** Every step succeeds when the call is packed under `methodName`. */
  ghost predicate AddLiquidityCompletes(env: Env, methodName: string) {
    && PreflightPasses(env)
    && var auth := CreateTransactor(env).result.value;
       && BalancesAt(env.chain, auth.from, 0).Some?
       && AddLiquidityTx(env, auth, methodName).Some?
       && Lands(env, AddLiquidityTx(env, auth, methodName).value, auth.chainId, env.config.serverKey)
       && BalancesAt(env.chain, auth.from, 1).Some?
  }

  /**
   Transactor, network id, then the deployment checks of currency0 and
   currency1, all before any balance is read; each failure answers 500 with
   nothing submitted.
   */
  function Preflight(env: Env): (r: Traced<Auth, Failure>)
    ensures r.result.Ok? <==> PreflightPasses(env)
    ensures r.result.Ok? ==> r.result.value == CreateTransactor(env).result.value
    ensures CreateTransactor(env).result.Err? ==> r.result == Err(TransactorFailed(CreateTransactor(env).result.error))
    ensures CreateTransactor(env).result.Ok? && env.chain.networkId.None? ==> r.result == Err(NetworkIdFailed)
    ensures (CreateTransactor(env).result.Ok? && env.chain.networkId.Some? &&
             CheckContractDeployment(env.chain, Currency0, 0).result.Err?) ==>
      r.result == Err(ContractCheckFailed(0, CheckContractDeployment(env.chain, Currency0, 0).result.error))
    ensures (CreateTransactor(env).result.Ok? && env.chain.networkId.Some? &&
             CheckContractDeployment(env.chain, Currency0, 0).result.Ok? &&
             CheckContractDeployment(env.chain, Currency1, 0).result.Err?) ==>
      r.result == Err(ContractCheckFailed(1, CheckContractDeployment(env.chain, Currency1, 0).result.error))
    ensures CreateTransactor(env).result.Err? ==> r.events == CreateTransactor(env).events
    ensures CodeQuery(Currency1, 0) in r.events ==>
      CreateTransactor(env).result.Ok? && env.chain.networkId.Some? &&
      CheckContractDeployment(env.chain, Currency0, 0).result.Ok?
    ensures NoSubmission(r.events) && NoLaterReads(r.events)
    ensures forall e :: e in r.events ==> !e.BalanceQuery? && !e.Packed?
  {
    var t := CreateTransactor(env);
    match t.result
    case Err(e) => Traced(Err(TransactorFailed(e)), t.events)
    case Ok(auth) =>
      var net := t.events + [NetworkIdQuery];
      if env.chain.networkId.None? then Traced(Err(NetworkIdFailed), net)
      else
        var check0 := CheckContractDeployment(env.chain, Currency0, 0);
        match check0.result
        case Err(e) => Traced(Err(ContractCheckFailed(0, e)), net + check0.events)
        case Ok(_) =>
          var check1 := CheckContractDeployment(env.chain, Currency1, 0);
          match check1.result
          case Err(e) => Traced(Err(ContractCheckFailed(1, e)), net + check0.events + check1.events)
          case Ok(_) => Traced(Ok(auth), net + check0.events + check1.events)
  }

  /**
   The handler with the method name it packs under as a parameter: preflight,
   the transactor's balances, pack of (key, params, ""), a transaction to
   the liquidity router, settle; the answer echoes the pool parameters.
   */
  method AddLiquidityWith(env: Env, methodName: string) returns (resp: Response, events: seq<Event>)
    ensures !PreflightPasses(env) ==> resp.Failed? && resp.status == 500 && NoSubmission(events)
    ensures CreateTransactor(env).result.Err? ==>
      resp == Failed(500, TransactorFailed(CreateTransactor(env).result.error)) && events == CreateTransactor(env).events
    ensures !PreflightPasses(env) ==> forall e :: e in events ==> !e.BalanceQuery?
    ensures resp.LiquidityAdded? <==> AddLiquidityCompletes(env, methodName)
    ensures (PreflightPasses(env) && BalancesAt(env.chain, CreateTransactor(env).result.value.from, 0).Some? &&
             Pack(env.encode, LPRouter, methodName, ModifyLiquidityArgs(env)).None?) ==>
      resp == Failed(500, PackFailed)
    ensures resp.LiquidityAdded? ==>
      var auth := CreateTransactor(env).result.value;
      && resp.before == BalancesAt(env.chain, auth.from, 0).value
      && resp.after == BalancesAt(env.chain, auth.from, 1).value
      && resp.delta == Delta(resp.before, resp.after)
      && resp.txHash == env.crypto.signTx(AddLiquidityTx(env, auth, methodName).value, auth.chainId, env.config.serverKey).value
      && resp.params == Echo
    ensures NoSubmission(events) ||
      (PreflightPasses(env) && AddLiquidityTx(env, CreateTransactor(env).result.value, methodName).Some? &&
       OnlySubmits(events, AddLiquidityTx(env, CreateTransactor(env).result.value, methodName).value))
    ensures PreflightPasses(env) ==>
      var from := CreateTransactor(env).result.value.from;
      PrecedesSubmission(events, BalanceQuery(Currency0, from, 0)) &&
      PrecedesSubmission(events, BalanceQuery(Currency1, from, 0))
    ensures PreflightPasses(env) && BalancesAt(env.chain, CreateTransactor(env).result.value.from, 0).None? ==>
      && resp.Failed? && resp.failure.BalanceBeforeFailed? && NoSubmission(events)
      && forall e :: e in events ==> !e.Packed?
    ensures resp.LiquidityAdded? ==>
      Submitted(AddLiquidityTx(env, CreateTransactor(env).result.value, methodName).value, resp.txHash) in events
    ensures PreflightPasses(env) && AddLiquidityTx(env, CreateTransactor(env).result.value, methodName).Some? &&
      !Lands(env, AddLiquidityTx(env, CreateTransactor(env).result.value, methodName).value,
             CreateTransactor(env).result.value.chainId, env.config.serverKey)
      ==> resp.Failed? && NoLaterReads(events)
    ensures resp.Failed? ==> resp.status == 500
    ensures resp.Failed? || resp.LiquidityAdded?
  {
    var pre := Preflight(env);
    events := pre.events;
    if pre.result.Err? {
      return Failed(500, pre.result.error), events;
    }
    var auth := pre.result.value;
    var o := PackAndSettle(env, auth.from, auth.chainId, auth.nonce, auth.gasPrice, 500000,
                           LPRouter, methodName, ModifyLiquidityArgs(env), env.config.lpRouter);
    assert AddLiquidityTx(env, auth, methodName) ==
      TransactorTx(env, auth.nonce, auth.gasPrice, 500000, LPRouter, methodName, ModifyLiquidityArgs(env), env.config.lpRouter);
    PrecedesAcrossPrefix(events, o.events, BalanceQuery(Currency0, auth.from, 0));
    PrecedesAcrossPrefix(events, o.events, BalanceQuery(Currency1, auth.from, 0));
    TraceConcat(events, o.events);
    events := events + o.events;
    if o.resp.Failed? {
      return o.resp, events;
    }
    var r := o.resp;
    return LiquidityAdded(r.txHash, r.before, r.after, r.delta, Echo), events;
  }

  /**
   `AddLiquidity` as written: the call is packed as "modifyLiquidity",
   which never packs, so the handler never submits and never succeeds.
   */
  method AddLiquidityAsWritten(env: Env) returns (resp: Response, events: seq<Event>)
    ensures NoSubmission(events)
    ensures resp.Failed? && resp.status == 500
    ensures PreflightPasses(env) && BalancesAt(env.chain, CreateTransactor(env).result.value.from, 0).Some? ==>
      resp == Failed(500, PackFailed)
  {
    ThreeArgumentPackRefused(env);
    resp, events := AddLiquidityWith(env, "modifyLiquidity");
    assert !AddLiquidityCompletes(env, "modifyLiquidity");
  }

  /**
   `AddLiquidity` as evidently intended: the three-input overload
   ("modifyLiquidity0"), which succeeds exactly when the chain's answers
   let every step through.
   */
  method AddLiquidity(env: Env) returns (resp: Response, events: seq<Event>)
    ensures resp.LiquidityAdded? <==>
      && PreflightPasses(env)
      && var auth := CreateTransactor(env).result.value;
         var data := env.encode(LPRouter, "modifyLiquidity0", ModifyLiquidityArgs(env));
         && BalancesAt(env.chain, auth.from, 0).Some?
         && data.Some?
         && Lands(env, Tx(auth.nonce, env.config.lpRouter, 0, 500000, auth.gasPrice, data.value), auth.chainId, env.config.serverKey)
         && BalancesAt(env.chain, auth.from, 1).Some?
    ensures resp.LiquidityAdded? ==> resp.params == Echo && resp.delta == Delta(resp.before, resp.after)
    ensures NoSubmission(events) ||
      (PreflightPasses(env) &&
       var auth := CreateTransactor(env).result.value;
       var data := env.encode(LPRouter, "modifyLiquidity0", ModifyLiquidityArgs(env));
       data.Some? && OnlySubmits(events, Tx(auth.nonce, env.config.lpRouter, 0, 500000, auth.gasPrice, data.value)))
    ensures CreateTransactor(env).result.Err? ==>
      resp == Failed(500, TransactorFailed(CreateTransactor(env).result.error)) && events == CreateTransactor(env).events
    ensures !PreflightPasses(env) ==>
      resp.Failed? && NoSubmission(events) && forall e :: e in events ==> !e.BalanceQuery?
    ensures PreflightPasses(env) && BalancesAt(env.chain, CreateTransactor(env).result.value.from, 0).None? ==>
      && resp.Failed? && resp.failure.BalanceBeforeFailed? && NoSubmission(events)
      && forall e :: e in events ==> !e.Packed?
    ensures (PreflightPasses(env) && BalancesAt(env.chain, CreateTransactor(env).result.value.from, 0).Some? &&
             AddLiquidityTx(env, CreateTransactor(env).result.value, "modifyLiquidity0").None?) ==>
      resp == Failed(500, PackFailed)
    ensures resp.LiquidityAdded? ==>
      var auth := CreateTransactor(env).result.value;
      var tx := AddLiquidityTx(env, auth, "modifyLiquidity0").value;
      && resp.before == BalancesAt(env.chain, auth.from, 0).value
      && resp.after == BalancesAt(env.chain, auth.from, 1).value
      && resp.txHash == env.crypto.signTx(tx, auth.chainId, env.config.serverKey).value
      && Submitted(tx, resp.txHash) in events
    ensures PreflightPasses(env) ==>
      var from := CreateTransactor(env).result.value.from;
      PrecedesSubmission(events, BalanceQuery(Currency0, from, 0)) &&
      PrecedesSubmission(events, BalanceQuery(Currency1, from, 0))
    ensures PreflightPasses(env) && AddLiquidityTx(env, CreateTransactor(env).result.value, "modifyLiquidity0").Some? &&
      !Lands(env, AddLiquidityTx(env, CreateTransactor(env).result.value, "modifyLiquidity0").value,
             CreateTransactor(env).result.value.chainId, env.config.serverKey)
      ==> resp.Failed? && NoLaterReads(events)
    ensures resp.Failed? ==> resp.status == 500
    ensures resp.Failed? || resp.LiquidityAdded?
  {
    ModifyLiquidityArgsConform(env);
    resp, events := AddLiquidityWith(env, "modifyLiquidity0");
  }
}
