/**
 internal/handlers/swap.go: a server-signed swap on the hard-coded pool,
 reported with the balances before and after and their difference.
 */
module Swap {
  import opened Common
  import opened Crypto
  import opened Abi
  import opened Environment
  import opened Reconcile
  import opened Initialize

  /** Swap currency0 for currency1 with amountSpecified = +10^7 base units, the price limited at MIN_SQRT_PRICE + 1. */
  const ZeroForOne: bool := true
  const AmountSpecified: nat := 10000000
  const SqrtPriceLimitX96: nat := 4295128740

  function SwapParamsValue(): AbiValue {
    TupleV([BoolV(ZeroForOne), IntV(AmountSpecified), UintV(SqrtPriceLimitX96)])
  }

  /** takeClaims = false, settleUsingBurn = false. */
  function TestSettingsValue(): AbiValue {
    TupleV([BoolV(false), BoolV(false)])
  }

  /** The pool every handler trades on: the hard-coded currencies, fee 3000, tick spacing 60. */
  function HardcodedPool(env: Env): PoolKey {
    CreatePoolKey(Currency0, Currency1, env.config.hook)
  }

  function SwapArgs(env: Env): seq<AbiValue> {
    [PoolKeyValue(HardcodedPool(env)), SwapParamsValue(), TestSettingsValue(), BytesV([])]
  }

  lemma SwapParamsConform()
    ensures Matches(SwapParamsValue(), SwapParamsT) && InRange(SwapParamsValue(), SwapParamsT)
  {
    FitsWidth(AmountSpecified, 255);
    FitsWidth(SqrtPriceLimitX96, 160);
    PowPositive(2, 255);
    var fs := SwapParamsValue().fields;
    var ts := SwapParamsT.components;
    assert Matches(fs[0], ts[0]) && InRange(fs[0], ts[0]);
    assert Matches(fs[1], ts[1]) && InRange(fs[1], ts[1]);
    assert Matches(fs[2], ts[2]) && InRange(fs[2], ts[2]);
    TupleConforms(fs, ts);
  }

  lemma TestSettingsConform()
    ensures Matches(TestSettingsValue(), TestSettingsT) && InRange(TestSettingsValue(), TestSettingsT)
  {
    var fs := TestSettingsValue().fields;
    var ts := TestSettingsT.components;
    assert Matches(fs[0], ts[0]) && InRange(fs[0], ts[0]);
    assert Matches(fs[1], ts[1]) && InRange(fs[1], ts[1]);
    TupleConforms(fs, ts);
  }

  /** The swap arguments fit the router's `swap` exactly: count, kinds and widths. */
  lemma SwapArgsConform(env: Env)
    ensures Conforms(SwapArgs(env), SwapInputs)
  {
    var args := SwapArgs(env);
    PoolKeyConforms(HardcodedPool(env));
    SwapParamsConform();
    TestSettingsConform();
    assert Matches(args[3], SwapInputs[3]) && InRange(args[3], SwapInputs[3]);
  }

  /** So packing `swap` only fails inside the encoder. */
  lemma SwapPacks(env: Env)
    ensures Pack(env.encode, SwapRouter, "swap", SwapArgs(env)) == env.encode(SwapRouter, "swap", SwapArgs(env))
  {
    SwapArgsConform(env);
    MethodTable();
    ConformingArgumentsPack(env.encode, SwapRouter, "swap", SwapArgs(env));
  }

  /** The transaction `Swap` means to send: the transactor's nonce and gas price, 10^6 gas, no value. */
  function SwapTx(env: Env, auth: Auth): Option<Tx> {
    TransactorTx(env, auth.nonce, auth.gasPrice, 1000000, SwapRouter, "swap", SwapArgs(env), env.config.swapRouter)
  }

  /** Every step of `Swap` succeeds. */
  ghost predicate SwapCompletes(env: Env) {
    && CreateTransactor(env).result.Ok?
    && var auth := CreateTransactor(env).result.value;
       && BalancesAt(env.chain, auth.from, 0).Some?
       && SwapTx(env, auth).Some?
       && Lands(env, SwapTx(env, auth).value, auth.chainId, env.config.serverKey)
       && BalancesAt(env.chain, auth.from, 1).Some?
  }

  /**
   `Swap`: transactor, balances of the transactor's address, pack of
   `swap(key, params, settings, "")`, sign, send, balances again; each
   failure answers 500 and ends the request. The answer carries the hash,
   both balance pairs and after - before.
   */
  method Swap(env: Env) returns (resp: Response, events: seq<Event>)
    ensures CreateTransactor(env).result.Err? ==>
      resp == Failed(500, TransactorFailed(CreateTransactor(env).result.error)) && NoSubmission(events)
    ensures resp.Reconciled? <==> SwapCompletes(env)
    ensures resp.Reconciled? ==>
      var auth := CreateTransactor(env).result.value;
      && resp.before == BalancesAt(env.chain, auth.from, 0).value
      && resp.after == BalancesAt(env.chain, auth.from, 1).value
      && resp.delta == Delta(resp.before, resp.after)
      && resp.txHash == env.crypto.signTx(SwapTx(env, auth).value, auth.chainId, env.config.serverKey).value
    ensures NoSubmission(events) ||
      (CreateTransactor(env).result.Ok? && SwapTx(env, CreateTransactor(env).result.value).Some? &&
       OnlySubmits(events, SwapTx(env, CreateTransactor(env).result.value).value))
    ensures CreateTransactor(env).result.Ok? ==>
      var from := CreateTransactor(env).result.value.from;
      PrecedesSubmission(events, BalanceQuery(Currency0, from, 0)) &&
      PrecedesSubmission(events, BalanceQuery(Currency1, from, 0))
    ensures CreateTransactor(env).result.Ok? && SwapTx(env, CreateTransactor(env).result.value).Some? &&
      !Lands(env, SwapTx(env, CreateTransactor(env).result.value).value, CreateTransactor(env).result.value.chainId, env.config.serverKey)
      ==> resp.Failed? && NoLaterReads(events)
    ensures CreateTransactor(env).result.Ok? && BalancesAt(env.chain, CreateTransactor(env).result.value.from, 0).None? ==>
      && resp.Failed? && resp.failure.BalanceBeforeFailed? && NoSubmission(events)
      && forall e :: e in events ==> !e.Packed?
    ensures resp.Reconciled? ==>
      Submitted(SwapTx(env, CreateTransactor(env).result.value).value, resp.txHash) in events
    ensures resp.Failed? ==> resp.status == 500
    ensures resp.Failed? || resp.Reconciled?
  {
    var t := CreateTransactor(env);
    events := t.events;
    if t.result.Err? {
      return Failed(500, TransactorFailed(t.result.error)), events;
    }
    var auth := t.result.value;
    var o := PackAndSettle(env, auth.from, auth.chainId, auth.nonce, auth.gasPrice, 1000000,
                           SwapRouter, "swap", SwapArgs(env), env.config.swapRouter);
    assert SwapTx(env, auth) == TransactorTx(env, auth.nonce, auth.gasPrice, 1000000, SwapRouter, "swap", SwapArgs(env), env.config.swapRouter);
    PrecedesAcrossPrefix(events, o.events, BalanceQuery(Currency0, auth.from, 0));
    PrecedesAcrossPrefix(events, o.events, BalanceQuery(Currency1, auth.from, 0));
    TraceConcat(events, o.events);
    events := events + o.events;
    return o.resp, events;
  }
}
