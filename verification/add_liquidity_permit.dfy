/**
 internal/handlers/addLiquidityPermit.go: a full-range position paid from
 the user's tokens, authorised by one EIP-2612 permit per currency and
 relayed in one transaction signed with the server key.
 */
module AddLiquidityPermit {
  import opened Common
  import opened Crypto
  import opened Abi
  import opened Environment
  import opened EthereumUtils
  import opened Reconcile
  import opened Initialize
  import opened AddLiquidity
  import opened SwapPermit

  /** Each permit covers the liquidity amount, 10^20 base units. */
  const LiquidityPermitValue: nat := LiquidityAmount

  /** The user's permit for `token` with the liquidity router as spender, valid for an hour. */
  function LiquidityPermit(env: Env, token: Address): PermitOutcome {
    GeneratePermitSignature(env.crypto, env.chain, token, env.config.user, env.config.lpRouter,
                            LiquidityPermitValue, PermitDeadline(env), env.config.userKey)
  }

  function SigValues(sig: PermitSig): seq<AbiValue> {
    [UintV(sig.v), FixedBytesV(sig.r), FixedBytesV(sig.s)]
  }

  const SigTypes: seq<AbiType> := [UintT(8), FixedBytesT(32), FixedBytesT(32)]

  lemma SigConforms(sig: PermitSig)
    requires sig.v < 256
    ensures Conforms(SigValues(sig), SigTypes)
  {
    assert Pow(2, 8) == 256;
    assert Matches(SigValues(sig)[0], SigTypes[0]) && InRange(SigValues(sig)[0], SigTypes[0]);
  }

  /**
   user, key, params, hookData = "", settleUsingBurn = false,
   takeClaims = false, deadline, then both signatures.
   */
  function AddLiquidityWithPermitArgs(env: Env, sig0: PermitSig, sig1: PermitSig): (args: seq<AbiValue>)
    ensures |args| == 13
    ensures args[0] == AddressV(env.config.user)
    ensures args[1..4] == ModifyLiquidityArgs(env)
    ensures args[4] == BoolV(false) && args[5] == BoolV(false)
    ensures args[6] == UintV(PermitDeadline(env))
    ensures args[7..10] == SigValues(sig0) && args[10..] == SigValues(sig1)
  {
    [AddressV(env.config.user)] + ModifyLiquidityArgs(env) + [BoolV(false), BoolV(false), UintV(PermitDeadline(env))]
      + SigValues(sig0) + SigValues(sig1)
  }

  /** deadline and both signatures follow the two `false` flags. */
  lemma LiquidityPermitTailConforms(env: Env, sig0: PermitSig, sig1: PermitSig)
    requires sig0.v < 256 && sig1.v < 256
    requires PermitDeadline(env) < TwoTo256
    ensures Conforms([BoolV(false), BoolV(false), UintV(PermitDeadline(env))] + SigValues(sig0) + SigValues(sig1),
                     [BoolT, BoolT, UintT(256)] + SigTypes + SigTypes)
  {
    var flags := [BoolV(false), BoolV(false), UintV(PermitDeadline(env))];
    var flagsT := [BoolT, BoolT, UintT(256)];
    MaxUint256IsPowMinusOne();
    assert Matches(flags[2], flagsT[2]) && InRange(flags[2], flagsT[2]);
    assert Conforms(flags, flagsT);
    SigConforms(sig0);
    SigConforms(sig1);
    ConformsConcat(flags, flagsT, SigValues(sig0), SigTypes);
    ConformsConcat(flags + SigValues(sig0), flagsT + SigTypes, SigValues(sig1), SigTypes);
  }

  /**
   The arguments fit `modifyLiquidityWithPermit` in order and width, for
   every pair of signatures the permit code returns and every deadline
   below 2^256.
   */
  lemma AddLiquidityWithPermitConforms(env: Env, sig0: PermitSig, sig1: PermitSig)
    requires sig0.v < 256 && sig1.v < 256
    requires PermitDeadline(env) < TwoTo256
    ensures Conforms(AddLiquidityWithPermitArgs(env, sig0, sig1), ModifyLiquidityWithPermitInputs)
  {
    var user := [AddressV(env.config.user)];
    var tail := [BoolV(false), BoolV(false), UintV(PermitDeadline(env))] + SigValues(sig0) + SigValues(sig1);
    var tailT := [BoolT, BoolT, UintT(256)] + SigTypes + SigTypes;
    assert Conforms(user, [AddressT]);
    ModifyLiquidityArgsConform(env);
    LiquidityPermitTailConforms(env, sig0, sig1);
    ConformsConcat(user, [AddressT], ModifyLiquidityArgs(env), ModifyLiquidityInputs);
    ConformsConcat(user + ModifyLiquidityArgs(env), [AddressT] + ModifyLiquidityInputs, tail, tailT);
    assert AddLiquidityWithPermitArgs(env, sig0, sig1) == user + ModifyLiquidityArgs(env) + tail;
    assert ModifyLiquidityWithPermitInputs == [AddressT] + ModifyLiquidityInputs + tailT;
  }

  /** So packing `modifyLiquidityWithPermit` only fails inside the encoder. */
  lemma AddLiquidityWithPermitPacks(env: Env, sig0: PermitSig, sig1: PermitSig)
    requires sig0.v < 256 && sig1.v < 256
    requires PermitDeadline(env) < TwoTo256
    ensures Pack(env.encode, LPRouter, "modifyLiquidityWithPermit", AddLiquidityWithPermitArgs(env, sig0, sig1))
         == env.encode(LPRouter, "modifyLiquidityWithPermit", AddLiquidityWithPermitArgs(env, sig0, sig1))
  {
    AddLiquidityWithPermitConforms(env, sig0, sig1);
    MethodTable();
    ConformingArgumentsPack(env.encode, LPRouter, "modifyLiquidityWithPermit", AddLiquidityWithPermitArgs(env, sig0, sig1));
  }

  /** The relayed transaction: to the liquidity router, carrying the packed permit call. */
  ghost function AddLiquidityPermitTx(env: Env): Option<Tx> {
    var p0 := LiquidityPermit(env, Currency0);
    var p1 := LiquidityPermit(env, Currency1);
    if !p0.Signed? || !p1.Signed? then None
    else
      match Pack(env.encode, LPRouter, "modifyLiquidityWithPermit", AddLiquidityWithPermitArgs(env, p0.sig, p1.sig))
      case None => None
      case Some(data) => RelayTx(env, env.config.lpRouter, data)
  }

  /** Both permits are signed and the `modifyLiquidityWithPermit` call packs. */
  ghost predicate AddLiquidityPermitPacked(env: Env) {
    var p0 := LiquidityPermit(env, Currency0);
    var p1 := LiquidityPermit(env, Currency1);
    && p0.Signed? && p1.Signed?
    && Pack(env.encode, LPRouter, "modifyLiquidityWithPermit", AddLiquidityWithPermitArgs(env, p0.sig, p1.sig)).Some?
  }

  /** Every step of `AddLiquidityPermit` succeeds. */
  ghost predicate AddLiquidityPermitCompletes(env: Env) {
    && env.chain.chainId.Some?
    && AddLiquidityPermitTx(env).Some?
    && BalancesAt(env.chain, env.config.user, 0).Some?
    && Lands(env, AddLiquidityPermitTx(env).value, env.chain.chainId.value, env.config.serverKey)
    && BalancesAt(env.chain, env.config.user, 1).Some?
  }

  /** Both permits are requested for the user, the liquidity router, 10^20 and the same deadline. */
  ghost predicate PermitsAgree(env: Env, events: seq<Event>) {
    forall e :: e in events && e.PermitRequested? ==>
      && e.owner == env.config.user && e.spender == env.config.lpRouter
      && e.value == LiquidityPermitValue && e.deadline == PermitDeadline(env)
  }

  /** The request for one permit; `index` names the currency in the error answer. */
  function RequestPermit(env: Env, token: Address, index: nat): (r: Traced<PermitSig, Response>)
    ensures |r.events| > 0 && r.events[0] == PermitRequested(token, env.config.user, env.config.lpRouter, LiquidityPermitValue, PermitDeadline(env))
    ensures forall e :: e in r.events ==> !e.Packed? && !e.Submitted? && (e.PermitRequested? ==> e == r.events[0])
    ensures LiquidityPermit(env, token).PermitRefused? ==>
      r.result == Err(Failed(500, PermitFailed(index, LiquidityPermit(env, token).error)))
    ensures LiquidityPermit(env, token).SigningPanicked? ==> r.result == Err(Panicked)
    ensures LiquidityPermit(env, token).Signed? ==> r.result == Ok(LiquidityPermit(env, token).sig)
  {
    var events := [PermitRequested(token, env.config.user, env.config.lpRouter, LiquidityPermitValue, PermitDeadline(env))]
      + PermitQueries(env.chain, token, env.config.user);
    match LiquidityPermit(env, token)
    case PermitRefused(e) => Traced(Err(Failed(500, PermitFailed(index, e))), events)
    case SigningPanicked => Traced(Err(Panicked), events)
    case Signed(sig) => Traced(Ok(sig), events)
  }

  /**
   The two permits, `token0` first: the second is requested only when the
   first was signed. The outcome is the first one that is not signed, or
   both signatures.
   */
  function PermitPair(env: Env, token0: Address, token1: Address): (r: Traced<(PermitSig, PermitSig), Response>)
    ensures |r.events| > 0 && r.events[0] == PermitRequested(token0, env.config.user, env.config.lpRouter, LiquidityPermitValue, PermitDeadline(env))
    ensures PermitsAgree(env, r.events)
    ensures NoSubmission(r.events) && forall e :: e in r.events ==> !e.Packed?
    ensures !LiquidityPermit(env, token0).Signed? ==> r.result == Err(RequestPermit(env, token0, 0).result.error)
    ensures LiquidityPermit(env, token0).Signed? && !LiquidityPermit(env, token1).Signed? ==>
      r.result == Err(RequestPermit(env, token1, 1).result.error)
    ensures token0 != token1 ==>
      (PermitRequested(token1, env.config.user, env.config.lpRouter, LiquidityPermitValue, PermitDeadline(env)) in r.events
       <==> LiquidityPermit(env, token0).Signed?)
    ensures r.result.Ok? <==> LiquidityPermit(env, token0).Signed? && LiquidityPermit(env, token1).Signed?
    ensures r.result.Ok? ==> r.result.value == (LiquidityPermit(env, token0).sig, LiquidityPermit(env, token1).sig)
  {
    var first := RequestPermit(env, token0, 0);
    match first.result
    case Err(resp) => Traced(Err(resp), first.events)
    case Ok(sig0) =>
      var second := RequestPermit(env, token1, 1);
      assert second.events[0] in first.events + second.events;
      match second.result
      case Err(resp) => Traced(Err(resp), first.events + second.events)
      case Ok(sig1) => Traced(Ok((sig0, sig1)), first.events + second.events)
  }

  /** The handler asks for the currency1 permit exactly when the currency0 permit was signed. */
  lemma SecondPermitOnlyAfterFirst(env: Env)
    ensures PermitRequested(Currency1, env.config.user, env.config.lpRouter, LiquidityPermitValue, PermitDeadline(env))
              in PermitPair(env, Currency0, Currency1).events
            <==> LiquidityPermit(env, Currency0).Signed?
  {
    HardcodedCurrenciesOrdered(env.config.hook);
  }

  /**
   Once both permits are signed, the handler is the relay of the packed
   `modifyLiquidityWithPermit` call after the permits' events: it succeeds
   exactly when `AddLiquidityPermit` completes, and sends nothing but
   `AddLiquidityPermitTx`.
   */
  lemma SignedLiquidityPermitsRelay(env: Env, prefix: seq<Event>)
    requires NoSubmission(prefix)
    ensures LiquidityPermit(env, Currency0).Signed? && LiquidityPermit(env, Currency1).Signed? ==>
      var args := AddLiquidityWithPermitArgs(env, LiquidityPermit(env, Currency0).sig, LiquidityPermit(env, Currency1).sig);
      var o := PackAndRelay(env, LPRouter, "modifyLiquidityWithPermit", args, env.config.lpRouter, env.config.user);
      var events := prefix + o.events;
      && (o.resp.Reconciled? <==> AddLiquidityPermitCompletes(env))
      && (o.resp.Reconciled? ==>
            var before := BalancesAt(env.chain, env.config.user, 0).value;
            var after := BalancesAt(env.chain, env.config.user, 1).value;
            o.resp == Reconciled(env.crypto.signTx(AddLiquidityPermitTx(env).value, env.chain.chainId.value, env.config.serverKey).value,
                                 before, after, Delta(before, after)))
      && (NoSubmission(events) || (AddLiquidityPermitTx(env).Some? && OnlySubmits(events, AddLiquidityPermitTx(env).value)))
      && (o.resp.Reconciled? ==> Submitted(AddLiquidityPermitTx(env).value, o.resp.txHash) in events)
  {
    if LiquidityPermit(env, Currency0).Signed? && LiquidityPermit(env, Currency1).Signed? {
      var args := AddLiquidityWithPermitArgs(env, LiquidityPermit(env, Currency0).sig, LiquidityPermit(env, Currency1).sig);
      var data := Pack(env.encode, LPRouter, "modifyLiquidityWithPermit", args);
      assert AddLiquidityPermitTx(env) == if data.Some? then RelayTx(env, env.config.lpRouter, data.value) else None;
      var o := PackAndRelay(env, LPRouter, "modifyLiquidityWithPermit", args, env.config.lpRouter, env.config.user);
      TraceConcat(prefix, o.events);
    }
  }

  /**
   After both signed permits' events, the relay keeps its fail-fast
   promises and reads the user's balances before anything is submitted.
   */
  lemma SignedLiquidityPermitsFailFast(env: Env, prefix: seq<Event>)
    requires NoSubmission(prefix)
    ensures LiquidityPermit(env, Currency0).Signed? && LiquidityPermit(env, Currency1).Signed? ==>
      var args := AddLiquidityWithPermitArgs(env, LiquidityPermit(env, Currency0).sig, LiquidityPermit(env, Currency1).sig);
      var o := PackAndRelay(env, LPRouter, "modifyLiquidityWithPermit", args, env.config.lpRouter, env.config.user);
      var events := prefix + o.events;
      && RelayFailsFast(env, AddLiquidityPermitPacked(env), env.config.user, o.resp, events)
      && PrecedesSubmission(events, BalanceQuery(Currency0, env.config.user, 0))
      && PrecedesSubmission(events, BalanceQuery(Currency1, env.config.user, 0))
  {
    if LiquidityPermit(env, Currency0).Signed? && LiquidityPermit(env, Currency1).Signed? {
      var user := env.config.user;
      var args := AddLiquidityWithPermitArgs(env, LiquidityPermit(env, Currency0).sig, LiquidityPermit(env, Currency1).sig);
      var o := PackAndRelay(env, LPRouter, "modifyLiquidityWithPermit", args, env.config.lpRouter, user);
      assert AddLiquidityPermitPacked(env) == Pack(env.encode, LPRouter, "modifyLiquidityWithPermit", args).Some?;
      RelayFailsFastAfter(env, AddLiquidityPermitPacked(env), user, o.resp, prefix, o.events);
      PrecedesAcrossPrefix(prefix, o.events, BalanceQuery(Currency0, user, 0));
      PrecedesAcrossPrefix(prefix, o.events, BalanceQuery(Currency1, user, 0));
    }
  }

  /**
   `AddLiquidityPermit`: the user's permits for currency0 then currency1
   (value 10^20, one deadline now + 3600, spender the liquidity router),
   the pack of `modifyLiquidityWithPermit` with that deadline and both
   signatures, then the relay; the balances reported are the user's.
   */
  method AddLiquidityPermit(env: Env) returns (resp: Response, events: seq<Event>)
    ensures |events| > 0 && events[0] == PermitRequested(Currency0, env.config.user, env.config.lpRouter, 100000000000000000000, env.now + 3600)
    ensures PermitsAgree(env, events)
    ensures PermitPair(env, Currency0, Currency1).events <= events
    ensures PermitPair(env, Currency0, Currency1).result.Err? ==>
      resp == PermitPair(env, Currency0, Currency1).result.error && events == PermitPair(env, Currency0, Currency1).events
    ensures forall e :: e in events && e.Packed? ==>
      && LiquidityPermit(env, Currency0).Signed? && LiquidityPermit(env, Currency1).Signed?
      && e == Packed(LPRouter, "modifyLiquidityWithPermit",
                     AddLiquidityWithPermitArgs(env, LiquidityPermit(env, Currency0).sig, LiquidityPermit(env, Currency1).sig))
      && e.args[6] == UintV(env.now + 3600)
    ensures resp.Reconciled? <==> AddLiquidityPermitCompletes(env)
    ensures resp.Reconciled? ==>
      var before := BalancesAt(env.chain, env.config.user, 0).value;
      var after := BalancesAt(env.chain, env.config.user, 1).value;
      resp == Reconciled(env.crypto.signTx(AddLiquidityPermitTx(env).value, env.chain.chainId.value, env.config.serverKey).value,
                         before, after, Delta(before, after))
    ensures NoSubmission(events) || (AddLiquidityPermitTx(env).Some? && OnlySubmits(events, AddLiquidityPermitTx(env).value))
    ensures PrecedesSubmission(events, BalanceQuery(Currency0, env.config.user, 0))
    ensures PrecedesSubmission(events, BalanceQuery(Currency1, env.config.user, 0))
    ensures resp.Reconciled? ==> Submitted(AddLiquidityPermitTx(env).value, resp.txHash) in events
    ensures LiquidityPermit(env, Currency0).Signed? && LiquidityPermit(env, Currency1).Signed? ==>
      RelayFailsFast(env, AddLiquidityPermitPacked(env), env.config.user, resp, events)
    ensures resp == Panicked <==>
      || PermitPair(env, Currency0, Currency1).result == Err(Panicked)
      || (AddLiquidityPermitPacked(env) && BalancesAt(env.chain, env.config.user, 0).Some? && env.chain.chainId.None?)
    ensures BalancesAt(env.chain, env.config.user, 0).None? ==> NoSubmission(events)
    ensures resp.Failed? ==> resp.status == 500
    ensures resp.Failed? || resp.Reconciled? || resp == Panicked
  {
    var user := env.config.user;
    var permits := PermitPair(env, Currency0, Currency1);
    events := permits.events;
    if permits.result.Err? {
      return permits.result.error, events;
    }
    var (sig0, sig1) := permits.result.value;
    var args := AddLiquidityWithPermitArgs(env, sig0, sig1);
    SignedLiquidityPermitsRelay(env, events);
    SignedLiquidityPermitsFailFast(env, events);
    var rest := PackAndRelay(env, LPRouter, "modifyLiquidityWithPermit", args, env.config.lpRouter, user);
    events := events + rest.events;
    return rest.resp, events;
  }
}
