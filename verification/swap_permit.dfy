/**
 internal/handlers/swapPermit.go: a swap paid from the user's tokens,
 authorised by an EIP-2612 permit the user signs and relayed in one
 transaction signed with the server key.
 */
module SwapPermit {
  import opened Common
  import opened Crypto
  import opened Abi
  import opened Environment
  import opened EthereumUtils
  import opened Reconcile
  import opened Initialize
  import opened Swap

  /** A permit is valid for one hour from the moment the request computes it. */
  const PermitLifetime: nat := 3600

  function PermitDeadline(env: Env): nat {
    env.now + PermitLifetime
  }

  /** `amount * 11 / 10` on big integers: the amount raised by 10 %, rounded down. */
  function WithSlippage(amount: nat): (v: nat)
    ensures 10 * v <= 11 * amount < 10 * v + 10
  {
    amount * 11 / 10
  }

  /** The permit covers 11 000 000 base units for the 10 000 000 swapped. */
  lemma SwapPermitValue()
    ensures WithSlippage(AmountSpecified) == 11000000
  {
  }

  /** The user's permit for currency0 with the swap router as spender. */
  function SwapPermitSignature(env: Env): PermitOutcome {
    GeneratePermitSignature(env.crypto, env.chain, Currency0, env.config.user, env.config.swapRouter,
                            WithSlippage(AmountSpecified), PermitDeadline(env), env.config.userKey)
  }

  /** user, key, params, settings, hookData, deadline, v, r, s. */
  function SwapWithPermitArgs(env: Env, sig: PermitSig): (args: seq<AbiValue>)
    ensures |args| == 9
    ensures args[0] == AddressV(env.config.user)
    ensures args[1..5] == SwapArgs(env)
    ensures args[5] == UintV(PermitDeadline(env))
    ensures args[6..] == [UintV(sig.v), FixedBytesV(sig.r), FixedBytesV(sig.s)]
  {
    [AddressV(env.config.user)] + SwapArgs(env) +
    [UintV(PermitDeadline(env)), UintV(sig.v), FixedBytesV(sig.r), FixedBytesV(sig.s)]
  }

  /** deadline, v, r, s: the arguments after the swap's own, for any deadline below 2^256 and uint8 v. */
  lemma PermitTailConforms(deadline: nat, sig: PermitSig)
    requires sig.v < 256
    requires deadline < TwoTo256
    ensures Conforms([UintV(deadline), UintV(sig.v), FixedBytesV(sig.r), FixedBytesV(sig.s)],
                     [UintT(256), UintT(8), FixedBytesT(32), FixedBytesT(32)])
  {
    MaxUint256IsPowMinusOne();
    assert Pow(2, 8) == 256;
  }

  /**
   The arguments fit `swapWithPermit` in order and width, for every
   signature the permit code returns (v is a uint8) and every deadline
   below 2^256.
   */
  lemma SwapWithPermitConforms(env: Env, sig: PermitSig)
    requires sig.v < 256
    requires PermitDeadline(env) < TwoTo256
    ensures Conforms(SwapWithPermitArgs(env, sig), SwapWithPermitInputs)
  {
    var user := [AddressV(env.config.user)];
    var tail := [UintV(PermitDeadline(env)), UintV(sig.v), FixedBytesV(sig.r), FixedBytesV(sig.s)];
    var tailT := [UintT(256), UintT(8), FixedBytesT(32), FixedBytesT(32)];
    SwapArgsConform(env);
    PermitTailConforms(PermitDeadline(env), sig);
    assert Conforms(user, [AddressT]);
    ConformsConcat(user, [AddressT], SwapArgs(env), SwapInputs);
    ConformsConcat(user + SwapArgs(env), [AddressT] + SwapInputs, tail, tailT);
    assert SwapWithPermitArgs(env, sig) == user + SwapArgs(env) + tail;
    assert SwapWithPermitInputs == [AddressT] + SwapInputs + tailT;
  }

  /** So packing `swapWithPermit` only fails inside the encoder. */
  lemma SwapWithPermitPacks(env: Env, sig: PermitSig)
    requires sig.v < 256
    requires PermitDeadline(env) < TwoTo256
    ensures Pack(env.encode, SwapRouter, "swapWithPermit", SwapWithPermitArgs(env, sig))
         == env.encode(SwapRouter, "swapWithPermit", SwapWithPermitArgs(env, sig))
  {
    SwapWithPermitConforms(env, sig);
    MethodTable();
    ConformingArgumentsPack(env.encode, SwapRouter, "swapWithPermit", SwapWithPermitArgs(env, sig));
  }

  /** The relayed transaction: to the swap router, carrying the packed permit call. */
  ghost function SwapPermitTx(env: Env): Option<Tx> {
    var permit := SwapPermitSignature(env);
    if !permit.Signed? then None
    else
      match Pack(env.encode, SwapRouter, "swapWithPermit", SwapWithPermitArgs(env, permit.sig))
      case None => None
      case Some(data) => RelayTx(env, env.config.swapRouter, data)
  }

  /** The permit is signed and the `swapWithPermit` call packs. */
  ghost predicate SwapPermitPacked(env: Env) {
    var permit := SwapPermitSignature(env);
    permit.Signed? && Pack(env.encode, SwapRouter, "swapWithPermit", SwapWithPermitArgs(env, permit.sig)).Some?
  }

  /** Every step of `SwapPermit` succeeds. */
  ghost predicate SwapPermitCompletes(env: Env) {
    && env.chain.chainId.Some?
    && SwapPermitTx(env).Some?
    && BalancesAt(env.chain, env.config.user, 0).Some?
    && Lands(env, SwapPermitTx(env).value, env.chain.chainId.value, env.config.serverKey)
    && BalancesAt(env.chain, env.config.user, 1).Some?
  }

  /**
   Once the permit is signed, the handler is the relay of the packed
   `swapWithPermit` call after the permit's events: it succeeds exactly when
   `SwapPermit` completes, and sends nothing but `SwapPermitTx`.
   */
  lemma SignedSwapPermitRelays(env: Env, sig: PermitSig, prefix: seq<Event>)
    requires SwapPermitSignature(env) == Signed(sig)
    requires NoSubmission(prefix)
    ensures var o := PackAndRelay(env, SwapRouter, "swapWithPermit", SwapWithPermitArgs(env, sig),
                                  env.config.swapRouter, env.config.user);
      var events := prefix + o.events;
      && (o.resp.Reconciled? <==> SwapPermitCompletes(env))
      && (o.resp.Reconciled? ==>
            var before := BalancesAt(env.chain, env.config.user, 0).value;
            var after := BalancesAt(env.chain, env.config.user, 1).value;
            o.resp == Reconciled(env.crypto.signTx(SwapPermitTx(env).value, env.chain.chainId.value, env.config.serverKey).value,
                                 before, after, Delta(before, after)))
      && (NoSubmission(events) || (SwapPermitTx(env).Some? && OnlySubmits(events, SwapPermitTx(env).value)))
      && (o.resp.Reconciled? ==> Submitted(SwapPermitTx(env).value, o.resp.txHash) in events)
  {
    var data := Pack(env.encode, SwapRouter, "swapWithPermit", SwapWithPermitArgs(env, sig));
    assert SwapPermitTx(env) == if data.Some? then RelayTx(env, env.config.swapRouter, data.value) else None;
    var o := PackAndRelay(env, SwapRouter, "swapWithPermit", SwapWithPermitArgs(env, sig),
                          env.config.swapRouter, env.config.user);
    TraceConcat(prefix, o.events);
  }

  /**
   After the signed permit's events, the relay keeps its fail-fast promises
   and reads the user's balances before anything is submitted.
   */
  lemma SignedSwapPermitFailsFast(env: Env, sig: PermitSig, prefix: seq<Event>)
    requires SwapPermitSignature(env) == Signed(sig)
    requires NoSubmission(prefix)
    ensures var o := PackAndRelay(env, SwapRouter, "swapWithPermit", SwapWithPermitArgs(env, sig),
                                  env.config.swapRouter, env.config.user);
      var events := prefix + o.events;
      && RelayFailsFast(env, SwapPermitPacked(env), env.config.user, o.resp, events)
      && PrecedesSubmission(events, BalanceQuery(Currency0, env.config.user, 0))
      && PrecedesSubmission(events, BalanceQuery(Currency1, env.config.user, 0))
  {
    var user := env.config.user;
    var o := PackAndRelay(env, SwapRouter, "swapWithPermit", SwapWithPermitArgs(env, sig), env.config.swapRouter, user);
    assert SwapPermitPacked(env) == Pack(env.encode, SwapRouter, "swapWithPermit", SwapWithPermitArgs(env, sig)).Some?;
    RelayFailsFastAfter(env, SwapPermitPacked(env), user, o.resp, prefix, o.events);
    PrecedesAcrossPrefix(prefix, o.events, BalanceQuery(Currency0, user, 0));
    PrecedesAcrossPrefix(prefix, o.events, BalanceQuery(Currency1, user, 0));
  }

  /**
   `SwapPermit`: the user's permit for currency0 (value amount * 11 / 10,
   deadline now + 3600, spender the swap router), the pack of
   `swapWithPermit` with that same deadline and signature, then the relay;
   the balances reported are the user's.
   */
  method SwapPermit(env: Env) returns (resp: Response, events: seq<Event>)
    ensures |events| > 0 && events[0] == PermitRequested(Currency0, env.config.user, env.config.swapRouter, 11000000, env.now + 3600)
    ensures SwapPermitSignature(env).PermitRefused? ==>
      resp == Failed(500, PermitFailed(0, SwapPermitSignature(env).error)) && NoSubmission(events)
    ensures SwapPermitSignature(env).SigningPanicked? ==> resp == Panicked && NoSubmission(events)
    ensures forall e :: e in events && e.Packed? ==>
      && SwapPermitSignature(env).Signed?
      && e == Packed(SwapRouter, "swapWithPermit", SwapWithPermitArgs(env, SwapPermitSignature(env).sig))
      && e.args[5] == UintV(env.now + 3600)
    ensures resp.Reconciled? <==> SwapPermitCompletes(env)
    ensures resp.Reconciled? ==>
      var before := BalancesAt(env.chain, env.config.user, 0).value;
      var after := BalancesAt(env.chain, env.config.user, 1).value;
      resp == Reconciled(env.crypto.signTx(SwapPermitTx(env).value, env.chain.chainId.value, env.config.serverKey).value,
                         before, after, Delta(before, after))
    ensures NoSubmission(events) || (SwapPermitTx(env).Some? && OnlySubmits(events, SwapPermitTx(env).value))
    ensures PrecedesSubmission(events, BalanceQuery(Currency0, env.config.user, 0))
    ensures PrecedesSubmission(events, BalanceQuery(Currency1, env.config.user, 0))
    ensures resp.Reconciled? ==> Submitted(SwapPermitTx(env).value, resp.txHash) in events
    ensures SwapPermitSignature(env).Signed? ==>
      RelayFailsFast(env, SwapPermitPacked(env), env.config.user, resp, events)
    ensures resp == Panicked <==>
      || SwapPermitSignature(env).SigningPanicked?
      || (SwapPermitPacked(env) && BalancesAt(env.chain, env.config.user, 0).Some? && env.chain.chainId.None?)
    ensures BalancesAt(env.chain, env.config.user, 0).None? ==> NoSubmission(events)
    ensures resp.Failed? ==> resp.status == 500
    ensures resp.Failed? || resp.Reconciled? || resp == Panicked
  {
    var user := env.config.user;
    var value := WithSlippage(AmountSpecified);
    var deadline := PermitDeadline(env);
    SwapPermitValue();
    events := [PermitRequested(Currency0, user, env.config.swapRouter, value, deadline)]
      + PermitQueries(env.chain, Currency0, user);
    var permit := GeneratePermitSignature(env.crypto, env.chain, Currency0, user, env.config.swapRouter,
                                          value, deadline, env.config.userKey);
    if permit.PermitRefused? {
      return Failed(500, PermitFailed(0, permit.error)), events;
    }
    if permit.SigningPanicked? {
      return Panicked, events;
    }
    assert permit == SwapPermitSignature(env);
    assert forall e :: e in events ==> !e.Packed? && !e.Submitted?;
    SignedSwapPermitRelays(env, permit.sig, events);
    SignedSwapPermitFailsFast(env, permit.sig, events);
    var rest := PackAndRelay(env, SwapRouter, "swapWithPermit", SwapWithPermitArgs(env, permit.sig), env.config.swapRouter, user);
    events := events + rest.events;
    return rest.resp, events;
  }
}
