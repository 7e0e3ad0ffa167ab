/**
 The steps every transaction handler repeats: reading the caller's
 balances of the two hard-coded currencies, signing and sending the
 transaction, and the balance delta it reports.
 */
module Reconcile {
  import opened Common
  import opened Crypto
  import opened Abi
  import opened Environment
  import opened EthereumUtils

  /**
   Reference definition: both balances can be read at this epoch, currency0
   through `GetBalance`'s guards and then currency1.
   */
  ghost function BalancesAt(chain: Chain, owner: Address, epoch: nat): Option<Balances> {
    var b0 := GetBalance(chain, Currency0, owner, epoch).result;
    var b1 := GetBalance(chain, Currency1, owner, epoch).result;
    if b0.Ok? && b1.Ok? then Some(Balances(b0.value, b1.value)) else None
  }

  /**
   `GetBalance(currency0, owner)` then `GetBalance(currency1, owner)`,
   stopping at the first error; the error names the currency (0 or 1).
   */
  function ReadBalances(chain: Chain, owner: Address, epoch: nat): (r: Traced<Balances, (nat, BalanceError)>)
    ensures r.result.Ok? <==> BalancesAt(chain, owner, epoch).Some?
    ensures r.result.Ok? ==> r.result.value == BalancesAt(chain, owner, epoch).value
    ensures r.result.Err? ==> r.result.error.0 < 2
    ensures r.result.Err? && r.result.error.0 == 0 ==>
      Err(r.result.error.1) == GetBalance(chain, Currency0, owner, epoch).result
    ensures r.result.Err? && r.result.error.0 == 1 ==>
      GetBalance(chain, Currency0, owner, epoch).result.Ok? &&
      Err(r.result.error.1) == GetBalance(chain, Currency1, owner, epoch).result
    ensures GetBalance(chain, Currency0, owner, epoch).result.Err? ==>
      r.events == GetBalance(chain, Currency0, owner, epoch).events
    ensures GetBalance(chain, Currency0, owner, epoch).result.Ok? ==>
      r.events == GetBalance(chain, Currency0, owner, epoch).events + GetBalance(chain, Currency1, owner, epoch).events
    ensures BalancesAt(chain, owner, epoch).Some? ==>
      BalanceQuery(Currency0, owner, epoch) in r.events && BalanceQuery(Currency1, owner, epoch) in r.events
    ensures forall e :: e in r.events ==> e.CodeQuery? || e.BalanceQuery?
    ensures forall e :: e in r.events && (e.CodeQuery? || e.BalanceQuery?) ==> e.epoch == epoch
  {
    var b0 := GetBalance(chain, Currency0, owner, epoch);
    match b0.result
    case Err(e) => Traced(Err((0, e)), b0.events)
    case Ok(v0) =>
      var b1 := GetBalance(chain, Currency1, owner, epoch);
      match b1.result
      case Err(e) => Traced(Err((1, e)), b0.events + b1.events)
      case Ok(v1) => Traced(Ok(Balances(v0, v1)), b0.events + b1.events)
  }

  /** `new(big.Int).Sub(after, before)` per currency: signed, so a decrease is negative. */
  function Delta(before: Balances, after: Balances): (d: Deltas)
    ensures before.currency0 + d.currency0 == after.currency0
    ensures before.currency1 + d.currency1 == after.currency1
    ensures d.currency0 < 0 <==> after.currency0 < before.currency0
    ensures d.currency1 < 0 <==> after.currency1 < before.currency1
  {
    Deltas(after.currency0 - before.currency0, after.currency1 - before.currency1)
  }

  /**
   Signing (EIP-155, bound to `chainId`) and `SendTransaction`. The signed
   transaction is handed to the node only when signing succeeded, and its
   hash is what the handler reports.
   */
  function SignAndSend(env: Env, tx: Tx, chainId: nat, key: PrivateKey): (r: Traced<Hash, Failure>)
    ensures env.crypto.signTx(tx, chainId, key).None? ==> r == Traced(Err(SignFailed), [])
    ensures env.crypto.signTx(tx, chainId, key).Some? ==>
      var h := env.crypto.signTx(tx, chainId, key).value;
      && r.events == [Submitted(tx, h)]
      && (r.result.Ok? <==> env.chain.send(tx, h))
      && (r.result.Ok? ==> r.result.value == h)
      && (r.result.Err? ==> r.result.error == SendFailed)
  {
    match env.crypto.signTx(tx, chainId, key)
    case None => Traced(Err(SignFailed), [])
    case Some(h) =>
      if env.chain.send(tx, h) then Traced(Ok(h), [Submitted(tx, h)])
      else Traced(Err(SendFailed), [Submitted(tx, h)])
  }

  /** The transaction goes through: it is signed and the node accepts it. */
  ghost predicate Lands(env: Env, tx: Tx, chainId: nat, key: PrivateKey) {
    var h := env.crypto.signTx(tx, chainId, key);
    h.Some? && env.chain.send(tx, h.value)
  }

  /** A handler's answer and the chain interactions behind it. */
  datatype Outcome = Outcome(resp: Response, events: seq<Event>)

  /**
   The tail every transaction handler shares once its transaction is built
   and the balances before it are known: sign, send, read both balances
   again (the chain now one transaction further) and answer with
   the hash, both pairs and after - before. Each failure answers 500.
   */
  function Settle(env: Env, tx: Tx, chainId: nat, key: PrivateKey, owner: Address, before: Balances): (o: Outcome)
    ensures OnlySubmits(o.events, tx)
    ensures env.crypto.signTx(tx, chainId, key).Some? ==>
      |o.events| > 0 && o.events[0] == Submitted(tx, env.crypto.signTx(tx, chainId, key).value)
    ensures o.resp.Reconciled? ==> Submitted(tx, o.resp.txHash) in o.events
    ensures forall e :: e in o.events ==> e.Submitted? || e.CodeQuery? || e.BalanceQuery?
    ensures o.resp.Reconciled? <==> Lands(env, tx, chainId, key) && BalancesAt(env.chain, owner, 1).Some?
    ensures o.resp.Reconciled? ==>
      var after := BalancesAt(env.chain, owner, 1).value;
      o.resp == Reconciled(env.crypto.signTx(tx, chainId, key).value, before, after, Delta(before, after))
    ensures !Lands(env, tx, chainId, key) ==> o.resp.Failed? && NoLaterReads(o.events)
    ensures o.resp.Failed? ==> o.resp.status == 500
    ensures o.resp.Failed? || o.resp.Reconciled?
  {
    var sent := SignAndSend(env, tx, chainId, key);
    match sent.result
    case Err(failure) => Outcome(Failed(500, failure), sent.events)
    case Ok(hash) =>
      var after := ReadBalances(env.chain, owner, 1);
      var events := sent.events + after.events;
      match after.result
      case Err((currency, cause)) => Outcome(Failed(500, BalanceAfterFailed(currency, cause)), events)
      case Ok(balances) => Outcome(Reconciled(hash, before, balances, Delta(before, balances)), events)
  }

  /**
   The transaction a handler holding a transactor submits: its nonce and gas
   price, no value, the handler's gas limit and the packed call. None when
   the call does not pack.
   */
  function TransactorTx(env: Env, nonce: nat, gasPrice: nat, gasLimit: nat,
                        contract: Contract, name: string, args: seq<AbiValue>, to: Address): Option<Tx> {
    match Pack(env.encode, contract, name, args)
    case None => None
    case Some(data) => Some(Tx(nonce, to, 0, gasLimit, gasPrice, data))
  }

  /**
   The part `Swap` and `AddLiquidity` share once they hold a transactor:
   read `from`'s balances, record the pack attempt, pack the call (500 if
   that fails) and settle the transaction the transactor signs.
   */
  function PackAndSettle(env: Env, from: Address, chainId: nat, nonce: nat, gasPrice: nat, gasLimit: nat,
                         contract: Contract, name: string, args: seq<AbiValue>, to: Address): (o: Outcome)
    ensures forall e :: e in o.events ==>
      e.Packed? || e.Submitted? || e.CodeQuery? || e.BalanceQuery?
    ensures BalancesAt(env.chain, from, 0).None? ==>
      && o.resp.Failed? && o.resp.failure.BalanceBeforeFailed? && NoSubmission(o.events)
      && forall e :: e in o.events ==> !e.Packed?
    ensures BalancesAt(env.chain, from, 0).Some? ==> Packed(contract, name, args) in o.events
    ensures BalancesAt(env.chain, from, 0).Some? && Pack(env.encode, contract, name, args).None? ==>
      o.resp == Failed(500, PackFailed) && NoSubmission(o.events)
    ensures var tx := TransactorTx(env, nonce, gasPrice, gasLimit, contract, name, args, to);
      && (o.resp.Reconciled? <==>
            && BalancesAt(env.chain, from, 0).Some?
            && tx.Some?
            && Lands(env, tx.value, chainId, env.config.serverKey)
            && BalancesAt(env.chain, from, 1).Some?)
      && (o.resp.Reconciled? ==>
            var before := BalancesAt(env.chain, from, 0).value;
            var after := BalancesAt(env.chain, from, 1).value;
            && o.resp == Reconciled(env.crypto.signTx(tx.value, chainId, env.config.serverKey).value,
                                    before, after, Delta(before, after))
            && Submitted(tx.value, o.resp.txHash) in o.events)
      && (NoSubmission(o.events) || (tx.Some? && OnlySubmits(o.events, tx.value)))
      && (tx.Some? && !Lands(env, tx.value, chainId, env.config.serverKey) ==>
            o.resp.Failed? && NoLaterReads(o.events))
    ensures PrecedesSubmission(o.events, BalanceQuery(Currency0, from, 0))
    ensures PrecedesSubmission(o.events, BalanceQuery(Currency1, from, 0))
    ensures o.resp.Failed? ==> o.resp.status == 500
    ensures o.resp.Failed? || o.resp.Reconciled?
  {
    var before := ReadBalances(env.chain, from, 0);
    match before.result
    case Err((currency, cause)) => Outcome(Failed(500, BalanceBeforeFailed(currency, cause)), before.events)
    case Ok(balances) =>
      var prefix := before.events + [Packed(contract, name, args)];
      assert forall e :: e in prefix ==> e.Packed? || e.CodeQuery? || e.BalanceQuery?;
      match Pack(env.encode, contract, name, args)
      case None => Outcome(Failed(500, PackFailed), prefix)
      case Some(data) =>
        var tx := Tx(nonce, to, 0, gasLimit, gasPrice, data);
        var settled := Settle(env, tx, chainId, env.config.serverKey, from, balances);
        PrecedesLaterSubmissions(prefix, BalanceQuery(Currency0, from, 0), settled.events);
        PrecedesLaterSubmissions(prefix, BalanceQuery(Currency1, from, 0), settled.events);
        Outcome(settled.resp, prefix + settled.events)
  }

  /**
   The transaction a permit handler relays with the server key: pending
   nonce of the keyed transactor's address, suggested gas price, no value,
   10^6 gas. None when the chain id, the transactor, the nonce or the gas
   price is missing.
   */
  ghost function RelayTx(env: Env, to: Address, data: Bytes): Option<Tx> {
    var from := KeyedTransactor(env.crypto, env.config.serverKey, env.chain.chainId);
    if from.Some? && env.chain.pendingNonce(from.value).Some? && env.chain.gasPrice.Some? then
      Some(Tx(env.chain.pendingNonce(from.value).value, to, 0, 1000000, env.chain.gasPrice.value, data))
    else None
  }

  /**
   From the keyed transactor on: a missing transactor is dereferenced (a
   panic); otherwise pending nonce of its address, suggested gas price, and
   the transaction signed for the chain id settles as usual.
   */
  function Dispatch(env: Env, to: Address, data: Bytes, owner: Address, before: Balances): (o: Outcome)
    ensures KeyedTransactor(env.crypto, env.config.serverKey, env.chain.chainId).None? ==> o == Outcome(Panicked, [])
    ensures KeyedTransactor(env.crypto, env.config.serverKey, env.chain.chainId).Some? ==>
      var from := KeyedTransactor(env.crypto, env.config.serverKey, env.chain.chainId).value;
      && o.resp != Panicked
      && (env.chain.pendingNonce(from).None? ==> o == Outcome(Failed(500, NonceQueryFailed), [PendingNonceQuery(from)]))
      && (env.chain.pendingNonce(from).Some? && env.chain.gasPrice.None? ==>
            o == Outcome(Failed(500, GasPriceQueryFailed), [PendingNonceQuery(from), GasPriceQuery]))
    ensures o.resp.Failed? ==> o.resp.status == 500
    ensures forall e :: e in o.events ==> !e.Packed? && !e.PermitRequested? && !e.ChainIdQuery?
    ensures o.resp.Reconciled? <==>
      && RelayTx(env, to, data).Some?
      && env.chain.chainId.Some?
      && Lands(env, RelayTx(env, to, data).value, env.chain.chainId.value, env.config.serverKey)
      && BalancesAt(env.chain, owner, 1).Some?
    ensures o.resp.Reconciled? ==>
      var after := BalancesAt(env.chain, owner, 1).value;
      o.resp == Reconciled(env.crypto.signTx(RelayTx(env, to, data).value, env.chain.chainId.value, env.config.serverKey).value,
                           before, after, Delta(before, after))
    ensures o.resp.Reconciled? ==> Submitted(RelayTx(env, to, data).value, o.resp.txHash) in o.events
    ensures NoSubmission(o.events) || (RelayTx(env, to, data).Some? && OnlySubmits(o.events, RelayTx(env, to, data).value))
    ensures o.resp.Failed? || o.resp.Reconciled? || o.resp == Panicked
  {
    match KeyedTransactor(env.crypto, env.config.serverKey, env.chain.chainId)
    case None => Outcome(Panicked, [])
    case Some(from) =>
      match env.chain.pendingNonce(from)
      case None => Outcome(Failed(500, NonceQueryFailed), [PendingNonceQuery(from)])
      case Some(nonce) =>
        var queried := [PendingNonceQuery(from), GasPriceQuery];
        match env.chain.gasPrice
        case None => Outcome(Failed(500, GasPriceQueryFailed), queried)
        case Some(price) =>
          var tx := Tx(nonce, to, 0, 1000000, price, data);
          var settled := Settle(env, tx, env.chain.chainId.value, env.config.serverKey, owner, before);
          Outcome(settled.resp, queried + settled.events)
  }

  /**
   The second half of both permit handlers. The chain id and the keyed
   transactor are obtained with their errors discarded, then the owner's
   balances are read before the transactor is first used.
   */
  function Relay(env: Env, to: Address, data: Bytes, owner: Address): (o: Outcome)
    ensures |o.events| > 0 && o.events[0] == ChainIdQuery
    ensures forall e :: e in o.events ==> !e.Packed? && !e.PermitRequested?
    ensures BalancesAt(env.chain, owner, 0).None? ==>
      o.resp.Failed? && o.resp.failure.BalanceBeforeFailed? && NoSubmission(o.events)
    ensures (BalancesAt(env.chain, owner, 0).Some? &&
             KeyedTransactor(env.crypto, env.config.serverKey, env.chain.chainId).None?) ==>
      o.resp == Panicked && NoSubmission(o.events) &&
      BalanceQuery(Currency0, owner, 0) in o.events && BalanceQuery(Currency1, owner, 0) in o.events
    ensures o.resp == Panicked <==> BalancesAt(env.chain, owner, 0).Some? && env.chain.chainId.None?
    ensures (BalancesAt(env.chain, owner, 0).Some? && env.chain.chainId.Some? &&
             env.chain.pendingNonce(AddressOf(env.crypto, env.config.serverKey)).None?) ==>
      o.resp == Failed(500, NonceQueryFailed) && NoSubmission(o.events)
    ensures (BalancesAt(env.chain, owner, 0).Some? && env.chain.chainId.Some? &&
             env.chain.pendingNonce(AddressOf(env.crypto, env.config.serverKey)).Some? && env.chain.gasPrice.None?) ==>
      o.resp == Failed(500, GasPriceQueryFailed) && NoSubmission(o.events)
    ensures o.resp.Failed? ==> o.resp.status == 500
    ensures o.resp.Reconciled? <==>
      && BalancesAt(env.chain, owner, 0).Some?
      && RelayTx(env, to, data).Some?
      && env.chain.chainId.Some?
      && Lands(env, RelayTx(env, to, data).value, env.chain.chainId.value, env.config.serverKey)
      && BalancesAt(env.chain, owner, 1).Some?
    ensures o.resp.Reconciled? ==>
      var before := BalancesAt(env.chain, owner, 0).value;
      var after := BalancesAt(env.chain, owner, 1).value;
      o.resp == Reconciled(env.crypto.signTx(RelayTx(env, to, data).value, env.chain.chainId.value, env.config.serverKey).value,
                           before, after, Delta(before, after))
    ensures o.resp.Reconciled? ==> Submitted(RelayTx(env, to, data).value, o.resp.txHash) in o.events
    ensures NoSubmission(o.events) || (RelayTx(env, to, data).Some? && OnlySubmits(o.events, RelayTx(env, to, data).value))
    ensures PrecedesSubmission(o.events, BalanceQuery(Currency0, owner, 0))
    ensures PrecedesSubmission(o.events, BalanceQuery(Currency1, owner, 0))
    ensures o.resp.Failed? || o.resp.Reconciled? || o.resp == Panicked
  {
    var before := ReadBalances(env.chain, owner, 0);
    var prefix := [ChainIdQuery] + before.events;
    assert forall e :: e in prefix ==> e.ChainIdQuery? || e.CodeQuery? || e.BalanceQuery?;
    match before.result
    case Err((currency, cause)) => Outcome(Failed(500, BalanceBeforeFailed(currency, cause)), prefix)
    case Ok(balances) =>
      var rest := Dispatch(env, to, data, owner, balances);
      PrecedesLaterSubmissions(prefix, BalanceQuery(Currency0, owner, 0), rest.events);
      PrecedesLaterSubmissions(prefix, BalanceQuery(Currency1, owner, 0), rest.events);
      Outcome(rest.resp, prefix + rest.events)
  }

  /**
   How the relay stops early, given whether the call packed: it panics
   exactly when the owner's balances were read and the chain id is missing
   (the keyed transactor is then nil); it answers 500 with nothing submitted
   when the balances, the pending nonce or the gas price is missing; every
   failure is a 500.
   */
  ghost predicate RelayFailsFast(env: Env, packs: bool, owner: Address, resp: Response, events: seq<Event>) {
    var from := AddressOf(env.crypto, env.config.serverKey);
    var read := BalancesAt(env.chain, owner, 0).Some?;
    && (resp == Panicked <==> packs && read && env.chain.chainId.None?)
    && (!read ==> resp.Failed? && NoSubmission(events))
    && (packs && !read ==> resp.failure.BalanceBeforeFailed?)
    && (packs && read && env.chain.chainId.Some? && env.chain.pendingNonce(from).None? ==>
          resp == Failed(500, NonceQueryFailed) && NoSubmission(events))
    && (packs && read && env.chain.chainId.Some? && env.chain.pendingNonce(from).Some? && env.chain.gasPrice.None? ==>
          resp == Failed(500, GasPriceQueryFailed) && NoSubmission(events))
    && (resp.Failed? ==> resp.status == 500)
  }

  /** Events recorded before the relay, none of them a submission, leave those promises intact. */
  lemma RelayFailsFastAfter(env: Env, packs: bool, owner: Address, resp: Response, prefix: seq<Event>, events: seq<Event>)
    requires NoSubmission(prefix)
    requires RelayFailsFast(env, packs, owner, resp, events)
    ensures RelayFailsFast(env, packs, owner, resp, prefix + events)
  {
    TraceConcat(prefix, events);
  }

  /**
   The permit handlers once their permits are signed: pack the call (the
   attempt is recorded), answer 500 if that fails, else relay it to `to`
   and report `owner`'s balances.
   */
  function PackAndRelay(env: Env, contract: Contract, name: string, args: seq<AbiValue>, to: Address, owner: Address): (o: Outcome)
    ensures |o.events| > 0 && o.events[0] == Packed(contract, name, args)
    ensures forall e :: e in o.events && e.Packed? ==> e == o.events[0]
    ensures forall e :: e in o.events ==> !e.PermitRequested?
    ensures var data := Pack(env.encode, contract, name, args);
      && (data.None? ==> o.resp == Failed(500, PackFailed) && NoSubmission(o.events))
      && RelayFailsFast(env, data.Some?, owner, o.resp, o.events)
      && (o.resp.Reconciled? <==>
            && data.Some?
            && BalancesAt(env.chain, owner, 0).Some?
            && RelayTx(env, to, data.value).Some?
            && env.chain.chainId.Some?
            && Lands(env, RelayTx(env, to, data.value).value, env.chain.chainId.value, env.config.serverKey)
            && BalancesAt(env.chain, owner, 1).Some?)
      && (o.resp.Reconciled? ==>
            var before := BalancesAt(env.chain, owner, 0).value;
            var after := BalancesAt(env.chain, owner, 1).value;
            o.resp == Reconciled(env.crypto.signTx(RelayTx(env, to, data.value).value,
                                                   env.chain.chainId.value, env.config.serverKey).value,
                                 before, after, Delta(before, after)))
      && (o.resp.Reconciled? ==> Submitted(RelayTx(env, to, data.value).value, o.resp.txHash) in o.events)
      && (NoSubmission(o.events) ||
            (data.Some? && RelayTx(env, to, data.value).Some? && OnlySubmits(o.events, RelayTx(env, to, data.value).value)))
    ensures PrecedesSubmission(o.events, BalanceQuery(Currency0, owner, 0))
    ensures PrecedesSubmission(o.events, BalanceQuery(Currency1, owner, 0))
    ensures o.resp.Failed? ==> o.resp.status == 500
    ensures o.resp.Failed? || o.resp.Reconciled? || o.resp == Panicked
  {
    var packed := [Packed(contract, name, args)];
    match Pack(env.encode, contract, name, args)
    case None => Outcome(Failed(500, PackFailed), packed)
    case Some(data) =>
      var relayed := Relay(env, to, data, owner);
      PrecedesAcrossPrefix(packed, relayed.events, BalanceQuery(Currency0, owner, 0));
      PrecedesAcrossPrefix(packed, relayed.events, BalanceQuery(Currency1, owner, 0));
      Outcome(relayed.resp, packed + relayed.events)
  }
}
