/**
 internal/handlers/approveTokens.go: the server account approves both
 routers to spend both hard-coded currencies, then reports its balance of
 each currency.
 */
module ApproveTokens {
  import opened Common
  import opened Crypto
  import opened Environment
  import opened EthereumUtils
  import opened Initialize

  /** The balances are read once the four approvals are mined: four transactions on. */
  const ApprovedEpoch: nat := 4

  /**
   One entry of the report: the balance, or the reason it could not be
   read. A failed read is reported in the entry and does not fail the
   request.
   */
  function ReportEntry(chain: Chain, token: Address, owner: Address): (entry: BalanceEntry)
    ensures entry.Approved? <==>
      token != ZeroAddress && owner != ZeroAddress &&
      chain.codeAt(token, ApprovedEpoch).Some? && |chain.codeAt(token, ApprovedEpoch).value| > 0 &&
      chain.balanceOf(token, owner, ApprovedEpoch).Some?
    ensures entry.Approved? ==> entry.balance == chain.balanceOf(token, owner, ApprovedEpoch).value
    ensures token == ZeroAddress ==> entry == BalanceUnavailable(ZeroTokenAddress)
    ensures token != ZeroAddress && chain.codeAt(token, ApprovedEpoch) == Some([]) && owner != ZeroAddress ==>
      entry == BalanceUnavailable(NoContractCode(token))
  {
    match GetBalance(chain, token, owner, ApprovedEpoch).result
    case Ok(b) => Approved(b)
    case Err(e) => BalanceUnavailable(e)
  }

  /** The report: one entry per currency, keyed by the currency. */
  function Report(chain: Chain, owner: Address, token0: Address, token1: Address): (r: map<Address, BalanceEntry>)
    ensures r.Keys == {token0, token1}
    ensures r[token1] == ReportEntry(chain, token1, owner)
    ensures token0 != token1 ==> r[token0] == ReportEntry(chain, token0, owner)
  {
    map[token0 := ReportEntry(chain, token0, owner)][token1 := ReportEntry(chain, token1, owner)]
  }

  /** The reads behind the report: currency0's balance read, then currency1's, after the approvals. */
  function BalanceReads(chain: Chain, owner: Address): seq<Event> {
    GetBalance(chain, Currency0, owner, ApprovedEpoch).events + GetBalance(chain, Currency1, owner, ApprovedEpoch).events
  }

  /** The balance reads after the approvals, currency0 then currency1, and the report they give. */
  function ReadReport(chain: Chain, owner: Address): (r: (map<Address, BalanceEntry>, seq<Event>))
    ensures r.0 == Report(chain, owner, Currency0, Currency1)
    ensures r.1 == BalanceReads(chain, owner)
    ensures Approvals(r.1) == []
    ensures forall e :: e in r.1 ==> (e.CodeQuery? || e.BalanceQuery?) && e.epoch == ApprovedEpoch
  {
    var read0 := GetBalance(chain, Currency0, owner, ApprovedEpoch);
    var read1 := GetBalance(chain, Currency1, owner, ApprovedEpoch);
    BalanceReadEvents(chain, Currency0, owner);
    BalanceReadEvents(chain, Currency1, owner);
    ApprovalsOfConcat(read0.events, read1.events);
    (Report(chain, owner, Currency0, Currency1), read0.events + read1.events)
  }

  lemma BalanceReadEvents(chain: Chain, token: Address, owner: Address)
    ensures var events := GetBalance(chain, token, owner, ApprovedEpoch).events;
      && Approvals(events) == []
      && forall e :: e in events ==> (e.CodeQuery? || e.BalanceQuery?) && e.epoch == ApprovedEpoch
  {
    var code := [CodeQuery(token, ApprovedEpoch)];
    var balance := [BalanceQuery(token, owner, ApprovedEpoch)];
    assert Approvals(code) == [];
    assert (code + balance)[..1] == code;
    assert Approvals(code + balance) == [];
  }

  /** Every approval of the plan for `from`, from its pending nonce on, is mined with success. */
  ghost predicate ApprovalsSucceed(env: Env, from: Address) {
    var plan := ApprovalPlan(Currency0, Currency1, env.config.swapRouter, env.config.lpRouter);
    && env.chain.pendingNonce(from).Some?
    && forall k :: 0 <= k < 4 ==> ApprovalSucceeds(env.chain, plan, env.chain.pendingNonce(from).value, k)
  }

  /** The transactor answers and all its approvals succeed. */
  ghost predicate AllApproved(env: Env) {
    CreateTransactor(env).result.Ok? && ApprovalsSucceed(env, CreateTransactor(env).result.value.from)
  }

  /**
   After the transactor: the four approvals (500 on the first error), then
   the report of the balances read once they are mined.
   */
  method ApproveAndReport(env: Env, from: Address) returns (resp: Response, events: seq<Event>)
    ensures resp.ApprovedBalances? <==> ApprovalsSucceed(env, from)
    ensures !resp.ApprovedBalances? ==> resp.Failed? && resp.status == 500 && resp.failure.ApprovalFailed?
    ensures resp.ApprovedBalances? ==>
      var plan := ApprovalPlan(Currency0, Currency1, env.config.swapRouter, env.config.lpRouter);
      var balanceReads := BalanceReads(env.chain, from);
      && resp.entries == Report(env.chain, from, Currency0, Currency1)
      && Approvals(events) == PlannedApprovals(plan, env.chain.pendingNonce(from).value)
      && |balanceReads| <= |events| && events[|events| - |balanceReads|..] == balanceReads
    ensures forall e :: e in events && (e.BalanceQuery? || e.CodeQuery?) ==> resp.ApprovedBalances? && e.epoch == ApprovedEpoch
    ensures NoSubmission(events)
  {
    var err, approvals := EthereumUtils.ApproveTokens(env.chain, from, Currency0, Currency1,
                                                      env.config.swapRouter, env.config.lpRouter);
    events := approvals;
    if err.Some? {
      return Failed(500, ApprovalFailed(err.value)), events;
    }
    var (entries, balanceReads) := ReadReport(env.chain, from);
    ApprovalsOfConcat(events, balanceReads);
    events := events + balanceReads;
    return ApprovedBalances(entries), events;
  }

  /**
   `ApproveTokens`: transactor (500 on error), the four approvals (500 on
   the first error), then a 200 whose body maps each currency to its
   balance or to the read error.
   */
  method ApproveTokens(env: Env) returns (resp: Response, events: seq<Event>)
    ensures CreateTransactor(env).result.Err? ==>
      resp == Failed(500, TransactorFailed(CreateTransactor(env).result.error)) && Approvals(events) == []
    ensures resp.ApprovedBalances? <==> AllApproved(env)
    ensures CreateTransactor(env).result.Ok? && !AllApproved(env) ==> resp.Failed? && resp.failure.ApprovalFailed?
    ensures resp.ApprovedBalances? ==>
      var from := CreateTransactor(env).result.value.from;
      var plan := ApprovalPlan(Currency0, Currency1, env.config.swapRouter, env.config.lpRouter);
      && resp.entries == Report(env.chain, from, Currency0, Currency1)
      && resp.entries.Keys == {Currency0, Currency1}
      && Approvals(events) == PlannedApprovals(plan, env.chain.pendingNonce(from).value)
      && var balanceReads := BalanceReads(env.chain, from);
         |balanceReads| <= |events| && events[|events| - |balanceReads|..] == balanceReads
    ensures forall e :: e in events && (e.BalanceQuery? || e.CodeQuery?) ==> resp.ApprovedBalances? && e.epoch == ApprovedEpoch
    ensures NoSubmission(events)
    ensures resp.Failed? ==> resp.status == 500
    ensures resp.Failed? || resp.ApprovedBalances?
  {
    var t := CreateTransactor(env);
    ApprovalsOfNone(t.events);
    if t.result.Err? {
      return Failed(500, TransactorFailed(t.result.error)), t.events;
    }
    var from := t.result.value.from;
    var rest;
    resp, rest := ApproveAndReport(env, from);
    ApprovalsOfConcat(t.events, rest);
    events := t.events + rest;
    assert events[|t.events|..] == rest;
  }
}
