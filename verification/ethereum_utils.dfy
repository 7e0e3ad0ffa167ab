/**
 pkg/utils/ethereum_utils.go: the dependent approval sequence, the guarded
 balance read, the deployment check and the EIP-2612 permit signature.
 */
module EthereumUtils {
  import opened Common
  import opened Crypto
  import opened Environment

  // ---------------------------------------------------------------------
  // Balance reads
  // ---------------------------------------------------------------------

  /**
   `GetBalance(token, owner)`: both addresses must be non-zero (checked
   before any query), the token must have code, and only then is
   `balanceOf(owner)` called.
   */
  function GetBalance(chain: Chain, token: Address, owner: Address, epoch: nat): (r: Traced<nat, BalanceError>)
    ensures token == ZeroAddress ==> r == Traced(Err(ZeroTokenAddress), [])
    ensures token != ZeroAddress && owner == ZeroAddress ==> r == Traced(Err(ZeroOwnerAddress), [])
    ensures |r.events| > 0 ==> r.events[0] == CodeQuery(token, epoch)
    ensures r.events in {[], [CodeQuery(token, epoch)], [CodeQuery(token, epoch), BalanceQuery(token, owner, epoch)]}
    ensures BalanceQuery(token, owner, epoch) in r.events <==>
      token != ZeroAddress && owner != ZeroAddress &&
      chain.codeAt(token, epoch).Some? && |chain.codeAt(token, epoch).value| > 0
    ensures r.result.Ok? <==>
      token != ZeroAddress && owner != ZeroAddress &&
      chain.codeAt(token, epoch).Some? && |chain.codeAt(token, epoch).value| > 0 &&
      chain.balanceOf(token, owner, epoch).Some?
    ensures r.result.Ok? ==> r.result.value == chain.balanceOf(token, owner, epoch).value
    ensures chain.codeAt(token, epoch) == Some([]) && token != ZeroAddress && owner != ZeroAddress ==>
      r == Traced(Err(NoContractCode(token)), [CodeQuery(token, epoch)])
  {
    if token == ZeroAddress then Traced(Err(ZeroTokenAddress), [])
    else if owner == ZeroAddress then Traced(Err(ZeroOwnerAddress), [])
    else
      var codeRead := [CodeQuery(token, epoch)];
      match chain.codeAt(token, epoch)
      case None => Traced(Err(CodeQueryFailed), codeRead)
      case Some(code) =>
        if |code| == 0 then Traced(Err(NoContractCode(token)), codeRead)
        else
          var queried := [CodeQuery(token, epoch), BalanceQuery(token, owner, epoch)];
          match chain.balanceOf(token, owner, epoch)
          case None => Traced(Err(BalanceCallFailed), queried)
          case Some(balance) => Traced(Ok(balance), queried)
  }

  /** `CheckContractDeployment(address)`: the address must carry code. */
  function CheckContractDeployment(chain: Chain, address: Address, epoch: nat): (r: Traced<(), BalanceError>)
    ensures r.events == [CodeQuery(address, epoch)]
    ensures r.result.Ok? <==> chain.codeAt(address, epoch).Some? && |chain.codeAt(address, epoch).value| > 0
    ensures chain.codeAt(address, epoch) == Some([]) ==> r.result == Err(NoContractCode(address))
  {
    match chain.codeAt(address, epoch)
    case None => Traced(Err(CodeQueryFailed), [CodeQuery(address, epoch)])
    case Some(code) =>
      if |code| == 0 then Traced(Err(NoContractCode(address)), [CodeQuery(address, epoch)])
      else Traced(Ok(()), [CodeQuery(address, epoch)])
  }

  /**
   A balance that could be read was read from a deployed contract: the
   guard in `GetBalance` is the deployment check, made with the same query.
   */
  lemma BalanceReadImpliesDeployed(chain: Chain, token: Address, owner: Address, epoch: nat)
    requires GetBalance(chain, token, owner, epoch).result.Ok?
    ensures CheckContractDeployment(chain, token, epoch).result.Ok?
    ensures GetBalance(chain, token, owner, epoch).events[..1] == CheckContractDeployment(chain, token, epoch).events
  {
  }

  // ---------------------------------------------------------------------
  // Dependent approvals
  // ---------------------------------------------------------------------

  /** The (token, spender) pairs in the order the nested loops visit them. */
  function ApprovalPlan(currency0: Address, currency1: Address, swapRouter: Address, lpRouter: Address): seq<(Address, Address)> {
    [(currency0, swapRouter), (currency0, lpRouter), (currency1, swapRouter), (currency1, lpRouter)]
  }

  /** The approvals a fully successful run submits: the k-th with nonce n + k, each for 2^256 - 1. */
  function PlannedApprovals(plan: seq<(Address, Address)>, n: nat): (s: seq<Event>)
    ensures |s| == |plan|
  {
    seq(|plan|, k requires 0 <= k < |plan| => ApprovalAttempted(plan[k].0, plan[k].1, MaxUint256, n + k))
  }

  /** An approval of 2^256 - 1 with this nonce is submitted, mined, and its receipt has a non-zero status. */
  ghost predicate ApprovalMined(chain: Chain, token: Address, spender: Address, nonce: nat) {
    var tx := chain.approve(token, spender, MaxUint256, nonce);
    tx.Some? && chain.waitMined(tx.value).Some? && chain.waitMined(tx.value).value != 0
  }

  /** The k-th planned approval succeeds. */
  ghost predicate ApprovalSucceeds(chain: Chain, plan: seq<(Address, Address)>, n: nat, k: nat)
    requires k < |plan|
  {
    ApprovalMined(chain, plan[k].0, plan[k].1, n + k)
  }

  /** The approvals recorded in a trace, in order. */
  function Approvals(events: seq<Event>): (s: seq<Event>)
    ensures |s| <= |events|
  {
    if |events| == 0 then []
    else
      var last := events[|events| - 1];
      Approvals(events[..|events| - 1]) + (if last.ApprovalAttempted? then [last] else [])
  }

  lemma {:induction false} ApprovalsOfConcat(a: seq<Event>, b: seq<Event>)
    ensures Approvals(a + b) == Approvals(a) + Approvals(b)
    decreases |b|
  {
    if |b| == 0 {
      assert a + b == a;
    } else {
      var b' := b[..|b| - 1];
      assert (a + b)[..|a + b| - 1] == a + b';
      ApprovalsOfConcat(a, b');
    }
  }

  /** A trace without approval events records no approvals. */
  lemma {:induction false} ApprovalsOfNone(events: seq<Event>)
    requires forall e :: e in events ==> !e.ApprovalAttempted?
    ensures Approvals(events) == []
    decreases |events|
  {
    if |events| > 0 {
      assert forall e :: e in events[..|events| - 1] ==> e in events;
      ApprovalsOfNone(events[..|events| - 1]);
    }
  }

  /**
   One iteration of the approval loop: `token.Approve(auth, spender, max)`,
   then `bind.WaitMined`, then the receipt status check.
   */
  method SubmitApproval(chain: Chain, token: Address, spender: Address, nonce: nat)
    returns (err: Option<ApproveError>, events: seq<Event>)
    ensures Approvals(events) == [ApprovalAttempted(token, spender, MaxUint256, nonce)]
    ensures forall e :: e in events ==> e.ApprovalAttempted? || e.MinedWait?
    ensures err.None? <==> ApprovalMined(chain, token, spender, nonce)
    ensures chain.approve(token, spender, MaxUint256, nonce).None? ==> err == Some(ApproveCallFailed(token, spender))
  {
    events := [ApprovalAttempted(token, spender, MaxUint256, nonce)];
    var tx := chain.approve(token, spender, MaxUint256, nonce);
    if tx.None? {
      return Some(ApproveCallFailed(token, spender)), events;
    }
    ApprovalsOfConcat(events, [MinedWait(tx.value)]);
    events := events + [MinedWait(tx.value)];
    var receipt := chain.waitMined(tx.value);
    if receipt.None? {
      return Some(WaitMinedFailed(token, spender)), events;
    }
    if receipt.value == 0 {
      return Some(ApprovalReverted(token, spender)), events;
    }
    return None, events;
  }

  /**
   The nested loops of `ApproveTokens`: the plan's approvals in order, the
   k-th with nonce n + k, until the first one that fails.
   */
  method ApproveInOrder(chain: Chain, plan: seq<(Address, Address)>, n: nat)
    returns (err: Option<ApproveError>, events: seq<Event>)
    ensures forall i :: 0 <= i < |events| ==> events[i].ApprovalAttempted? || events[i].MinedWait?
    ensures var done := Approvals(events);
      && |done| <= |plan|
      && done == PlannedApprovals(plan, n)[..|done|]
      && (err.None? <==> forall k :: 0 <= k < |plan| ==> ApprovalSucceeds(chain, plan, n, k))
      && (err.None? ==> done == PlannedApprovals(plan, n))
      && (err.Some? ==>
            |done| > 0 &&
            (forall k :: 0 <= k < |done| - 1 ==> ApprovalSucceeds(chain, plan, n, k)) &&
            !ApprovalSucceeds(chain, plan, n, |done| - 1))
  {
    ghost var planned := PlannedApprovals(plan, n);
    events := [];
    var nonce := n;
    var k := 0;
    while k < |plan|
      invariant 0 <= k <= |plan|
      invariant nonce == n + k
      invariant forall i :: 0 <= i < |events| ==> events[i].ApprovalAttempted? || events[i].MinedWait?
      invariant Approvals(events) == planned[..k]
      invariant forall j :: 0 <= j < k ==> ApprovalSucceeds(chain, plan, n, j)
    {
      var (token, router) := plan[k];
      var stepErr, step := SubmitApproval(chain, token, router, nonce);
      ApprovalsOfConcat(events, step);
      assert forall j :: 0 <= j < |step| ==> step[j] in step;
      events := events + step;
      assert planned[..k + 1] == planned[..k] + [planned[k]];
      if stepErr.Some? {
        assert !ApprovalSucceeds(chain, plan, n, k);
        return stepErr, events;
      }
      nonce := nonce + 1;
      k := k + 1;
    }
    return None, events;
  }

  /**
   `ApproveTokens(auth, currency0, currency1)`: reads the pending nonce once,
   then for each currency and each router submits an approval of 2^256 - 1
   with a locally incremented nonce and waits for it to be mined; the first
   error, or a receipt with status 0, ends the sequence.
   */
  method ApproveTokens(chain: Chain, from: Address, currency0: Address, currency1: Address,
                       swapRouter: Address, lpRouter: Address)
    returns (err: Option<ApproveError>, events: seq<Event>)
    ensures chain.pendingNonce(from).None? ==>
      err == Some(ApprovalNonceFailed) && events == [PendingNonceQuery(from)]
    ensures |events| > 0 && events[0] == PendingNonceQuery(from)
    ensures forall e :: e in events ==> e.PendingNonceQuery? || e.ApprovalAttempted? || e.MinedWait?
    ensures forall i :: 0 < i < |events| ==> !events[i].PendingNonceQuery?
    ensures chain.pendingNonce(from).Some? ==>
      var n := chain.pendingNonce(from).value;
      var plan := ApprovalPlan(currency0, currency1, swapRouter, lpRouter);
      var done := Approvals(events);
      && |done| <= 4
      && done == PlannedApprovals(plan, n)[..|done|]
      && (err.None? <==> forall k :: 0 <= k < 4 ==> ApprovalSucceeds(chain, plan, n, k))
      && (err.None? ==> done == PlannedApprovals(plan, n))
      && (err.Some? ==>
            |done| > 0 &&
            (forall k :: 0 <= k < |done| - 1 ==> ApprovalSucceeds(chain, plan, n, k)) &&
            !ApprovalSucceeds(chain, plan, n, |done| - 1))
  {
    events := [PendingNonceQuery(from)];
    var pending := chain.pendingNonce(from);
    if pending.None? {
      return Some(ApprovalNonceFailed), events;
    }
    var plan := ApprovalPlan(currency0, currency1, swapRouter, lpRouter);
    var approvals;
    err, approvals := ApproveInOrder(chain, plan, pending.value);
    ApprovalsOfNone(events);
    ApprovalsOfConcat(events, approvals);
    assert forall i :: 0 < i < |events + approvals| ==> (events + approvals)[i] == approvals[i - 1];
    events := events + approvals;
  }

  // ---------------------------------------------------------------------
  // EIP-2612 permit signature (section "Specification" of EIP-712 for the
  // final encoding)
  // ---------------------------------------------------------------------

  const PermitTypeString: string := "Permit(address owner,address spender,uint256 value,uint256 nonce,uint256 deadline)"

  /** keccak256 of the Permit type string. */
  function PermitTypehash(c: Primitives): Hash {
    c.keccak(Ascii(PermitTypeString))
  }

  /** The bytes hashed into the permit struct hash. */
  function StructPreimage(typehash: Hash, owner: Address, spender: Address, value: nat, nonce: nat, deadline: nat): Bytes {
    typehash + LeftPadBytes(owner, 32) + LeftPadBytes(spender, 32) + Word(value) + Word(nonce) + Word(deadline)
  }

  /** The bytes hashed into the signed digest: 0x19 0x01 ‖ domainSeparator ‖ structHash. */
  function DigestPreimage(domainSeparator: Hash, structHash: Hash): Bytes {
    [0x19, 0x01] + domainSeparator + structHash
  }

  /** The digest a permit signature signs, for a given domain separator and permit nonce. */
  function PermitDigest(c: Primitives, domainSeparator: Hash, owner: Address, spender: Address,
                        value: nat, nonce: nat, deadline: nat): Hash {
    var structHash := c.keccak(StructPreimage(PermitTypehash(c), owner, spender, value, nonce, deadline));
    c.keccak(DigestPreimage(domainSeparator, structHash))
  }

  /**
   The struct-hash preimage is 192 bytes: the typehash, then owner and
   spender left-padded with twelve zero bytes, then value, nonce and deadline
   as 32-byte big-endian words, each of which decodes back to its field.
   */
  lemma StructPreimageLayout(typehash: Hash, owner: Address, spender: Address, value: nat, nonce: nat, deadline: nat)
    requires value <= MaxUint256 && nonce <= MaxUint256 && deadline <= MaxUint256
    ensures var p := StructPreimage(typehash, owner, spender, value, nonce, deadline);
      && |p| == 192
      && p[..32] == typehash
      && p[32..44] == Zeros(12) && p[44..64] == owner
      && p[64..76] == Zeros(12) && p[76..96] == spender
      && BytesToNat(p[96..128]) == value
      && BytesToNat(p[128..160]) == nonce
      && BytesToNat(p[160..192]) == deadline
  {
    WordRoundTrip(value);
    WordRoundTrip(nonce);
    WordRoundTrip(deadline);
    var p := StructPreimage(typehash, owner, spender, value, nonce, deadline);
    var po := LeftPadBytes(owner, 32);
    var ps := LeftPadBytes(spender, 32);
    assert po == Zeros(12) + owner;
    assert ps == Zeros(12) + spender;
    assert p == typehash + po + ps + Word(value) + Word(nonce) + Word(deadline);
    assert p[..32] == typehash;
    assert p[32..64] == po;
    assert p[64..96] == ps;
    assert p[96..128] == Word(value);
    assert p[128..160] == Word(nonce);
    assert p[160..192] == Word(deadline);
    assert p[32..44] == po[..12];
    assert p[44..64] == po[12..];
    assert p[64..76] == ps[..12];
    assert p[76..96] == ps[12..];
  }

  /** The digest preimage is 66 bytes: 0x19, 0x01, the domain separator, the struct hash. */
  lemma DigestPreimageLayout(domainSeparator: Hash, structHash: Hash)
    ensures var p := DigestPreimage(domainSeparator, structHash);
      |p| == 66 && p[0] == 0x19 && p[1] == 0x01 && p[2..34] == domainSeparator && p[34..66] == structHash
  {
    var p := DigestPreimage(domainSeparator, structHash);
    assert p[2..34] == domainSeparator;
    assert p[34..66] == structHash;
  }

  /** A permit authorization as returned: v = recovery id + 27 (as a uint8), r and s. */
  datatype PermitSig = PermitSig(v: nat, r: Hash, s: Hash)

  datatype PermitOutcome =
    | Signed(sig: PermitSig)
    | PermitRefused(error: PermitError)
    /** The signing error was only logged; indexing the nil signature then panics. */
    | SigningPanicked

  /** `v := signature[64] + 27` (uint8 arithmetic), `r := signature[:32]`, `s := signature[32:64]`. */
  function SplitSignature(raw: Signature65): PermitSig {
    PermitSig((raw[64] as int + 27) % 256, raw[..32], raw[32..64])
  }

  /** r ‖ s ‖ (v - 27): the 65-byte form `crypto.Sign` produced. */
  function JoinSignature(sig: PermitSig): Bytes {
    sig.r + sig.s + [(sig.v - 27) % 256]
  }

  /** Splitting loses nothing: joining the parts gives the raw signature back. */
  lemma SplitJoinRoundTrip(raw: Signature65)
    ensures JoinSignature(SplitSignature(raw)) == raw
    ensures raw[64] < 2 ==> SplitSignature(raw).v == raw[64] + 27
  {
    var b: int := raw[64];
    var v := (b + 27) % 256;
    if b + 27 < 256 {
      assert v - 27 == b;
    } else {
      assert v == b + 27 - 256;
      assert (v - 27) % 256 == b;
    }
    assert raw == raw[..32] + raw[32..64] + [raw[64]];
  }

  /** The queries `GeneratePermitSignature` makes: the permit nonce, then (if that succeeded) the domain separator. */
  function PermitQueries(chain: Chain, token: Address, owner: Address): seq<Event> {
    if chain.permitNonce(token, owner).None? then [PermitNonceQuery(token, owner)]
    else [PermitNonceQuery(token, owner), DomainSeparatorQuery(token)]
  }

  /**
   `GeneratePermitSignature(token, owner, spender, value, deadline, key)`.
   The token's current permit nonce is required; a failed domain-separator
   fetch is only logged and the all-zero separator is signed over instead.
   */
  function GeneratePermitSignature(c: Primitives, chain: Chain, token: Address, owner: Address,
                                   spender: Address, value: nat, deadline: nat, key: PrivateKey): (o: PermitOutcome)
    ensures chain.permitNonce(token, owner).None? ==> o == PermitRefused(PermitNonceFailed)
    ensures chain.permitNonce(token, owner).Some? ==>
      var nonce := chain.permitNonce(token, owner).value;
      var separator := if chain.domainSeparator(token).Some? then chain.domainSeparator(token).value else ZeroHash;
      var raw := c.sign(PermitDigest(c, separator, owner, spender, value, nonce, deadline), key);
      && (o.SigningPanicked? <==> raw.None?)
      && (o.Signed? <==> raw.Some?)
      && (o.Signed? ==> JoinSignature(o.sig) == raw.value)
      && (o.Signed? && raw.value[64] < 2 ==> o.sig.v == 27 || o.sig.v == 28)
    ensures o.Signed? ==> o.sig.v < 256
  {
    match chain.permitNonce(token, owner)
    case None => PermitRefused(PermitNonceFailed)
    case Some(nonce) =>
      var separator := chain.domainSeparator(token).GetOr(ZeroHash);
      var digest := PermitDigest(c, separator, owner, spender, value, nonce, deadline);
      match c.sign(digest, key)
      case None => SigningPanicked
      case Some(raw) =>
        SplitJoinRoundTrip(raw);
        Signed(SplitSignature(raw))
  }

  /**
   The permit outcome depends on the chain only through the token's permit
   nonce and domain separator, and on the signing key only through `sign`:
   the re-hash of the permit fields and the signer recovery it logs do not
   influence what is returned.
   */
  lemma PermitDependsOnlyOnNonceAndSeparator(c: Primitives, c': Primitives, chain: Chain, chain': Chain,
                                             token: Address, owner: Address, spender: Address,
                                             value: nat, deadline: nat, key: PrivateKey)
    requires c'.keccak == c.keccak && c'.sign == c.sign
    requires chain'.permitNonce(token, owner) == chain.permitNonce(token, owner)
    requires chain'.domainSeparator(token) == chain.domainSeparator(token)
    ensures GeneratePermitSignature(c', chain', token, owner, spender, value, deadline, key)
         == GeneratePermitSignature(c, chain, token, owner, spender, value, deadline, key)
  {
  }
}
