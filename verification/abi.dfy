/**
 The contract-call encoder as far as the program depends on it.

 `abi.ABI.Pack(name, args...)` looks the method up by name, refuses an
 argument list whose length or kinds do not match the method's inputs, and
 otherwise encodes. The encoding itself is go-ethereum's and stays abstract
 (the `encode` parameter); the lookup and the arity/kind check are modelled,
 because go-ethereum gives overloaded methods of one ABI distinct names (the
 first declaration keeps the bare name, later ones get "0", "1", ...), and the
 routers' ABIs in internal/ethereum/contracts.go overload `modifyLiquidity`.
 */
module Abi {
  import opened Common

  datatype AbiType =
    | AddressT
    | UintT(bits: nat)
    | IntT(bits: nat)
    | BoolT
    | BytesT
    | FixedBytesT(size: nat)
    | TupleT(components: seq<AbiType>)

  datatype AbiValue =
    | AddressV(address: Address)
    | UintV(unsigned: nat)
    | IntV(signed: int)
    | BoolV(flag: bool)
    | BytesV(bytes: Bytes)
    | FixedBytesV(fixed: Bytes)
    | TupleV(fields: seq<AbiValue>)

  /** The kind check `Pack` performs: shape and fixed sizes, not value ranges. */
  predicate Matches(v: AbiValue, t: AbiType)
    decreases t
  {
    match t
    case AddressT => v.AddressV?
    case UintT(_) => v.UintV?
    case IntT(_) => v.IntV?
    case BoolT => v.BoolV?
    case BytesT => v.BytesV?
    case FixedBytesT(n) => v.FixedBytesV? && |v.fixed| == n
    case TupleT(ts) =>
      v.TupleV? && |v.fields| == |ts| &&
      forall i :: 0 <= i < |ts| ==> Matches(v.fields[i], ts[i])
  }

  /** Every number is representable in its declared width, so nothing is truncated. */
  predicate InRange(v: AbiValue, t: AbiType)
    decreases t
  {
    match t
    case UintT(bits) => v.UintV? ==> v.unsigned < Pow(2, bits)
    case IntT(bits) =>
      v.IntV? ==> bits > 0 && -(Pow(2, bits - 1) as int) <= v.signed < Pow(2, bits - 1)
    case TupleT(ts) =>
      v.TupleV? && |v.fields| == |ts| ==>
        forall i :: 0 <= i < |ts| ==> InRange(v.fields[i], ts[i])
    case _ => true
  }

  /** An argument list that `Pack` accepts and encodes without loss. */
  predicate Conforms(args: seq<AbiValue>, inputs: seq<AbiType>) {
    |args| == |inputs| &&
    forall i :: 0 <= i < |args| ==> Matches(args[i], inputs[i]) && InRange(args[i], inputs[i])
  }

  /** A tuple conforms to a tuple type when its fields conform to the components. */
  lemma TupleConforms(fields: seq<AbiValue>, ts: seq<AbiType>)
    requires Conforms(fields, ts)
    ensures Matches(TupleV(fields), TupleT(ts)) && InRange(TupleV(fields), TupleT(ts))
  {
  }

  /** Conforming argument lists concatenate. */
  lemma ConformsConcat(a: seq<AbiValue>, ta: seq<AbiType>, b: seq<AbiValue>, tb: seq<AbiType>)
    requires Conforms(a, ta) && Conforms(b, tb)
    ensures Conforms(a + b, ta + tb)
  {
    forall i | 0 <= i < |a + b|
      ensures Matches((a + b)[i], (ta + tb)[i]) && InRange((a + b)[i], (ta + tb)[i])
    {
      if i >= |a| {
        assert (a + b)[i] == b[i - |a|] && (ta + tb)[i] == tb[i - |a|];
      }
    }
  }

  // ---------------------------------------------------------------------
  // The methods the program calls, as declared in internal/ethereum/contracts.go
  // ---------------------------------------------------------------------

  datatype Contract = Manager | SwapRouter | LPRouter

  datatype MethodDecl = MethodDecl(rawName: string, inputs: seq<AbiType>)

  /** struct PoolKey { currency0, currency1, uint24 fee, int24 tickSpacing, hooks } */
  const PoolKeyT: AbiType := TupleT([AddressT, AddressT, UintT(24), IntT(24), AddressT])
  /** struct IPoolManager.SwapParams { bool zeroForOne, int256 amountSpecified, uint160 sqrtPriceLimitX96 } */
  const SwapParamsT: AbiType := TupleT([BoolT, IntT(256), UintT(160)])
  /** struct PoolSwapTest.TestSettings { bool takeClaims, bool settleUsingBurn } */
  const TestSettingsT: AbiType := TupleT([BoolT, BoolT])
  /** struct IPoolManager.ModifyLiquidityParams { int24 tickLower, int24 tickUpper, int256 liquidityDelta, bytes32 salt } */
  const ModifyLiquidityParamsT: AbiType := TupleT([IntT(24), IntT(24), IntT(256), FixedBytesT(32)])

  const InitializeInputs: seq<AbiType> := [PoolKeyT, UintT(160), BytesT]
  const SwapInputs: seq<AbiType> := [PoolKeyT, SwapParamsT, TestSettingsT, BytesT]
  const SwapWithPermitInputs: seq<AbiType> :=
    [AddressT, PoolKeyT, SwapParamsT, TestSettingsT, BytesT,
     UintT(256), UintT(8), FixedBytesT(32), FixedBytesT(32)]
  /** The first `modifyLiquidity` of the liquidity router: with settleUsingBurn and takeClaims. */
  const ModifyLiquiditySettleInputs: seq<AbiType> :=
    [PoolKeyT, ModifyLiquidityParamsT, BytesT, BoolT, BoolT]
  /** The second `modifyLiquidity` of the liquidity router: key, params, hookData only. */
  const ModifyLiquidityInputs: seq<AbiType> := [PoolKeyT, ModifyLiquidityParamsT, BytesT]
  const ModifyLiquidityWithPermitInputs: seq<AbiType> :=
    [AddressT, PoolKeyT, ModifyLiquidityParamsT, BytesT, BoolT, BoolT,
     UintT(256), UintT(8), FixedBytesT(32), FixedBytesT(32),
     UintT(8), FixedBytesT(32), FixedBytesT(32)]

  /** The called methods of each contract, in declaration order. */
  function Declarations(c: Contract): seq<MethodDecl> {
    match c
    case Manager => [MethodDecl("initialize", InitializeInputs)]
    case SwapRouter =>
      [MethodDecl("swap", SwapInputs), MethodDecl("swapWithPermit", SwapWithPermitInputs)]
    case LPRouter =>
      [MethodDecl("modifyLiquidity", ModifyLiquiditySettleInputs),
       MethodDecl("modifyLiquidity", ModifyLiquidityInputs),
       MethodDecl("modifyLiquidityWithPermit", ModifyLiquidityWithPermitInputs)]
  }

  /** Decimal digits of a natural number. */
  function DecimalString(n: nat): (s: string)
    ensures |s| > 0
    decreases n
  {
    var digit := ['0' + (n % 10) as char];
    if n < 10 then digit else DecimalString(n / 10) + digit
  }

  /**
   go-ethereum's `abi.ResolveNameConflict`: the raw name if unused, otherwise
   the first of raw+"0", raw+"1", ... that is unused. The search is cut off
   after |used| + 1 candidates; `FreeNameIsFresh` shows the cut-off never
   changes the answer.
   */
  function FreeName(raw: string, used: seq<string>): string {
    if raw !in used then raw else SuffixedName(raw, used, 0)
  }

  function SuffixedName(raw: string, used: seq<string>, idx: nat): string
    decreases |used| - idx
  {
    var candidate := raw + DecimalString(idx);
    if candidate !in used || idx >= |used| then candidate
    else SuffixedName(raw, used, idx + 1)
  }

  /** Distinct numbers have distinct decimal strings. */
  lemma {:induction false} DecimalStringInjective(a: nat, b: nat)
    requires DecimalString(a) == DecimalString(b)
    ensures a == b
    decreases a
  {
    var sa := DecimalString(a);
    if a < 10 && b < 10 {
      assert sa[0] == '0' + (a % 10) as char;
    } else if a < 10 || b < 10 {
      assert false;
    } else {
      assert sa[|sa| - 1] == '0' + (a % 10) as char;
      assert sa[|sa| - 1] == '0' + (b % 10) as char;
      assert sa[..|sa| - 1] == DecimalString(a / 10);
      assert sa[..|sa| - 1] == DecimalString(b / 10);
      DecimalStringInjective(a / 10, b / 10);
    }
  }

  /** The first n suffixed candidates: raw+"0", ..., raw+DecimalString(n - 1). */
  function Candidates(raw: string, n: nat): set<string>
    decreases n
  {
    if n == 0 then {} else Candidates(raw, n - 1) + {raw + DecimalString(n - 1)}
  }

  lemma {:induction false} CandidateBelow(raw: string, n: nat, i: nat)
    ensures raw + DecimalString(i) in Candidates(raw, n) <==> i < n
    decreases n
  {
    if n > 0 {
      CandidateBelow(raw, n - 1, i);
      if raw + DecimalString(i) == raw + DecimalString(n - 1) {
        assert (raw + DecimalString(i))[|raw|..] == DecimalString(i);
        assert (raw + DecimalString(n - 1))[|raw|..] == DecimalString(n - 1);
        DecimalStringInjective(i, n - 1);
      }
    }
  }

  /** The n candidates are pairwise distinct. */
  lemma {:induction false} CandidatesCount(raw: string, n: nat)
    ensures |Candidates(raw, n)| == n
    decreases n
  {
    if n > 0 {
      CandidatesCount(raw, n - 1);
      CandidateBelow(raw, n - 1, n - 1);
    }
  }

  lemma {:induction false} CandidatesWithin(raw: string, n: nat, names: set<string>)
    requires forall i :: 0 <= i < n ==> raw + DecimalString(i) in names
    ensures Candidates(raw, n) <= names
    decreases n
  {
    if n > 0 {
      CandidatesWithin(raw, n - 1, names);
    }
  }

  /** The set of names in a sequence has at most as many elements as the sequence. */
  function Elements(names: seq<string>): (r: set<string>)
    ensures |r| <= |names|
    ensures forall x :: x in r <==> x in names
  {
    if |names| == 0 then {}
    else
      var rest := Elements(names[..|names| - 1]);
      assert names == names[..|names| - 1] + [names[|names| - 1]];
      rest + {names[|names| - 1]}
  }

  /** A suffixed search that ends on a taken name found every candidate from `idx` on taken. */
  lemma {:induction false} SuffixedSearchExhausted(raw: string, used: seq<string>, idx: nat)
    requires idx <= |used|
    requires SuffixedName(raw, used, idx) in used
    ensures forall i :: idx <= i <= |used| ==> raw + DecimalString(i) in used
    decreases |used| - idx
  {
    if raw + DecimalString(idx) in used && idx < |used| {
      SuffixedSearchExhausted(raw, used, idx + 1);
    }
  }

  lemma SubsetSize(a: set<string>, b: set<string>)
    requires a <= b
    ensures |a| <= |b|
  {
    assert b == a + (b - a);
  }

  /** The name `FreeName` picks is never one already registered. */
  lemma FreeNameIsFresh(raw: string, used: seq<string>)
    ensures FreeName(raw, used) !in used
  {
    if raw in used && SuffixedName(raw, used, 0) in used {
      var n := |used| + 1;
      SuffixedSearchExhausted(raw, used, 0);
      CandidatesWithin(raw, n, Elements(used));
      CandidatesCount(raw, n);
      SubsetSize(Candidates(raw, n), Elements(used));
      assert false;
    }
  }

  /** The names `abi.JSON` registers the declarations under, in order. */
  function ResolvedNames(decls: seq<MethodDecl>): (names: seq<string>)
    ensures |names| == |decls|
  {
    if |decls| == 0 then []
    else
      var earlier := ResolvedNames(decls[..|decls| - 1]);
      earlier + [FreeName(decls[|decls| - 1].rawName, earlier)]
  }

  function IndexOf(names: seq<string>, name: string): (i: nat)
    ensures i <= |names|
    ensures i < |names| ==> names[i] == name
    ensures forall j :: 0 <= j < i ==> names[j] != name
  {
    if |names| == 0 then 0
    else if names[0] == name then 0
    else 1 + IndexOf(names[1..], name)
  }

  /** The inputs of the method registered under `name`, if any. */
  function Lookup(c: Contract, name: string): Option<seq<AbiType>> {
    var decls := Declarations(c);
    var names := ResolvedNames(decls);
    var i := IndexOf(names, name);
    if i < |decls| then Some(decls[i].inputs) else None
  }

  /**
   `abi.ABI.Pack`: None (the error return) for an unknown method or an
   argument list of the wrong length or kinds; otherwise the encoder's answer.
   */
  function Pack(encode: (Contract, string, seq<AbiValue>) -> Option<Bytes>,
                c: Contract, name: string, args: seq<AbiValue>): Option<Bytes>
  {
    match Lookup(c, name)
    case None => None
    case Some(inputs) =>
      if |args| == |inputs| && forall i :: 0 <= i < |args| ==> Matches(args[i], inputs[i])
      then encode(c, name, args)
      else None
  }

  /** Arguments that conform to a method's inputs are always packed. */
  lemma ConformingArgumentsPack(encode: (Contract, string, seq<AbiValue>) -> Option<Bytes>,
                                c: Contract, name: string, args: seq<AbiValue>)
    requires Lookup(c, name).Some? && Conforms(args, Lookup(c, name).value)
    ensures Pack(encode, c, name, args) == encode(c, name, args)
  {
  }

  /**
   How `abi.JSON` names the liquidity router's methods: the first
   `modifyLiquidity` (five inputs) keeps the bare name and the second (three
   inputs) is registered as "modifyLiquidity0".
   */
  lemma LPRouterNames()
    ensures ResolvedNames(Declarations(LPRouter)) == ["modifyLiquidity", "modifyLiquidity0", "modifyLiquidityWithPermit"]
  {
    var lp := Declarations(LPRouter);
    assert ResolvedNames(lp[..1]) == ["modifyLiquidity"];
    assert DecimalString(0) == "0";
    assert FreeName("modifyLiquidity", ["modifyLiquidity"]) == "modifyLiquidity0";
    assert lp[..2][..1] == lp[..1];
    assert ResolvedNames(lp[..2]) == ["modifyLiquidity", "modifyLiquidity0"];
    assert lp[..3][..2] == lp[..2];
  }

  lemma SwapRouterNames()
    ensures ResolvedNames(Declarations(SwapRouter)) == ["swap", "swapWithPermit"]
  {
    var sr := Declarations(SwapRouter);
    assert sr[..2][..1] == sr[..1];
  }

  lemma LPRouterTable()
    ensures Lookup(LPRouter, "modifyLiquidity") == Some(ModifyLiquiditySettleInputs)
    ensures Lookup(LPRouter, "modifyLiquidity0") == Some(ModifyLiquidityInputs)
    ensures Lookup(LPRouter, "modifyLiquidityWithPermit") == Some(ModifyLiquidityWithPermitInputs)
  {
    LPRouterNames();
  }

  /** The lookups every handler relies on: each method name finds the declaration it means. */
  lemma MethodTable()
    ensures Lookup(Manager, "initialize") == Some(InitializeInputs)
    ensures Lookup(SwapRouter, "swap") == Some(SwapInputs)
    ensures Lookup(SwapRouter, "swapWithPermit") == Some(SwapWithPermitInputs)
    ensures Lookup(LPRouter, "modifyLiquidity") == Some(ModifyLiquiditySettleInputs)
    ensures Lookup(LPRouter, "modifyLiquidity0") == Some(ModifyLiquidityInputs)
    ensures Lookup(LPRouter, "modifyLiquidityWithPermit") == Some(ModifyLiquidityWithPermitInputs)
  {
    LPRouterTable();
    SwapRouterNames();
    assert ResolvedNames(Declarations(Manager)) == ["initialize"];
  }
}
