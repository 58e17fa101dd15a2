/** The gas budget of a sponsored batch: the exact limit, its two bounds, and what it buys under EIP-150. */
module SponsoredGas {
  import opened Words
  import opened FeePolicy

  const MAX_SPONSORED_BATCH_SIZE: nat := 25
  const OUTER_TRANSACTION_INTRINSIC_GAS: nat := 21_000
  const AUTHORIZATION_INTRINSIC_GAS: nat := 25_000
  const DISPATCHER_BASE_GAS_RESERVE: nat := 100_000
  const PER_OPERATION_DISPATCH_GAS_RESERVE: nat := 30_000
  const FINAL_BATCH_GAS_RESERVE: nat := 50_000
  const EXECUTE_BATCH_FIXED_CALLDATA_BYTES: nat := 100
  const MAX_ENCODED_OPERATION_BYTES: nat := 16_832

  datatype GasError = InvalidBatchSize | GasOverflow

  predicate ValidBatchSize(count: nat) {
    1 <= count <= MAX_SPONSORED_BATCH_SIZE
  }

  // -------------------------------------------------------------------------- the specification, without word sizes

  /** What one wallet adds: its limit, the share that EIP-150 keeps back from it, and its dispatch. */
  function WalletGas(limit: nat): nat {
    limit + (limit + 62) / 63 + PER_OPERATION_DISPATCH_GAS_RESERVE
  }

  function SumWalletGas(limits: seq<U64>): nat {
    if limits == [] then 0 else WalletGas(limits[0]) + SumWalletGas(limits[1..])
  }

  function FixedGas(calldataGas: nat, count: nat): nat {
    OUTER_TRANSACTION_INTRINSIC_GAS + calldataGas + AUTHORIZATION_INTRINSIC_GAS * count
    + DISPATCHER_BASE_GAS_RESERVE + FINAL_BATCH_GAS_RESERVE
  }

  function TotalGas(calldataGas: nat, limits: seq<U64>): nat {
    FixedGas(calldataGas, |limits|) + SumWalletGas(limits)
  }

  function Bounded(total: nat): Result<U64, GasError> {
    if total <= MAX_U64 then Ok(total) else Err(GasOverflow)
  }

  /** Calldata costs 4 gas for a zero byte and 16 for any other. */
  function CalldataGas(calldata: seq<Byte>): (gas: nat)
    ensures 4 * |calldata| <= gas <= 16 * |calldata|
  {
    if calldata == [] then 0 else (if calldata[0] == 0 then 4 else 16) + CalldataGas(calldata[1..])
  }

  function ExactLimit(calldata: seq<Byte>, limits: seq<U64>): Result<U64, GasError> {
    if !ValidBatchSize(|limits|) then Err(InvalidBatchSize) else Bounded(TotalGas(CalldataGas(calldata), limits))
  }

  function UpperBound(calldataLength: nat, limits: seq<U64>): Result<U64, GasError> {
    if 16 * calldataLength > MAX_U64 then Err(GasOverflow)
    else if !ValidBatchSize(|limits|) then Err(InvalidBatchSize)
    else Bounded(TotalGas(16 * calldataLength, limits))
  }

  function Repeated(limit: U64, count: nat): (limits: seq<U64>)
    ensures |limits| == count
  {
    seq(count, i => limit)
  }

  function MaximumCalldataLength(count: nat): nat {
    MAX_ENCODED_OPERATION_BYTES * count + EXECUTE_BATCH_FIXED_CALLDATA_BYTES
  }

  function SetupLimit(walletLimit: U64, count: nat): Result<U64, GasError> {
    if !ValidBatchSize(count) then Err(InvalidBatchSize)
    else Bounded(TotalGas(16 * MaximumCalldataLength(count), Repeated(walletLimit, count)))
  }

  // -------------------------------------------------------------------------- the checked arithmetic

  /** Adds with an overflow check at every step; it fails exactly when the whole sum does not fit. */
  method LimitForWallets(calldataGas: U64, limits: seq<U64>) returns (r: Result<U64, GasError>)
    requires |limits| <= MAX_SPONSORED_BATCH_SIZE
    ensures r == Bounded(TotalGas(calldataGas, limits))
  {
    var gasLimit: nat := FixedGas(calldataGas, |limits|);
    if gasLimit > MAX_U64 {
      return Err(GasOverflow);
    }
    assert limits[0..] == limits;
    for i := 0 to |limits|
      invariant gasLimit <= MAX_U64
      invariant gasLimit + SumWalletGas(limits[i..]) == TotalGas(calldataGas, limits)
    {
      assert limits[i..][1..] == limits[i + 1..];
      assert SumWalletGas(limits[i..]) == WalletGas(limits[i]) + SumWalletGas(limits[i + 1..]);
      if limits[i] + 62 > MAX_U64 || gasLimit + WalletGas(limits[i]) > MAX_U64 {
        return Err(GasOverflow);
      }
      gasLimit := gasLimit + WalletGas(limits[i]);
    }
    return Ok(gasLimit);
  }

  method OuterGasLimit(calldata: seq<Byte>, limits: seq<U64>) returns (r: Result<U64, GasError>)
    ensures r == ExactLimit(calldata, limits)
  {
    if !ValidBatchSize(|limits|) {
      return Err(InvalidBatchSize);
    }
    var calldataGas: nat := 0;
    assert calldata[0..] == calldata;
    for i := 0 to |calldata|
      invariant calldataGas <= MAX_U64
      invariant calldataGas + CalldataGas(calldata[i..]) == CalldataGas(calldata)
    {
      assert calldata[i..][1..] == calldata[i + 1..];
      calldataGas := calldataGas + if calldata[i] == 0 then 4 else 16;
      if calldataGas > MAX_U64 {
        return Err(GasOverflow);
      }
    }
    r := LimitForWallets(calldataGas, limits);
  }

  // -------------------------------------------------------------------------- the bounds

  lemma {:induction false} MoreWalletsMoreGas(limits: seq<U64>, limit: U64, count: nat)
    requires |limits| <= count && forall i: nat :: i < |limits| ==> limits[i] <= limit
    ensures SumWalletGas(limits) <= SumWalletGas(Repeated(limit, count))
  {
    if limits != [] {
      assert Repeated(limit, count)[1..] == Repeated(limit, count - 1);
      MoreWalletsMoreGas(limits[1..], limit, count - 1);
    }
  }

  /**
   * The exact limit is below the bound from the calldata length, which is below the setup bound, also when
   * setup counted more wallets or larger limits; and when the setup bound fits its word, so do the others.
   */
  lemma GasBoundChain(calldata: seq<Byte>, limits: seq<U64>, walletLimit: U64, count: nat)
    requires ValidBatchSize(|limits|) && |limits| <= count && SetupLimit(walletLimit, count).Ok?
    requires forall i: nat :: i < |limits| ==> limits[i] <= walletLimit
    requires |calldata| <= MaximumCalldataLength(|limits|)
    ensures ExactLimit(calldata, limits).Ok? && UpperBound(|calldata|, limits).Ok?
    ensures ExactLimit(calldata, limits).value <= UpperBound(|calldata|, limits).value <= SetupLimit(walletLimit, count).value
  {
    MoreWalletsMoreGas(limits, walletLimit, count);
  }

  // -------------------------------------------------------------------------- forwarding under EIP-150

  /** One wallet's turn: dispatch work before and after its call, and what the call consumes. */
  datatype Turn = Turn(before: nat, used: nat, after: nat)

  /** A call may pass on all but one 64th of the gas that is left. */
  function Forwarded(gasLeft: nat, limit: nat): nat {
    Min(limit, gasLeft - gasLeft / 64)
  }

  /** The executor's own check before it calls wallet `i`. */
  predicate CanForwardExactGas(gasLeft: nat, limit: nat, remaining: nat) {
    gasLeft >= limit + (limit + 62) / 63 + (FINAL_BATCH_GAS_RESERVE + remaining * PER_OPERATION_DISPATCH_GAS_RESERVE)
  }

  /** After the check the call cannot be clamped. */
  lemma CheckMeansFullLimit(gasLeft: nat, limit: nat, remaining: nat)
    requires CanForwardExactGas(gasLeft, limit, remaining)
    ensures Forwarded(gasLeft, limit) == limit
  {
  }

  /** A step of the executor's loop: a wallet is called only after the check, and uses at most what is passed on. */
  predicate IsTurn(gasLeft: int, limit: nat, remaining: nat, turn: Turn, next: int) {
    && turn.before + turn.after <= PER_OPERATION_DISPATCH_GAS_RESERVE
    && next == gasLeft - turn.before - turn.used - turn.after
    && (gasLeft < turn.before ==> turn.used == 0)
    && (gasLeft >= turn.before ==>
          if CanForwardExactGas(gasLeft - turn.before, limit, remaining)
          then turn.used <= Forwarded(gasLeft - turn.before, limit)
          else turn.used == 0)
  }

  /** The gas left before each wallet and after the last one. */
  ghost predicate IsBatchRun(limits: seq<U64>, turns: seq<Turn>, gasLeft: seq<int>) {
    && |turns| == |limits| && |gasLeft| == |limits| + 1
    && forall i: nat :: i < |limits| ==> IsTurn(gasLeft[i], limits[i], |limits| - i - 1, turns[i], gasLeft[i + 1])
  }

  lemma {:induction false} SumCoversDispatch(limits: seq<U64>)
    ensures SumWalletGas(limits) >= |limits| * PER_OPERATION_DISPATCH_GAS_RESERVE
  {
    if limits != [] {
      SumCoversDispatch(limits[1..]);
    }
  }

  /** Before wallet `i` there is enough for it, for all the wallets behind it, and for the end of the batch. */
  lemma {:induction false} BudgetHolds(limits: seq<U64>, turns: seq<Turn>, gasLeft: seq<int>, i: nat)
    requires IsBatchRun(limits, turns, gasLeft) && i <= |limits|
    requires gasLeft[0] >= FINAL_BATCH_GAS_RESERVE + SumWalletGas(limits)
    ensures gasLeft[i] >= FINAL_BATCH_GAS_RESERVE + SumWalletGas(limits[i..])
  {
    if i == 0 {
      assert limits[0..] == limits;
    } else {
      BudgetHolds(limits, turns, gasLeft, i - 1);
      assert limits[i - 1..][1..] == limits[i..];
      assert IsTurn(gasLeft[i - 1], limits[i - 1], |limits| - i, turns[i - 1], gasLeft[i]);
    }
  }

  /** In every run every wallet passes the check and gets its full limit, and the final reserve is untouched. */
  lemma EveryWalletGetsItsLimit(limits: seq<U64>, turns: seq<Turn>, gasLeft: seq<int>)
    requires IsBatchRun(limits, turns, gasLeft)
    requires gasLeft[0] >= FINAL_BATCH_GAS_RESERVE + SumWalletGas(limits)
    ensures forall i: nat :: i < |limits| ==>
              && gasLeft[i] >= turns[i].before
              && CanForwardExactGas(gasLeft[i] - turns[i].before, limits[i], |limits| - i - 1)
              && Forwarded(gasLeft[i] - turns[i].before, limits[i]) == limits[i]
    ensures gasLeft[|limits|] >= FINAL_BATCH_GAS_RESERVE
  {
    forall i: nat | i < |limits|
      ensures && gasLeft[i] >= turns[i].before
              && CanForwardExactGas(gasLeft[i] - turns[i].before, limits[i], |limits| - i - 1)
              && Forwarded(gasLeft[i] - turns[i].before, limits[i]) == limits[i]
    {
      BudgetHolds(limits, turns, gasLeft, i);
      SumCoversDispatch(limits[i + 1..]);
      assert limits[i..][1..] == limits[i + 1..];
      assert IsTurn(gasLeft[i], limits[i], |limits| - i - 1, turns[i], gasLeft[i + 1]);
      CheckMeansFullLimit(gasLeft[i] - turns[i].before, limits[i], |limits| - i - 1);
    }
    BudgetHolds(limits, turns, gasLeft, |limits|);
  }

  /**
   * The exact limit pays for a whole run: the transaction, its calldata, at most one authorization a wallet,
   * the executor's entry, and then every wallet in full with the final reserve left over.
   */
  lemma ExactLimitSurvivesForwarding(
    calldata: seq<Byte>, limits: seq<U64>, authorizations: nat, entry: nat, turns: seq<Turn>, gasLeft: seq<int>)
    requires ExactLimit(calldata, limits).Ok? && IsBatchRun(limits, turns, gasLeft)
    requires authorizations <= |limits| && entry <= DISPATCHER_BASE_GAS_RESERVE
    requires gasLeft[0] == ExactLimit(calldata, limits).value - OUTER_TRANSACTION_INTRINSIC_GAS - CalldataGas(calldata)
                           - AUTHORIZATION_INTRINSIC_GAS * authorizations - entry
    ensures forall i: nat :: i < |limits| ==>
              gasLeft[i] >= turns[i].before && Forwarded(gasLeft[i] - turns[i].before, limits[i]) == limits[i]
    ensures gasLeft[|limits|] >= FINAL_BATCH_GAS_RESERVE
  {
    EveryWalletGetsItsLimit(limits, turns, gasLeft);
  }
}
