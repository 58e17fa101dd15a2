/** Building a sponsored batch: validation, the executor's calldata layout, signing, and the gas checks around it. */
module SponsoredBatch {
  import opened Words
  import opened Abi
  import opened FeePolicy
  import opened Transactions
  import opened MintSubmission
  import opened SponsoredGas

  const MAX_MINT_CALLDATA_SIZE: nat := 16_384
  const POST_MINT_GAS_RESERVE: nat := 25_000
  const MAX_UINT48: nat := 0xFFFF_FFFF_FFFF

  datatype SponsoredError =
    | Gas(gas: GasError) | InvalidBatch | ZeroAddress | RecipientEqualsWallet | InvalidMintCalldata | InvalidExpectedUnits
    | InvalidGasLimits | ExecutorTarget | InvalidDeadline | SigningFailed
    | FeeFailure(fee: FeeError) | FundingArithmetic | SponsorUnderfunded | SponsoredGasBoundExceeded

  datatype Operation = Operation(
    wallet: Address, mintTarget: Address, nftContract: Address, recipient: Address, mintValue: U256, expectedUnits: U256,
    mintGasLimit: U64, walletGasLimit: U64, deadline: U64, mintCalldata: seq<Byte>, signatureR: U256, signatureYParityAndS: U256)

  datatype Identity = Identity(chainId: U64, dispatcher: Address, sponsor: Address, batchId: U256)

  predicate ValidIdentity(identity: Identity) {
    identity.chainId != 0 && identity.dispatcher != ZERO_ADDRESS && identity.sponsor != ZERO_ADDRESS && identity.batchId != 0
  }

  predicate HasGasForMint(op: Operation) {
    op.mintGasLimit > 0 && op.mintGasLimit + POST_MINT_GAS_RESERVE <= op.walletGasLimit
  }

  function ValidationError(op: Operation, dispatcher: Address): Option<SponsoredError> {
    if ZERO_ADDRESS in {op.wallet, op.mintTarget, op.nftContract, op.recipient} then Some(ZeroAddress)
    else if op.recipient == op.wallet then Some(RecipientEqualsWallet)
    else if !(4 <= |op.mintCalldata| <= MAX_MINT_CALLDATA_SIZE) then Some(InvalidMintCalldata)
    else if op.expectedUnits == 0 then Some(InvalidExpectedUnits)
    else if !HasGasForMint(op) then Some(InvalidGasLimits)
    else if op.mintTarget in {op.wallet, dispatcher} || op.nftContract in {op.wallet, dispatcher} then Some(ExecutorTarget)
    else if op.deadline > MAX_UINT48 then Some(InvalidDeadline)
    else None
  }

  ghost predicate AllValid(operations: seq<Operation>, dispatcher: Address) {
    forall op <- operations :: ValidationError(op, dispatcher).None?
  }

  // -------------------------------------------------------------------------- the calldata layout

  /** Rounds a length up to whole words. */
  function Padded(length: nat): nat {
    (length + 31) / 32 * 32
  }

  function EncodeBytes(data: seq<Byte>): (r: seq<Byte>)
    ensures |r| == 32 + Padded(|data|)
  {
    Word(|data|) + data + seq(Padded(|data|) - |data|, i => 0 as Byte)
  }

  const OPERATION_HEAD_BYTES: nat := 384

  /** Twelve head words, the tenth of which points behind the head, and then the mint calldata. */
  function EncodeOperation(op: Operation): (r: seq<Byte>)
    ensures |r| == OPERATION_HEAD_BYTES + 32 + Padded(|op.mintCalldata|)
  {
    Word(op.wallet.id) + Word(op.mintTarget.id) + Word(op.nftContract.id) + Word(op.recipient.id)
    + Word(op.mintValue) + Word(op.expectedUnits) + Word(op.mintGasLimit) + Word(op.walletGasLimit) + Word(op.deadline)
    + Word(OPERATION_HEAD_BYTES) + Word(op.signatureR) + Word(op.signatureYParityAndS)
    + EncodeBytes(op.mintCalldata)
  }

  function Tails(operations: seq<Operation>): seq<Byte> {
    if operations == [] then [] else EncodeOperation(operations[0]) + Tails(operations[1..])
  }

  /** Where the encoding of operation `i` starts, counted from the first offset word. */
  function OffsetOf(operations: seq<Operation>, i: nat): nat
    requires i <= |operations|
  {
    32 * |operations| + |Tails(operations[..i])|
  }

  /** The offset words of the operations before `n`. */
  function Offsets(operations: seq<Operation>, n: nat): (r: seq<Byte>)
    requires n <= |operations|
    ensures |r| == 32 * n
  {
    if n == 0 then [] else Offsets(operations, n - 1) + Word(OffsetOf(operations, n - 1))
  }

  /** The part of fixed size: selector, batch identity, the offset of the array, and its length. */
  function FixedPart(selector: seq<Byte>, batchId: U256, count: nat): (r: seq<Byte>)
    ensures |selector| == 4 ==> |r| == EXECUTE_BATCH_FIXED_CALLDATA_BYTES
  {
    selector + Word(batchId) + Word(64) + Word(count)
  }

  function EncodeExecuteBatch(selector: seq<Byte>, batchId: U256, operations: seq<Operation>): seq<Byte> {
    FixedPart(selector, batchId, |operations|) + Offsets(operations, |operations|) + Tails(operations)
  }

  /** The length depends on nothing but the number of operations and the lengths of their mint calldata. */
  function EncodedLength(calldataLengths: seq<nat>): nat {
    if calldataLengths == [] then EXECUTE_BATCH_FIXED_CALLDATA_BYTES
    else 32 + OPERATION_HEAD_BYTES + 32 + Padded(calldataLengths[0]) + EncodedLength(calldataLengths[1..])
  }

  function CalldataLengths(operations: seq<Operation>): seq<nat> {
    if operations == [] then [] else [|operations[0].mintCalldata|] + CalldataLengths(operations[1..])
  }

  lemma {:induction false} TailsLength(operations: seq<Operation>)
    ensures |Tails(operations)| + 32 * |operations| + EXECUTE_BATCH_FIXED_CALLDATA_BYTES == EncodedLength(CalldataLengths(operations))
  {
    if operations != [] {
      TailsLength(operations[1..]);
      assert CalldataLengths(operations)[1..] == CalldataLengths(operations[1..]);
    }
  }

  lemma {:induction false} LengthOfEncoding(selector: seq<Byte>, batchId: U256, operations: seq<Operation>)
    requires |selector| == 4
    ensures |EncodeExecuteBatch(selector, batchId, operations)| == EncodedLength(CalldataLengths(operations))
  {
    TailsLength(operations);
  }

  /** Every operation fits its allowance, so a valid batch stays within the length that setup budgets for. */
  lemma {:induction false} LengthWithinMaximum(operations: seq<Operation>, dispatcher: Address)
    requires AllValid(operations, dispatcher)
    ensures EncodedLength(CalldataLengths(operations)) <= MaximumCalldataLength(|operations|)
  {
    if operations != [] {
      LengthWithinMaximum(operations[1..], dispatcher);
      assert ValidationError(operations[0], dispatcher).None?;
      assert CalldataLengths(operations)[1..] == CalldataLengths(operations[1..]);
    }
  }

  /** The offset word of operation `i`, and at that offset its encoding. */
  lemma OffsetsLeadToOperations(selector: seq<Byte>, batchId: U256, operations: seq<Operation>, i: nat)
    requires |selector| == 4 && i < |operations|
    ensures var calldata := EncodeExecuteBatch(selector, batchId, operations);
            && At(calldata, EXECUTE_BATCH_FIXED_CALLDATA_BYTES + 32 * i, Word(OffsetOf(operations, i)))
            && At(calldata, EXECUTE_BATCH_FIXED_CALLDATA_BYTES + OffsetOf(operations, i), EncodeOperation(operations[i]))
  {
    OffsetAt(operations, i, |operations|);
    TailAt(operations, i);
    BehindHead(FixedPart(selector, batchId, |operations|), Offsets(operations, |operations|), Tails(operations),
               32 * i, Word(OffsetOf(operations, i)), |Tails(operations[..i])|, EncodeOperation(operations[i]));
  }

  lemma BehindHead(head: seq<Byte>, offsets: seq<Byte>, tails: seq<Byte>, i: nat, word: seq<Byte>, j: nat, piece: seq<Byte>)
    requires At(offsets, i, word) && At(tails, j, piece)
    ensures At(head + offsets + tails, |head| + i, word)
    ensures At(head + offsets + tails, |head| + |offsets| + j, piece)
  {
    AtBehind(head, offsets, i, word);
    AtBefore(head + offsets, tails, |head| + i, word);
    AtBehind(head + offsets, tails, j, piece);
  }

  lemma {:induction false} OffsetAt(operations: seq<Operation>, i: nat, n: nat)
    requires i < n <= |operations|
    ensures At(Offsets(operations, n), 32 * i, Word(OffsetOf(operations, i)))
  {
    var earlier, last := Offsets(operations, n - 1), Word(OffsetOf(operations, n - 1));
    if i < n - 1 {
      OffsetAt(operations, i, n - 1);
      AtBefore(earlier, last, 32 * i, Word(OffsetOf(operations, i)));
    } else {
      AtBehind(earlier, last, 0, last);
    }
  }

  lemma {:induction false} TailAt(operations: seq<Operation>, i: nat)
    requires i < |operations|
    ensures At(Tails(operations), |Tails(operations[..i])|, EncodeOperation(operations[i]))
  {
    var first, rest := EncodeOperation(operations[0]), Tails(operations[1..]);
    if i == 0 {
      assert operations[..0] == [];
      AtBefore(first, rest, 0, first);
    } else {
      TailAt(operations[1..], i - 1);
      assert operations[1..][..i - 1] == operations[..i][1..];
      AtBehind(first, rest, |Tails(operations[1..][..i - 1])|, EncodeOperation(operations[i]));
    }
  }

  // -------------------------------------------------------------------------- building the batch

  function WalletLimits(operations: seq<Operation>): (limits: seq<U64>)
    ensures |limits| == |operations|
  {
    seq(|operations|, i requires 0 <= i < |operations| => operations[i].walletGasLimit)
  }

  /** Encodes a batch after validating its identity, its size and every operation. */
  method EncodeValidated(selector: seq<Byte>, identity: Identity, operations: seq<Operation>) returns (r: Result<seq<Byte>, SponsoredError>)
    ensures r.Ok? <==> ValidIdentity(identity) && ValidBatchSize(|operations|) && AllValid(operations, identity.dispatcher)
    ensures r.Ok? ==> r.value == EncodeExecuteBatch(selector, identity.batchId, operations)
    ensures r.Err? ==> r.error != SponsoredGasBoundExceeded
  {
    if !ValidIdentity(identity) {
      return Err(InvalidBatch);
    }
    if !ValidBatchSize(|operations|) {
      return Err(Gas(InvalidBatchSize));
    }
    for i := 0 to |operations|
      invariant forall k: nat :: k < i ==> ValidationError(operations[k], identity.dispatcher).None?
    {
      var error := ValidationError(operations[i], identity.dispatcher);
      if error.Some? {
        return Err(error.value);
      }
    }
    return Ok(EncodeExecuteBatch(selector, identity.batchId, operations));
  }

  /** The signature of operation `i`, or None when the wallet's signer fails. */
  type OperationSigner = (nat, Operation) -> Option<(U256, U256)>

  /** The operation with the batch deadline and a signature filled in; nothing else changes. */
  ghost predicate IsSigned(unsigned: Operation, deadline: U64, signed: Operation) {
    signed == unsigned.(deadline := deadline, signatureR := signed.signatureR, signatureYParityAndS := signed.signatureYParityAndS)
  }

  method SignAll(identity: Identity, unsigned: seq<Operation>, deadline: U64, signer: OperationSigner)
    returns (r: Result<seq<Operation>, SponsoredError>)
    ensures r.Ok? ==> |r.value| == |unsigned| && forall i: nat :: i < |unsigned| ==> IsSigned(unsigned[i], deadline, r.value[i])
    ensures r.Err? ==> r.error != SponsoredGasBoundExceeded
  {
    var operations: seq<Operation> := [];
    for i := 0 to |unsigned|
      invariant |operations| == i && forall k: nat :: k < i ==> IsSigned(unsigned[k], deadline, operations[k])
    {
      var operation := unsigned[i].(deadline := deadline);
      var error := ValidationError(operation, identity.dispatcher);
      if error.Some? {
        return Err(error.value);
      }
      var signature := signer(i, operation);
      if signature.None? {
        return Err(SigningFailed);
      }
      operations := operations + [operation.(signatureR := signature.value.0, signatureYParityAndS := signature.value.1)];
    }
    return Ok(operations);
  }

  /** Signing keeps what the length and the gas limits are computed from. */
  lemma {:induction false} SigningKeepsShape(unsigned: seq<Operation>, deadline: U64, signed: seq<Operation>)
    requires |signed| == |unsigned| && forall i: nat :: i < |unsigned| ==> IsSigned(unsigned[i], deadline, signed[i])
    ensures CalldataLengths(signed) == CalldataLengths(unsigned) && WalletLimits(signed) == WalletLimits(unsigned)
  {
    if unsigned != [] {
      assert IsSigned(unsigned[0], deadline, signed[0]);
      SigningKeepsShape(unsigned[1..], deadline, signed[1..]);
      assert WalletLimits(unsigned) == [unsigned[0].walletGasLimit] + WalletLimits(unsigned[1..]);
      assert WalletLimits(signed) == [signed[0].walletGasLimit] + WalletLimits(signed[1..]);
    }
  }

  /** Zero shortfall at the predicted maximum fee. */
  function SponsorFunding(config: FeesConfig, maxAttempts: U32, estimate: Fees, gasLimit: U64, balance: U256)
    : (r: Result<Fees, SponsoredError>)
    ensures r.Err? ==> r.error != SponsoredGasBoundExceeded
    ensures r.Ok? ==>
              && InitialTransactionFees(config, estimate) == Ok(r.value) && MaximumFees(config, maxAttempts, r.value).Ok?
              && gasLimit * MaximumFees(config, maxAttempts, r.value).value.maxFee <= balance
  {
    match InitialTransactionFees(config, estimate)
    case Err(e) => Err(FeeFailure(e))
    case Ok(fees) =>
      match MaximumFees(config, maxAttempts, fees)
      case Err(e) => Err(FeeFailure(e))
      case Ok(maximum) =>
        match FundingRequirement(0, gasLimit, maximum.maxFee).Shortfall(balance)
        case None => Err(FundingArithmetic)
        case Some(shortfall) => if shortfall == 0 then Ok(fees) else Err(SponsorUnderfunded)
  }

  /** The gas checks around signing: the exact limit is computed on the signed calldata and compared with the bound. */
  method FinalGasLimit(selector: seq<Byte>, identity: Identity, operations: seq<Operation>, provisional: seq<Byte>, bound: U64)
    returns (r: Result<(seq<Byte>, U64), SponsoredError>)
    requires |provisional| == EncodedLength(CalldataLengths(operations)) && |selector| == 4
    requires UpperBound(|provisional|, WalletLimits(operations)) == Ok(bound)
    ensures r.Err? ==> r.error != SponsoredGasBoundExceeded
    ensures r.Ok? ==>
              && r.value.0 == EncodeExecuteBatch(selector, identity.batchId, operations) && AllValid(operations, identity.dispatcher)
              && ExactLimit(r.value.0, WalletLimits(operations)) == Ok(r.value.1) && r.value.1 <= bound
  {
    var calldata := EncodeValidated(selector, identity, operations);
    if calldata.Err? {
      return Err(calldata.error);
    }
    LengthOfEncoding(selector, identity.batchId, operations);
    var limit := OuterGasLimit(calldata.value, WalletLimits(operations));
    if limit.Err? {
      return Err(Gas(limit.error));
    }
    if |calldata.value| != |provisional| || limit.value > bound {
      return Err(SponsoredGasBoundExceeded);
    }
    return Ok((calldata.value, limit.value));
  }

  /**
   * Prices, funds and signs a batch. Whatever the signers return, signing never breaks the gas bound that the
   * sponsor was checked against, and the sponsor can pay the exact limit at the predicted maximum fee.
   */
  method PrepareBatch(
    selector: seq<Byte>, identity: Identity, unsigned: seq<Operation>, deadline: U64, signer: OperationSigner,
    config: FeesConfig, maxAttempts: U32, estimate: Fees, balance: U256)
    returns (r: Result<(seq<Operation>, seq<Byte>, U64), SponsoredError>)
    requires |selector| == 4
    ensures r.Err? ==> r.error != SponsoredGasBoundExceeded
    ensures r.Ok? ==>
              var (operations, calldata, gasLimit) := r.value;
              && |operations| == |unsigned| && (forall i: nat :: i < |unsigned| ==> IsSigned(unsigned[i], deadline, operations[i]))
              && calldata == EncodeExecuteBatch(selector, identity.batchId, operations) && AllValid(operations, identity.dispatcher)
              && ExactLimit(calldata, WalletLimits(operations)) == Ok(gasLimit)
              && SponsorFunding(config, maxAttempts, estimate, gasLimit, balance).Ok?
  {
    var provisional := EncodeValidated(selector, identity, unsigned);
    if provisional.Err? {
      return Err(provisional.error);
    }
    var bound := UpperBound(|provisional.value|, WalletLimits(unsigned));
    if bound.Err? {
      return Err(Gas(bound.error));
    }
    var funding := SponsorFunding(config, maxAttempts, estimate, bound.value, balance);
    if funding.Err? {
      return Err(funding.error);
    }
    var operations := SignAll(identity, unsigned, deadline, signer);
    if operations.Err? {
      return Err(operations.error);
    }
    LengthOfEncoding(selector, identity.batchId, unsigned);
    SigningKeepsShape(unsigned, deadline, operations.value);
    var final := FinalGasLimit(selector, identity, operations.value, provisional.value, bound.value);
    if final.Err? {
      return Err(final.error);
    }
    LowerLimitStaysFunded(config, maxAttempts, estimate, bound.value, final.value.1, balance);
    return Ok((operations.value, final.value.0, final.value.1));
  }

  lemma LowerLimitStaysFunded(config: FeesConfig, maxAttempts: U32, estimate: Fees, bound: U64, limit: U64, balance: U256)
    requires SponsorFunding(config, maxAttempts, estimate, bound, balance).Ok? && limit <= bound
    ensures SponsorFunding(config, maxAttempts, estimate, limit, balance).Ok?
  {
    var fees := InitialTransactionFees(config, estimate).value;
    MulMonotone(limit, bound, MaximumFees(config, maxAttempts, fees).value.maxFee);
  }

  /** A batch built from wallets that setup counted needs no more gas than setup reserved. */
  lemma BatchWithinSetup(selector: seq<Byte>, identity: Identity, operations: seq<Operation>, walletLimit: U64, count: nat)
    requires |selector| == 4 && AllValid(operations, identity.dispatcher)
    requires ValidBatchSize(|operations|) && |operations| <= count && SetupLimit(walletLimit, count).Ok?
    requires forall op <- operations :: op.walletGasLimit <= walletLimit
    ensures var calldata := EncodeExecuteBatch(selector, identity.batchId, operations);
            && ExactLimit(calldata, WalletLimits(operations)).Ok?
            && ExactLimit(calldata, WalletLimits(operations)).value <= SetupLimit(walletLimit, count).value
  {
    LengthOfEncoding(selector, identity.batchId, operations);
    LengthWithinMaximum(operations, identity.dispatcher);
    GasBoundChain(EncodeExecuteBatch(selector, identity.batchId, operations), WalletLimits(operations), walletLimit, count);
  }
}
