/** Signed transactions and what a node may answer about them. */
module Transactions {
  import opened Words
  import opened FeePolicy

  datatype Hash = Hash(digest: nat)

  datatype Address = Address(id: nat)

  const ZERO_ADDRESS: Address := Address(0)

  const ADDRESS_RANGE: nat := 0x1_0000_0000_0000_0000_0000_0000_0000_0000_0000_0000

  datatype Transaction = Transaction(
    chainId: U64, nonce: U64, fees: Fees, gasLimit: U64, target: Address, value: U256, calldata: seq<Byte>)

  datatype TransactionError = InvalidFees | InvalidGasLimit | InvalidTarget | Signing

  /** A private key: the hash of the signed encoding of a transaction, or a signer failure. */
  type Key = Transaction -> Option<Hash>

  function ShapeError(tx: Transaction): Option<TransactionError> {
    if tx.fees.maxFee < tx.fees.priorityFee then Some(InvalidFees)
    else if tx.gasLimit == 0 then Some(InvalidGasLimit)
    else if tx.target == ZERO_ADDRESS then Some(InvalidTarget)
    else None
  }

  function Sign(tx: Transaction, key: Key): (r: Result<Hash, TransactionError>)
    ensures r.Ok? <==> tx.fees.priorityFee <= tx.fees.maxFee && tx.gasLimit > 0 && tx.target != ZERO_ADDRESS && key(tx).Some?
  {
    match ShapeError(tx)
    case Some(e) => Err(e)
    case None =>
      match key(tx)
      case None => Err(Signing)
      case Some(hash) => Ok(hash)
  }

  // ------------------------------------------------------------------ the node

  datatype ChainError = InvalidResponse | RateLimited | Rpc(code: int) | TransactionHashMismatch | PollingTimeoutOutOfRange

  datatype SendReply = Returned(hash: Hash) | SendFailed(error: ChainError)

  function SendRaw(reply: SendReply, local: Hash): Result<Hash, ChainError> {
    match reply
    case SendFailed(e) => Err(e)
    case Returned(hash) => if hash != local then Err(TransactionHashMismatch) else Ok(hash)
  }

  datatype Receipt = Receipt(hash: Hash, blockNumber: U64, success: bool)

  /** A receipt as it arrives: a field is None when its text does not parse. */
  datatype RawReceipt = RawReceipt(hash: Option<Hash>, blockNumber: Option<U64>, status: Option<U64>, bodyParses: bool)

  datatype PollReply = NotMined | Mined(raw: RawReceipt) | PollFailed(error: ChainError)

  function DecodeReceipt(raw: RawReceipt, expected: Hash): (r: Result<Receipt, ChainError>)
    ensures r.Ok? ==> r.value.hash == expected
  {
    if raw.hash.None? then Err(InvalidResponse)
    else if raw.hash.value != expected then Err(TransactionHashMismatch)
    else if raw.blockNumber.None? || raw.status.None? || raw.status.value > 1 || !raw.bodyParses then Err(InvalidResponse)
    else Ok(Receipt(expected, raw.blockNumber.value, raw.status.value == 1))
  }

  function TransactionReceipt(reply: PollReply, hash: Hash): (r: Result<Option<Receipt>, ChainError>)
    ensures r.Ok? && r.value.Some? ==> r.value.value.hash == hash
    ensures r == Ok(None) <==> reply.NotMined?
  {
    match reply
    case NotMined => Ok(None)
    case PollFailed(e) => Err(e)
    case Mined(raw) =>
      match DecodeReceipt(raw, hash)
      case Err(e) => Err(e)
      case Ok(receipt) => Ok(Some(receipt))
  }
}
