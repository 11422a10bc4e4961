/** The cross-chain gateway under the pallet: fee estimator, message builder, validator,
    dispatcher, tracker entry and receipt check, as the stateless expressions they are. */
module Gateway {
  import opened Arithmetic

  type AccountId = nat
  type PoolId = nat
  type TxId = nat
  type ParaId = nat
  type Hash = nat
  type Byte = x: int | 0 <= x < 256

  const ZERO_HASH: Hash := 0
  const MAX_CALL: nat := 1024
  const MIN_FEE: nat := 802
  const MAX_FEE: nat := 3248

  datatype GatewayError =
    | MessageFormatError
    | UnsupportedDestination

  datatype Result<+T> = Success(value: T) | Failure(error: GatewayError) {
    predicate IsFailure() { Failure? }

    function PropagateFailure<U>(): Result<U>
      requires Failure?
    {
      Failure(error)
    }

    function Extract(): T
      requires Success?
    {
      value
    }
  }

  // ---- Fee estimator -------------------------------------------------------------------

  predicate Supported(chain: ParaId) {
    chain in {2000, 2006, 2012, 2030}
  }

  function BaseFee(chain: ParaId): Result<nat> {
    if chain == 2000 then Success(1000)
    else if chain == 2006 then Success(800)
    else if chain == 2012 then Success(1200)
    else if chain == 2030 then Success(900)
    else Failure(UnsupportedDestination)
  }

  /** `call_data.len() as u32` keeps the low 32 bits of the length. */
  function CallFee(callData: seq<Byte>): nat {
    var size := Wrap32(|callData|);
    Min(size * 2, MAX_U128)
  }

  function EstimateFee(chain: ParaId, callData: seq<Byte>): Result<nat> {
    var baseFee :- BaseFee(chain);
    Success(SaturatingAdd(baseFee, CallFee(callData), MAX_U128))
  }

  /** The estimate offered over RPC, with its fallback for chains the estimator rejects. */
  function RpcEstimate(chain: ParaId, callData: seq<Byte>): nat {
    match EstimateFee(chain, callData)
    case Success(fee) => fee
    case Failure(_) =>
      var size := if |callData| <= MAX_U32 then |callData| else 0;
      SaturatingAdd(1000, Min(10 * size, MAX_U128), MAX_U128)
  }

  // ---- Message builder, validator, dispatcher ------------------------------------------

  datatype Message = Message(target: ParaId, call: seq<Byte>, maxFee: nat, sponsor: PoolId, transactionId: TxId)

  datatype Validation = Valid | InvalidTarget | InvalidCallData

  function BuildMessage(chain: ParaId, callData: seq<Byte>, maxFee: nat, pool: PoolId, tx: TxId): Result<Message> {
    if |callData| > MAX_CALL then Failure(MessageFormatError)
    else Success(Message(chain, callData, maxFee, pool, tx))
  }

  function FormatForParachain(chain: ParaId, callData: seq<Byte>, maxFee: nat, pool: PoolId, tx: TxId)
    : Result<Message>
  {
    if !Supported(chain) then Failure(UnsupportedDestination)
    else BuildMessage(chain, callData, maxFee, pool, tx)
  }

  function ValidateMessage(message: Message): Validation {
    if !(2000 <= message.target <= 2100) then InvalidTarget
    else if message.call == [] || |message.call| > MAX_CALL then InvalidCallData
    else Valid
  }

  function SimulateDispatch(message: Message): Result<()> {
    if message.target == 9999 then Failure(UnsupportedDestination) else Success(())
  }

  function DispatchMessage(message: Message): Result<()> {
    if ValidateMessage(message) != Valid then Failure(MessageFormatError)
    else SimulateDispatch(message)
  }

  // ---- The send pipeline ----------------------------------------------------------------

  datatype PendingTransaction = PendingTransaction(
    transactionId: TxId, poolId: PoolId, user: AccountId, targetChain: ParaId, callHash: Hash,
    reservedFee: nat, retryCount: nat, createdAt: nat, lastRetryAt: nat)

  /** What a completed send has produced on its way: the message handed to the dispatcher
      and the entry handed to the tracker. */
  datatype Sent = Sent(message: Message, pending: PendingTransaction)

  function Send(hash: seq<Byte> -> Hash, block: nat, pool: PoolId, user: AccountId, chain: ParaId,
                callData: seq<Byte>, tx: TxId): Result<Sent>
  {
    var fee :- EstimateFee(chain, callData);
    var message :- FormatForParachain(chain, callData, fee, pool, tx);
    var pending := PendingTransaction(tx, pool, user, chain, hash(callData), fee, 0, block, block);
    var _ :- DispatchMessage(message);
    Success(Sent(message, pending))
  }

  /** A call the gateway will carry: non-empty and within the bounded vector. */
  predicate Deliverable(callData: seq<Byte>) {
    1 <= |callData| <= MAX_CALL
  }

  /** The price list: Acala, Astar, Parallel, Bifrost. */
  const BASE_FEES := map[2000 := 1000, 2006 := 800, 2012 := 1200, 2030 := 900]

  /** Fees of deliverable calls: the listed base plus two units a byte, inside a fixed band
      whose lower end is what keeps ids fresh. */
  lemma DeliverableFee(chain: ParaId, callData: seq<Byte>)
    requires Supported(chain) && Deliverable(callData)
    ensures chain in BASE_FEES
    ensures EstimateFee(chain, callData) == Success(BASE_FEES[chain] + 2 * |callData|)
    ensures MIN_FEE <= EstimateFee(chain, callData).value <= MAX_FEE
  {
    WrapIsIdentityIff(|callData|);
  }

  /** Both ends of the band are charged: one byte to Astar, and 1024 bytes to Parallel. */
  lemma FeeBandIsTight()
    ensures MIN_FEE == 802 && Deliverable([0]) && EstimateFee(2006, [0]) == Success(802)
    ensures MAX_FEE == 3248 && Deliverable(seq(1024, _ => 0)) && EstimateFee(2012, seq(1024, _ => 0)) == Success(3248)
    ensures !Deliverable([]) && !Deliverable(seq(1025, _ => 0))
  {
    DeliverableFee(2006, [0]);
    DeliverableFee(2012, seq(1024, _ => 0));
  }

  /** The quote offered over RPC, chain by chain: the fee that a sponsorship is charged where the
      estimator has a price, and 1000 plus ten units a byte elsewhere, the bytes read as none when
      their number does not fit 32 bits. Nothing saturates. */
  lemma RpcQuotes(chain: ParaId, callData: seq<Byte>)
    ensures chain in BASE_FEES <==> chain == 2000 || chain == 2006 || chain == 2012 || chain == 2030
    ensures chain in BASE_FEES <==> EstimateFee(chain, callData).Success?
    ensures chain in BASE_FEES ==> EstimateFee(chain, callData) == Success(RpcEstimate(chain, callData))
    ensures chain in BASE_FEES && |callData| <= 4_294_967_295 ==>
      RpcEstimate(chain, callData) == 2 * |callData| +
        (if chain == 2000 then 1000 else if chain == 2006 then 800 else if chain == 2012 then 1200 else 900)
    ensures chain !in BASE_FEES ==>
      RpcEstimate(chain, callData) == 1000 + if |callData| <= 4_294_967_295 then 10 * |callData| else 0
  {
    WrapIsIdentityIff(|callData|);
  }

  /** The fee is base plus two units a byte exactly while the length fits 32 bits. */
  lemma FeeIsLinearIff(chain: ParaId, callData: seq<Byte>)
    requires Supported(chain)
    ensures chain in BASE_FEES
    ensures EstimateFee(chain, callData) == Success(BASE_FEES[chain] + 2 * |callData|) <==> |callData| <= MAX_U32
  {
    WrapIsIdentityIff(|callData|);
  }

  /** The composition of all stages accepts exactly the deliverable calls to supported
      chains, names the failing stage otherwise, and carries one fee through: what the RPC
      quotes is what the message may spend and what the tracker holds back. */
  lemma SendOutcome(hash: seq<Byte> -> Hash, block: nat, pool: PoolId, user: AccountId, chain: ParaId,
                    callData: seq<Byte>, tx: TxId)
    ensures var r := Send(hash, block, pool, user, chain, callData, tx);
      && (r.Success? <==> Supported(chain) && Deliverable(callData))
      && (r == Failure(UnsupportedDestination) <==> !Supported(chain))
      && (r == Failure(MessageFormatError) <==> Supported(chain) && !Deliverable(callData))
      && (r.Success? ==>
            var fee := RpcEstimate(chain, callData);
            && r.value.message == Message(chain, callData, fee, pool, tx)
            && r.value.pending == PendingTransaction(tx, pool, user, chain, hash(callData), fee, 0, block, block))
  {
    if Supported(chain) && |callData| <= MAX_CALL {
      assert FormatForParachain(chain, callData, EstimateFee(chain, callData).value, pool, tx).Success?;
    }
  }

  /** The dispatcher takes exactly the messages of 1 to 1024 bytes to a destination from 2000 to
      2100. The simulated transport failure at destination 9999 sits behind that validation, so it
      is never the one reported. */
  lemma DispatchOutcome(message: Message)
    ensures DispatchMessage(message) == Success(()) <==>
      2000 <= message.target <= 2100 && 1 <= |message.call| <= 1024
    ensures DispatchMessage(message) != Success(()) ==> DispatchMessage(message) == Failure(MessageFormatError)
    ensures ValidateMessage(message) == InvalidTarget <==> message.target < 2000 || message.target > 2100
    ensures ValidateMessage(message) == InvalidCallData <==>
      2000 <= message.target <= 2100 && (message.call == [] || |message.call| > 1024)
  {
  }

  // ---- Receipts -------------------------------------------------------------------------

  datatype ExecutionResult = Executed | Rejected(message: seq<Byte>) | TimedOut | OutOfFunds

  datatype Receipt = Receipt(
    transactionId: TxId, targetChain: ParaId, executionResult: ExecutionResult,
    actualGasUsed: nat, blockHash: Hash, blockNumber: nat)

  datatype ReceiptResult = Processed | InvalidReceipt

  /** Every branch after validation only logs, so the verdict is the validator's. */
  function ProcessReceipt(receipt: Receipt): ReceiptResult {
    if receipt.transactionId == 0 then InvalidReceipt
    else if receipt.targetChain == 0 then InvalidReceipt
    else if receipt.blockHash == ZERO_HASH then InvalidReceipt
    else match receipt.executionResult
      case Executed => Processed
      case Rejected(_) => Processed
      case TimedOut => Processed
      case OutOfFunds => Processed
  }
}
