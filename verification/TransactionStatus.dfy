/** Where a transaction record stands between being built and being mined. */
module TransactionStatus {

  /** The height is the target height, or the height of the block for a confirmed transaction. */
  datatype Status = Calculated(height: nat) | Transmitted(height: nat) | Mempool(height: nat) | Confirmed(height: nat)
}
