/** The tracker of an L2 tx inside the sequencer. */
module Trackers {
  import opened Basics

  datatype DropReason = ErrDuplicatedNonce | ErrIntrinsicInvalidNonce

  /** What the tx itself fixes, the field the address queue writes, and the fields of
      the effective gas price that the finalizer writes. */
  class TxTracker {
    const hash: string
    const nonce: nat
    const gasPrice: nat
    const cost: nat
    const receivedAt: int
    /** Gas used according to the pool's own execution. */
    const gasUsed: nat
    var failedReason: Option<DropReason>
    var effectiveGasPrice: nat
    var egpPercentage: nat
    var isLastExecution: bool
    var l1GasPrice: nat
    var l2GasPrice: nat

    constructor (hash: string, nonce: nat, gasPrice: nat, cost: nat, receivedAt: int, gasUsed: nat)
      ensures this.hash == hash && this.nonce == nonce && this.gasPrice == gasPrice && this.cost == cost
      ensures this.receivedAt == receivedAt && this.gasUsed == gasUsed && failedReason == None
      ensures effectiveGasPrice == 0 && egpPercentage == 0 && !isLastExecution
    {
      this.hash, this.nonce, this.gasPrice, this.cost := hash, nonce, gasPrice, cost;
      this.receivedAt, this.gasUsed, failedReason := receivedAt, gasUsed, None;
      effectiveGasPrice, egpPercentage, isLastExecution, l1GasPrice, l2GasPrice := 0, 0, false, 0, 0;
    }
  }
}
