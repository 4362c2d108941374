/**
 * The values the miner passes around: a pending transfer (TransactionModel)
 * and a block (BlockModel). The ledger stores and returns blocks as values (they
 * travel as JSON); the block the miner is building is an object whose fields it
 * assigns one by one, and which the nonce search completes in place.
 */
module Models {

  /** A transfer waiting in the intake queue. Account ids are `uint` in the source. */
  datatype Transaction = Transaction(sender: nat, receiver: nat, amount: real)

  /** A block as the ledger holds it. */
  datatype Block = Block(
    blockId: nat,
    walletIdFrom: nat,
    walletIdTo: nat,
    amount: real,
    blockOffset: nat,
    prevBlockHashStr: string,
    currBlockHashStr: string)

  /** The block object under construction in the mining thread. */
  class BlockModel {
    var blockId: nat
    var walletIdFrom: nat
    var walletIdTo: nat
    var amount: real
    var blockOffset: nat
    var prevBlockHashStr: string
    var currBlockHashStr: string

    /** A fresh block has every field at its default (strings as empty text). */
    constructor ()
      ensures Value() == Block(0, 0, 0, 0.0, 0, "", "")
    {
      blockId, walletIdFrom, walletIdTo, amount := 0, 0, 0, 0.0;
      blockOffset, prevBlockHashStr, currBlockHashStr := 0, "", "";
    }

    /** The block this object currently describes, as it would be submitted. */
    function Value(): Block
      reads this
    {
      Block(blockId, walletIdFrom, walletIdTo, amount, blockOffset, prevBlockHashStr, currBlockHashStr)
    }
  }
}
