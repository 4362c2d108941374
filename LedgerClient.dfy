/**
 * The ledger service as the miner sees it through its REST client (DataModel):
 * a chain of blocks and a table of coin balances that live on the server. Each
 * client call becomes a method on that remote state. How the server settles a
 * block into balances is not visible from the miner, so it is a function given
 * when the ledger is created.
 */
module LedgerClient {
  import opened Models

  type Balances = map<nat, real>

  /** The coin balance of `account`: its entry, or 0 when the ledger has none. */
  function Balance(balances: Balances, account: nat): real
  {
    if account in balances then balances[account] else 0.0
  }

  class Ledger {
    var chain: seq<Block>
    var balances: Balances
    /** How many times the reserved-account bootstrap was requested. */
    var reservedRequests: nat
    /** The block the server puts at the start of the chain for the reserved bank. */
    const genesis: Block
    /** The server's bookkeeping when it accepts a block. */
    const settle: (Balances, Block) -> Balances

    constructor (genesis: Block, balances: Balances, settle: (Balances, Block) -> Balances)
      ensures this.genesis == genesis && this.settle == settle
      ensures chain == [] && this.balances == balances && reservedRequests == 0
    {
      this.genesis, this.settle := genesis, settle;
      chain, this.balances, reservedRequests := [], balances, 0;
    }

    /** Asks the server to create the reserved bank block; it does so only on an empty chain. */
    method ReservedBankAcct()
      modifies this
      ensures reservedRequests == old(reservedRequests) + 1
      ensures chain == if old(chain) == [] then [genesis] else old(chain)
      ensures balances == old(balances)
    {
      reservedRequests := reservedRequests + 1;
      if chain == [] {
        chain := [genesis];
      }
    }

    /** Hands a mined block to the server, which appends it and settles it. */
    method SubmitNewBlock(block: Block)
      modifies this
      ensures chain == old(chain) + [block]
      ensures balances == settle(old(balances), block)
      ensures reservedRequests == old(reservedRequests)
    {
      chain := chain + [block];
      balances := settle(balances, block);
    }

    /** The coin balance of `user`, 0 when the ledger has none recorded. */
    method GetTransactedCurrCoinBalance(user: nat) returns (bal: real)
      ensures bal == Balance(balances, user)
    {
      bal := 0.0;
      if user in balances {
        bal := balances[user];
      }
    }

    /** The whole chain, oldest block first. */
    method GetBlockList() returns (blockList: seq<Block>)
      ensures blockList == chain
    {
      blockList := chain;
    }
  }
}
