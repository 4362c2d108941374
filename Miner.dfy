/**
 * The miner of MinerController: the intake endpoint that bootstraps the ledger
 * once and queues transfers, and the mining thread whose every iteration takes
 * the oldest queued transfer, checks it against the sender's balance, builds a
 * block on top of the chain's last block, searches its offset and submits it.
 *
 * `Iteration` is the meaning of one iteration on the state it reads and writes
 * (the queue here, the chain and balances on the ledger); `Drain` is the loop
 * run until the queue is empty. The class holds the controller's static state
 * and performs the same steps through the ledger's client calls.
 */
module Miner {
  import opened Wrappers
  import opened Models
  import opened ProofOfWork
  import opened LedgerClient

  /** What one iteration of the mining loop did. */
  datatype Outcome =
    | Idle                                     // the queue was empty
    | Rejected(tx: Transaction)                // non-positive amount or balance too low: dropped
    | NoTip(tx: Transaction)                   // the chain was empty, so the last block could not be read
    | Unsolved(tx: Transaction)                // the nonce search had not finished within the fuel
    | Submitted(tx: Transaction, block: Block) // a block was mined and handed to the ledger

  /** What an iteration reads and writes: the intake queue and the ledger's chain and balances. */
  datatype State = State(queue: seq<Transaction>, chain: seq<Block>, balances: Balances)

  /** The worker's validation: a positive amount the sender's balance covers. */
  predicate Accepts(t: Transaction, balances: Balances) {
    t.amount > 0.0 && Balance(balances, t.sender) >= t.amount
  }

  /** The candidate block for `t` on top of `tip`, before its offset is searched. */
  function Draft(t: Transaction, tip: Block): Block {
    Block(tip.blockId + 1, t.sender, t.receiver, t.amount, 0, tip.currBlockHashStr, "")
  }

  /** `b` follows `tip`: the next id, and the tip's hash as its previous hash. */
  predicate Extends(tip: Block, b: Block) {
    b.blockId == tip.blockId + 1 && b.prevBlockHashStr == tip.currBlockHashStr
  }

  /** `b` records the transfer `t`. */
  predicate Carries(t: Transaction, b: Block) {
    b.walletIdFrom == t.sender && b.walletIdTo == t.receiver && b.amount == t.amount
  }

  predicate LinkedAt(chain: seq<Block>, i: nat)
    requires 0 < i < |chain|
  {
    Extends(chain[i - 1], chain[i])
  }

  /**
   * A valid chain: every block after the first follows its predecessor and
   * carries a proof of work that re-derives from its own fields.
   */
  predicate ValidChain(chain: seq<Block>, p: Primitives) {
    forall i: nat :: 0 < i < |chain| ==> LinkedAt(chain, i) && Sealed(chain[i], p)
  }

  /** Appending a block that follows the last one and is sealed keeps a chain valid. */
  lemma ValidChainAppend(chain: seq<Block>, b: Block, p: Primitives)
    requires chain != [] && Extends(chain[|chain| - 1], b) && Sealed(b, p)
    requires ValidChain(chain, p)
    ensures ValidChain(chain + [b], p)
  {
    var c := chain + [b];
    forall i: nat | 0 < i < |c|
      ensures LinkedAt(c, i) && Sealed(c[i], p)
    {
      if i < |chain| {
        assert LinkedAt(chain, i);
      }
    }
  }

  /** One iteration of the mining loop, with at most `fuel` hashes for the nonce search. */
  function Iteration(s: State, p: Primitives, settle: (Balances, Block) -> Balances, fuel: nat): (r: (Outcome, State))
    // An empty queue: nothing changes.
    ensures s.queue == [] ==> r == (Idle, s)
    // Otherwise exactly the head is taken off, and the outcome is about it.
    ensures s.queue != [] ==> !r.0.Idle? && r.0.tx == s.queue[0] && r.1.queue == s.queue[1..]
    // Dropped exactly when the amount is not positive or the balance does not cover it.
    ensures r.0.Rejected? <==> s.queue != [] && !Accepts(s.queue[0], s.balances)
    // The tip lookup fails exactly on an accepted transfer and an empty chain.
    ensures r.0.NoTip? <==> s.queue != [] && Accepts(s.queue[0], s.balances) && s.chain == []
    // Nothing submitted: the ledger is untouched.
    ensures !r.0.Submitted? ==> r.1.chain == s.chain && r.1.balances == s.balances
    // Submitted: an accepted transfer, one block appended, then settled by the ledger.
    ensures r.0.Submitted? ==>
              Accepts(r.0.tx, s.balances) && s.chain != []
              && r.1.chain == s.chain + [r.0.block]
              && r.1.balances == settle(s.balances, r.0.block)
  {
    if s.queue == [] then (Idle, s)
    else
      var t, rest := s.queue[0], s.queue[1..];
      if !Accepts(t, s.balances) then (Rejected(t), s.(queue := rest))
      else if s.chain == [] then (NoTip(t), s.(queue := rest))
      else
        match Solve(Draft(t, s.chain[|s.chain| - 1]), p, fuel)
        case None => (Unsolved(t), s.(queue := rest))
        case Some(b) => (Submitted(t, b), State(rest, s.chain + [b], settle(s.balances, b)))
  }

  /**
   * The block an iteration submits follows the old tip, records the dequeued
   * transfer, carries a valid proof of work, and has the smallest offset that
   * passes; an unfinished search has found no passing offset within its fuel.
   */
  lemma IterationMinesOnTip(s: State, p: Primitives, settle: (Balances, Block) -> Balances, fuel: nat)
    ensures var (o, _) := Iteration(s, p, settle, fuel);
            o.Submitted? ==>
              Extends(s.chain[|s.chain| - 1], o.block) && Carries(o.tx, o.block)
              && Sealed(o.block, p) && NoSolutionBelow(o.block, p, o.block.blockOffset)
    ensures var (o, _) := Iteration(s, p, settle, fuel);
            o.Unsolved? ==>
              s.chain != [] && NoSolutionBelow(Draft(o.tx, s.chain[|s.chain| - 1]), p, 5 * fuel + 1)
  {
  }

  /** An iteration keeps a valid chain valid. */
  lemma IterationKeepsChainValid(s: State, p: Primitives, settle: (Balances, Block) -> Balances, fuel: nat)
    requires ValidChain(s.chain, p)
    ensures ValidChain(Iteration(s, p, settle, fuel).1.chain, p)
  {
    var (o, s1) := Iteration(s, p, settle, fuel);
    if o.Submitted? {
      IterationMinesOnTip(s, p, settle, fuel);
      ValidChainAppend(s.chain, o.block, p);
    }
  }

  /** The worker never reaches another iteration after this outcome. */
  predicate Halts(o: Outcome) {
    o.NoTip? || o.Unsolved?
  }

  /** The blocks submitted by a run of iterations, in the order they were submitted. */
  function Submissions(outcomes: seq<Outcome>): seq<Block> {
    if outcomes == [] then []
    else (if outcomes[0].Submitted? then [outcomes[0].block] else []) + Submissions(outcomes[1..])
  }

  /**
   * The mining loop run until the queue is empty or the worker stops: a
   * `NoTip` ends the thread (the exception is rethrown), and an `Unsolved`
   * search is still running when the fuel runs out.
   */
  function Drain(s: State, p: Primitives, settle: (Balances, Block) -> Balances, fuel: nat): (r: (seq<Outcome>, State))
    // FIFO, exactly once: the i-th outcome is about the i-th queued transfer ...
    ensures |r.0| <= |s.queue|
    ensures forall i :: 0 <= i < |r.0| ==> !r.0[i].Idle? && r.0[i].tx == s.queue[i]
    // ... and exactly the handled transfers have left the queue.
    ensures r.1.queue == s.queue[|r.0|..]
    decreases |s.queue|
  {
    if s.queue == [] then ([], s)
    else
      var (o, s1) := Iteration(s, p, settle, fuel);
      if Halts(o) then ([o], s1)
      else
        var (os, s2) := Drain(s1, p, settle, fuel);
        ([o] + os, s2)
  }

  /** The run stops before the queue is empty only when the worker stops. */
  lemma {:induction false} DrainStopsOnlyWhenWorkerStops(
    s: State, p: Primitives, settle: (Balances, Block) -> Balances, fuel: nat)
    ensures var outs := Drain(s, p, settle, fuel).0;
            (forall i :: 0 <= i < |outs| - 1 ==> !Halts(outs[i]))
            && (|outs| < |s.queue| ==> outs != [] && Halts(outs[|outs| - 1]))
    decreases |s.queue|
  {
    if s.queue != [] {
      var (o, s1) := Iteration(s, p, settle, fuel);
      if !Halts(o) {
        DrainStopsOnlyWhenWorkerStops(s1, p, settle, fuel);
        var os := Drain(s1, p, settle, fuel).0;
        var outs := [o] + os;
        assert forall i :: 0 < i < |outs| ==> outs[i] == os[i - 1];
      }
    }
  }

  /** On a non-empty chain the run never stops because the tip lookup failed. */
  lemma {:induction false} DrainKeepsTip(
    s: State, p: Primitives, settle: (Balances, Block) -> Balances, fuel: nat)
    requires s.chain != []
    ensures forall o <- Drain(s, p, settle, fuel).0 :: !o.NoTip?
    decreases |s.queue|
  {
    if s.queue != [] {
      var (o, s1) := Iteration(s, p, settle, fuel);
      if !Halts(o) {
        DrainKeepsTip(s1, p, settle, fuel);
      }
    }
  }

  /** The chain grows by exactly the submitted blocks, in the order they were submitted. */
  lemma {:induction false} DrainAppendsSubmissions(
    s: State, p: Primitives, settle: (Balances, Block) -> Balances, fuel: nat)
    ensures Drain(s, p, settle, fuel).1.chain == s.chain + Submissions(Drain(s, p, settle, fuel).0)
    decreases |s.queue|
  {
    if s.queue != [] {
      var (o, s1) := Iteration(s, p, settle, fuel);
      if !Halts(o) {
        DrainAppendsSubmissions(s1, p, settle, fuel);
        var (os, s2) := Drain(s1, p, settle, fuel);
        var mined := if o.Submitted? then [o.block] else [];
        assert Drain(s, p, settle, fuel) == ([o] + os, s2);
        assert ([o] + os)[1..] == os;
        assert Submissions([o] + os) == mined + Submissions(os);
        assert s1.chain == s.chain + mined;
        assert s2.chain == s.chain + (mined + Submissions(os));
      }
    }
  }

  /** A valid chain stays valid however many iterations run. */
  lemma {:induction false} DrainKeepsChainValid(
    s: State, p: Primitives, settle: (Balances, Block) -> Balances, fuel: nat)
    requires ValidChain(s.chain, p)
    ensures ValidChain(Drain(s, p, settle, fuel).1.chain, p)
    decreases |s.queue|
  {
    if s.queue != [] {
      var (o, s1) := Iteration(s, p, settle, fuel);
      IterationKeepsChainValid(s, p, settle, fuel);
      if !Halts(o) {
        DrainKeepsChainValid(s1, p, settle, fuel);
      }
    }
  }

  /**
   * Each iteration reads the balance afresh: when the ledger debits the sender as
   * it settles the mined block (as a ledger that debits the sender and credits the
   * receiver does whenever they differ), of two queued transfers from one sender that the balance
   * covers one at a time but not together, the second is dropped if the first is
   * mined.
   */
  lemma SecondSpendRejected(
    s: State, p: Primitives, settle: (Balances, Block) -> Balances, fuel: nat)
    requires |s.queue| >= 2 && s.queue[0].sender == s.queue[1].sender
    requires s.queue[0].amount > 0.0 && s.queue[1].amount > 0.0
    requires Balance(s.balances, s.queue[0].sender) < s.queue[0].amount + s.queue[1].amount
    requires Iteration(s, p, settle, fuel).0.Submitted?
    requires var b := Iteration(s, p, settle, fuel).0.block;
             Balance(settle(s.balances, b), b.walletIdFrom) == Balance(s.balances, b.walletIdFrom) - b.amount
    ensures Iteration(Iteration(s, p, settle, fuel).1, p, settle, fuel).0 == Rejected(s.queue[1])
  {
    var (o, s1) := Iteration(s, p, settle, fuel);
    assert s1.queue[0] == s.queue[1];
    assert Balance(s1.balances, o.block.walletIdFrom) == Balance(s.balances, o.block.walletIdFrom) - o.block.amount;
  }

  /**
   * The static state of MinerController: the one-time start flag and the intake
   * queue, together with the ledger the controller talks to and the hashing it
   * uses. Once started, the ledger's chain is never empty.
   */
  class MinerController {
    var isStart: bool
    var q: seq<Transaction>
    /** The worker is still inside the nonce search of the transfer it took last. */
    var searching: bool
    const ledger: Ledger
    const primitives: Primitives

    ghost predicate Valid()
      reads this, ledger
    {
      isStart ==> ledger.chain != []
    }

    constructor (ledger: Ledger, primitives: Primitives)
      ensures Valid() && !isStart && q == [] && !searching
      ensures this.ledger == ledger && this.primitives == primitives
    {
      isStart, q, searching := false, [], false;
      this.ledger, this.primitives := ledger, primitives;
    }

    /**
     * The intake endpoint: on the first call it asks the ledger for the reserved
     * bank block and starts the worker; every call appends the transfer to the queue.
     */
    method PostingTransaction(sender: nat, receiver: nat, amount: real)
      requires Valid()
      modifies this, ledger
      ensures Valid() && isStart
      ensures q == old(q) + [Transaction(sender, receiver, amount)]
      ensures searching == old(searching)
      ensures old(isStart) ==> unchanged(ledger)
      ensures !old(isStart) ==>
                ledger.reservedRequests == old(ledger.reservedRequests) + 1
                && ledger.chain == (if old(ledger.chain) == [] then [ledger.genesis] else old(ledger.chain))
                && ledger.balances == old(ledger.balances)
    {
      if !isStart {
        ledger.ReservedBankAcct();
        isStart := true;
      }
      var transactionModel := Transaction(sender, receiver, amount);
      q := q + [transactionModel];
    }

    /**
     * One iteration of the mining thread, with at most `fuel` hashes for the search.
     * An `Unsolved` outcome leaves the worker searching, and no further iteration runs.
     */
    method MiningIteration(fuel: nat) returns (outcome: Outcome)
      requires Valid() && isStart && !searching
      modifies this, ledger
      ensures Valid() && isStart
      ensures searching <==> outcome.Unsolved?
      ensures var (o, s) := Iteration(old(State(q, ledger.chain, ledger.balances)), primitives, ledger.settle, fuel);
              outcome == o && q == s.queue && ledger.chain == s.chain && ledger.balances == s.balances
      ensures !outcome.NoTip?
      ensures ledger.reservedRequests == old(ledger.reservedRequests)
    {
      if |q| > 0 {
        var transactionModel := q[0];
        q := q[1..];
        if transactionModel.amount > 0.0 {
          var coinBal := ledger.GetTransactedCurrCoinBalance(transactionModel.sender);
          if coinBal >= transactionModel.amount {
            var blockList := ledger.GetBlockList();
            var prevBlock := blockList[|blockList| - 1];
            var blockModel := new BlockModel();
            blockModel.blockId := prevBlock.blockId + 1;
            blockModel.prevBlockHashStr := prevBlock.currBlockHashStr;
            blockModel.walletIdFrom := transactionModel.sender;
            blockModel.walletIdTo := transactionModel.receiver;
            blockModel.amount := transactionModel.amount;
            assert blockModel.Value() == Draft(transactionModel, prevBlock);
            var solved := NewHashGenerator(blockModel, primitives, fuel);
            if solved {
              ledger.SubmitNewBlock(blockModel.Value());
              outcome := Submitted(transactionModel, blockModel.Value());
            } else {
              outcome := Unsolved(transactionModel);
              searching := true;
            }
          } else {
            outcome := Rejected(transactionModel);
          }
        } else {
          outcome := Rejected(transactionModel);
        }
      } else {
        outcome := Idle;
      }
    }
  }

  /**
   * A client of the controller, on a chain holding only the reserved bank block:
   * a transfer of 10 from account 1 to account 2, posted twice by a sender with
   * no balance. The ledger is bootstrapped once, and the first iteration drops the
   * oldest transfer and leaves the chain at its one block.
   */
  method UnfundedScenario(genesis: Block, settle: (Balances, Block) -> Balances)
  {
    var t := Transaction(1, 2, 10.0);
    var ledger := new Ledger(genesis, map[], settle);
    var miner := new MinerController(ledger, Primitives(_ => "1234567", _ => "10"));
    miner.PostingTransaction(1, 2, 10.0);
    miner.PostingTransaction(1, 2, 10.0);
    assert ledger.reservedRequests == 1 && ledger.chain == [genesis] && miner.q == [t, t];
    var o := miner.MiningIteration(1);
    assert o == Rejected(t) && ledger.chain == [genesis] && miner.q == [t];
  }

  /**
   * The same transfer from a sender with a balance of 50 becomes block 1 on top of
   * the reserved block (with a digest that passes at once, the offset is 5).
   */
  method FundedScenario(genesis: Block, settle: (Balances, Block) -> Balances)
  {
    var ledger := new Ledger(genesis, map[1 := 50.0], settle);
    var miner := new MinerController(ledger, Primitives(_ => "1234567", _ => "10"));
    miner.PostingTransaction(1, 2, 10.0);
    var o := miner.MiningIteration(1);
    assert o.Submitted? && |ledger.chain| == 2 && miner.q == [];
    assert o.block == Block(genesis.blockId + 1, 1, 2, 10.0, 5, genesis.currBlockHashStr, "1234567");
  }

  /**
   * A controller started against a ledger whose chain already holds the reserved
   * block: its first post asks for the reserved account again, the chain stays
   * as it was, and the transfer is mined on top of it.
   */
  method RestartScenario(genesis: Block, settle: (Balances, Block) -> Balances)
  {
    var ledger := new Ledger(genesis, map[1 := 50.0], settle);
    ledger.ReservedBankAcct();
    var miner := new MinerController(ledger, Primitives(_ => "1234567", _ => "10"));
    miner.PostingTransaction(1, 2, 10.0);
    assert ledger.reservedRequests == 2 && ledger.chain == [genesis];
    var o := miner.MiningIteration(1);
    assert o.Submitted? && ledger.chain == [genesis, o.block];
  }
}
