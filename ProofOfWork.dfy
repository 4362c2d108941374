/**
 * The nonce ("offset") search of `newHashGenerator`. Candidate offsets are
 * 5, 10, 15, ...; each is hashed together with the block's other fields, and the
 * search stops at the first one whose digest text starts with "12345".
 *
 * SHA-256 followed by `BitConverter.ToUInt64(hash, 0).ToString()`, and the
 * float formatting of the amount, are library code: they are the two function
 * values of `Primitives`, about which nothing is assumed.
 */
module ProofOfWork {
  import opened Wrappers
  import opened Decimal
  import opened Models

  datatype Primitives = Primitives(
    digest: string -> string,     // UTF-8, SHA-256, first 8 bytes as a decimal uint64
    amountText: real -> string)   // float.ToString()

  /** The difficulty prefix every mined hash must start with. */
  const DifficultyPrefix: string := "12345"

  /** The loop guard's test: the hash text starts with the difficulty prefix. */
  predicate HasDifficultyPrefix(hash: string) {
    DifficultyPrefix <= hash
  }

  /** The offsets the search tries: positive multiples of 5. */
  predicate IsCandidate(offset: int) {
    offset > 0 && offset % 5 == 0
  }

  /**
   * The text that is hashed for `offset`: block id, sender, receiver, amount,
   * offset and previous hash, concatenated without separators. It never looks at
   * the block's own offset or hash.
   */
  function Serialize(b: Block, offset: nat, p: Primitives): string
  {
    Show(b.blockId) + Show(b.walletIdFrom) + Show(b.walletIdTo)
      + p.amountText(b.amount) + Show(offset) + b.prevBlockHashStr
  }

  function HashAt(b: Block, offset: nat, p: Primitives): string {
    p.digest(Serialize(b, offset, p))
  }

  /** `offset` passes the difficulty test for the block's fields. */
  predicate Solves(b: Block, offset: nat, p: Primitives) {
    HasDifficultyPrefix(HashAt(b, offset, p))
  }

  /** No candidate offset below `bound` passes the test. */
  predicate NoSolutionBelow(b: Block, p: Primitives, bound: int) {
    forall k: nat :: IsCandidate(k) && k < bound ==> !Solves(b, k, p)
  }

  /**
   * A block carries a valid proof of work: its offset is a positive multiple of 5,
   * and its hash is the digest re-derived from its fields at that offset and
   * starts with the prefix. This is the check a verifier of the chain can redo.
   */
  predicate Sealed(b: Block, p: Primitives) {
    IsCandidate(b.blockOffset)
    && b.currBlockHashStr == HashAt(b, b.blockOffset, p)
    && HasDifficultyPrefix(b.currBlockHashStr)
  }

  /** `mined` is `draft` with only its offset and hash filled in. */
  predicate SameDraft(mined: Block, draft: Block) {
    mined.blockId == draft.blockId
    && mined.walletIdFrom == draft.walletIdFrom
    && mined.walletIdTo == draft.walletIdTo
    && mined.amount == draft.amount
    && mined.prevBlockHashStr == draft.prevBlockHashStr
  }

  /** The `n`-th offset tried, `5 * n`, passes the test. */
  predicate AttemptSolves(b: Block, p: Primitives, n: nat) {
    Solves(b, 5 * n, p)
  }

  /** None of the attempts strictly between `lo` and `hi` passes. */
  predicate NoAttemptBetween(b: Block, p: Primitives, lo: int, hi: int) {
    forall n: nat :: lo < n < hi ==> !AttemptSolves(b, p, n)
  }

  /**
   * Reference definition of the search, counted in attempts: the first attempt
   * after the `done` already made that passes, making at most `fuel` more.
   */
  function FirstSolution(b: Block, p: Primitives, done: nat, fuel: nat): (r: Option<nat>)
    ensures r.Some? ==> done < r.value <= done + fuel && AttemptSolves(b, p, r.value)
    ensures r.Some? ==> NoAttemptBetween(b, p, done, r.value)
    ensures r.None? ==> NoAttemptBetween(b, p, done, done + fuel + 1)
    decreases fuel
  {
    if fuel == 0 then None
    else if AttemptSolves(b, p, done + 1) then Some(done + 1)
    else FirstSolution(b, p, done + 1, fuel - 1)
  }

  /** Attempts and offsets agree: the first `n - 1` attempts failing means every candidate below `5 * n` fails. */
  lemma NoAttemptMeansNoSolution(b: Block, p: Primitives, n: nat)
    requires NoAttemptBetween(b, p, 0, n)
    ensures NoSolutionBelow(b, p, 5 * n)
  {
    forall k: nat | IsCandidate(k) && k < 5 * n
      ensures !Solves(b, k, p)
    {
      assert k == 5 * (k / 5) && 0 < k / 5 < n;
      assert !AttemptSolves(b, p, k / 5);
    }
  }

  /** The offset and hash fields take no part in what is hashed. */
  lemma SolvesIgnoresStamp(draft: Block, mined: Block, p: Primitives)
    requires SameDraft(mined, draft)
    ensures forall k: nat :: Solves(mined, k, p) == Solves(draft, k, p)
  {
    forall k: nat
      ensures Serialize(mined, k, p) == Serialize(draft, k, p)
    {
    }
  }

  /**
   * What `newHashGenerator` returns for `draft` when at most `fuel` hashes are
   * computed: the draft with the first passing offset and its hash filled in.
   */
  function Solve(draft: Block, p: Primitives, fuel: nat): (r: Option<Block>)
    ensures r.Some? ==> Sealed(r.value, p) && SameDraft(r.value, draft)
    ensures r.Some? ==> NoSolutionBelow(r.value, p, r.value.blockOffset)
    ensures r.Some? ==> r.value.blockOffset <= 5 * fuel
    ensures r.None? <==> NoSolutionBelow(draft, p, 5 * fuel + 1)
  {
    match FirstSolution(draft, p, 0, fuel)
    case None =>
      NoAttemptMeansNoSolution(draft, p, fuel + 1);
      None
    case Some(n) =>
      var mined := draft.(blockOffset := 5 * n, currBlockHashStr := HashAt(draft, 5 * n, p));
      NoAttemptMeansNoSolution(draft, p, n);
      SolvesIgnoresStamp(draft, mined, p);
      assert (5 * n) % 5 == 0;
      Some(mined)
  }

  /**
   * Searching longer never changes an answer already found: the fuel bound only
   * decides whether the search has finished, not what it finds.
   */
  lemma {:induction false} FirstSolutionFuelMonotone(b: Block, p: Primitives, done: nat, fuel: nat, more: nat)
    requires fuel <= more && FirstSolution(b, p, done, fuel).Some?
    ensures FirstSolution(b, p, done, more) == FirstSolution(b, p, done, fuel)
    decreases fuel
  {
    if !AttemptSolves(b, p, done + 1) {
      FirstSolutionFuelMonotone(b, p, done + 1, fuel - 1, more - 1);
    }
  }

  lemma SolveFuelMonotone(draft: Block, p: Primitives, fuel: nat, more: nat)
    requires fuel <= more && Solve(draft, p, fuel).Some?
    ensures Solve(draft, p, more) == Solve(draft, p, fuel)
  {
    FirstSolutionFuelMonotone(draft, p, 0, fuel, more);
  }

  /**
   * The fields are concatenated without separators, so different blocks can
   * share their hashed text, and with it every hash and every stamp: block 1
   * from account 23 and block 12 from account 3 are one example.
   */
  lemma SerializationAmbiguous(p: Primitives, offset: nat)
    ensures var a, b := Block(1, 23, 4, 10.0, 0, "h", ""), Block(12, 3, 4, 10.0, 0, "h", "");
            a != b && Serialize(a, offset, p) == Serialize(b, offset, p)
  {
    assert Show(23) == Show(2) + Show(3);
    assert Show(12) == Show(1) + Show(2);
  }

  /**
   * The search demands only the prefix: a mined hash need not end with "54321",
   * even though the doc comment of `newHashGenerator` says it does.
   */
  lemma SuffixNotRequired(draft: Block)
    ensures var r := Solve(draft, Primitives(_ => "12345", _ => "0"), 1);
            r.Some? && r.value.currBlockHashStr[|r.value.currBlockHashStr| - 5..] != "54321"
  {
    var p := Primitives(_ => "12345", _ => "0");
    assert Solves(draft, 5, p);
  }

  /**
   * The loop of `newHashGenerator`, stopped after `fuel` hashes if it has not
   * finished. When it finds an offset it writes that offset and its hash into the
   * block, and nothing else; when it runs out it has written nothing.
   */
  method NewHashGenerator(blockModel: BlockModel, p: Primitives, fuel: nat) returns (solved: bool)
    modifies blockModel
    ensures solved == Solve(old(blockModel.Value()), p, fuel).Some?
    ensures solved ==> blockModel.Value() == Solve(old(blockModel.Value()), p, fuel).value
    ensures !solved ==> blockModel.Value() == old(blockModel.Value())
  {
    ghost var draft := blockModel.Value();
    var validBlockOffset: nat := 0;
    var validHashStr := "";
    var attempts: nat := 0;
    while !HasDifficultyPrefix(validHashStr) && attempts < fuel
      invariant attempts <= fuel && validBlockOffset == 5 * attempts
      invariant validHashStr == if attempts == 0 then "" else HashAt(draft, validBlockOffset, p)
      invariant NoAttemptBetween(draft, p, 0, attempts)
      invariant blockModel.Value() == draft
    {
      validBlockOffset := validBlockOffset + 5;
      var newBlockStr := Serialize(blockModel.Value(), validBlockOffset, p);
      validHashStr := p.digest(newBlockStr);
      attempts := attempts + 1;
    }
    solved := HasDifficultyPrefix(validHashStr);
    assert solved ==> attempts > 0 && AttemptSolves(draft, p, attempts);
    assert !solved ==> NoAttemptBetween(draft, p, 0, fuel + 1);
    if solved {
      blockModel.blockOffset := validBlockOffset;
      blockModel.currBlockHashStr := validHashStr;
    }
  }
}
