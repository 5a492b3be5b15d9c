/**
 * The reader itself: a block cursor and the two collections, updated in
 * place by a loop over each block's transactions and a loop over blocks.
 */
module Reader {
  import opened Ledger
  import opened Decode
  import opened Store
  import opened Pipeline

  class Reader {
    /** The decoding strategy, fixed by the configured contract schema name. */
    const strategy: Strategy
    /** The identity time-to-live, in seconds. */
    const identityTimeout: int
    /** The next block to scan. */
    var actualBlock: int
    var identities: map<string, Identity>
    var transactions: map<string, TxRecord>

    function Snapshot(): Stores
      reads this
    {
      Stores(identities, transactions)
    }

    function State(): ScanState
      reads this
    {
      ScanState(actualBlock, Snapshot())
    }

    ghost predicate Valid()
      reads this
    {
      Keyed(Snapshot())
    }

    constructor (contractFile: string, startBlock: int, identityTimeoutSeconds: int)
      ensures strategy == StrategyFor(contractFile) && identityTimeout == identityTimeoutSeconds
      ensures actualBlock == startBlock && identities == map[] && transactions == map[]
      ensures Valid()
    {
      strategy := StrategyFor(contractFile);
      identityTimeout := identityTimeoutSeconds;
      actualBlock := startBlock;
      identities := map[];
      transactions := map[];
    }

    /**
     * Walks the transactions of `b` from index 0 until the first index with
     * no hash; every skip moves on to the next index, and the method returns
     * (the completion callback) once, after the last one.
     */
    method ParseBlock(env: Env, b: Block)
      requires Valid() && BlockServed(env.chain, b)
      modifies this
      ensures Valid()
      ensures Snapshot() == BlockEffect(env, strategy, old(Snapshot()), b)
      ensures actualBlock == old(actualBlock)
    {
      var i := 0;
      while i < |b.transactions| && b.transactions[i] != ""
        invariant i <= BlockEnd(b.transactions)
        invariant Snapshot() == ApplyAll(env, old(Snapshot()), Outcomes(env, strategy, b, i))
        invariant actualBlock == old(actualBlock)
        invariant Valid()
        decreases |b.transactions| - i
      {
        var outcome := ProcessTx(env, strategy, b.number, i, b.transactions[i]);
        StoreOutcome(env, outcome);
        OutcomesExtend(env, strategy, b, i);
        ApplyAllExtend(env, old(Snapshot()), Outcomes(env, strategy, b, i), outcome);
        i := i + 1;
      }
      assert i == BlockEnd(b.transactions);
    }

    /**
     * The two upserts of an outcome: the identity under its contract address,
     * then the transaction under its hash, whether or not the first succeeded.
     */
    method StoreOutcome(env: Env, outcome: TxOutcome)
      requires Valid()
      modifies this
      ensures Valid()
      ensures Snapshot() == Apply(env, old(Snapshot()), outcome)
      ensures actualBlock == old(actualBlock)
    {
      if outcome.Ingested? {
        if env.acceptsIdentity(outcome.identity) {
          identities := Upsert(identities, outcome.identity.id, outcome.identity);
        }
        if env.acceptsTx(outcome.record) {
          transactions := Upsert(transactions, outcome.record.tx.hash, outcome.record);
        }
      }
    }

    /** Fetches block `n` and walks it; a block that cannot be fetched is passed over. */
    method ScanBlock(env: Env, n: int)
      requires Valid() && Serves(env.chain, n, n)
      modifies this
      ensures Valid()
      ensures Snapshot() == ScanEffect(env, strategy, old(Snapshot()), n)
      ensures actualBlock == old(actualBlock)
    {
      var fetched := env.chain.blocks[n];
      if fetched.Some? {
        ParseBlock(env, fetched.value);
      }
    }

    /**
     * Scans from the cursor up to `blockNumber`, moving the cursor by one
     * after each block whether or not it could be fetched.
     */
    method ProcessTransactions(env: Env, blockNumber: int)
      requires Valid() && Serves(env.chain, actualBlock, blockNumber)
      modifies this
      ensures Valid()
      ensures State() == Drain(env, strategy, old(State()), blockNumber)
      ensures old(actualBlock) <= blockNumber ==> actualBlock == blockNumber + 1
      ensures old(actualBlock) > blockNumber ==> State() == old(State())
      ensures Snapshot() == ApplyAll(env, old(Snapshot()), DrainOutcomes(env, strategy, old(actualBlock), blockNumber))
    {
      while actualBlock <= blockNumber
        invariant Valid()
        invariant Serves(env.chain, actualBlock, blockNumber)
        invariant Drain(env, strategy, State(), blockNumber) == Drain(env, strategy, old(State()), blockNumber)
        decreases blockNumber - actualBlock + 1
      {
        ScanBlock(env, actualBlock);
        actualBlock := actualBlock + 1;
      }
      DrainAppliesAllOutcomes(env, strategy, old(State()), blockNumber);
    }

    /**
     * One cycle of start: fetch the chain height and, when it succeeds and
     * the cursor is not past it, drain up to it. A failed height fetch
     * leaves everything as it was.
     */
    method Start(env: Env)
      requires Valid()
      requires env.chain.height.Some? ==> Serves(env.chain, actualBlock, env.chain.height.value)
      modifies this
      ensures Valid()
      ensures State() == Cycle(env, strategy, old(State()))
    {
      var fetched := env.chain.height;
      if fetched.Some? && actualBlock <= fetched.value {
        ProcessTransactions(env, fetched.value);
      }
    }

    /** The identities a find returns at time `now`: the expired ones are left out. */
    method FindIdentities(now: int) returns (found: map<string, Identity>)
      ensures found == VisibleIdentities(identities, identityTimeout, now)
      ensures forall a :: a in found ==> a in identities && found[a] == identities[a]
      ensures forall a :: a in identities ==> (a in found <==> now < identities[a].createdAt + identityTimeout * MillisPerSecond)
    {
      found := VisibleIdentities(identities, identityTimeout, now);
    }

    /** The number a count on the identity collection returns at time `now`. */
    method CountIdentities(now: int) returns (count: nat)
      ensures count == IdentityCount(identities, identityTimeout, now)
      ensures count <= |identities|
    {
      var found := FindIdentities(now);
      count := |found|;
      CountBoundedByStore(identities, identityTimeout, now);
    }
  }
}
