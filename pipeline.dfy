/**
 * The ingestion pipeline as specification functions: the outcome of one
 * transaction, the effect of a block (its outcomes applied in index order),
 * the drain of the cursor up to the chain height, and one polling cycle.
 */
module Pipeline {
  import opened Options
  import opened JsonValues
  import opened Ledger
  import opened Decode
  import opened Store

  /**
   * Everything the reader consults besides its own state:
   * - `chain`: the ledger node;
   * - `parser`: JSON.parse;
   * - `clock`: the time in milliseconds at which the transaction at a
   *   (block number, index) is stamped;
   * - `acceptsIdentity`, `acceptsTx`: whether the store's update succeeds
   *   (a refused update leaves the collection as it was).
   */
  datatype Env = Env(
    chain: Chain,
    parser: map<string, Json>,
    clock: (int, nat) -> int,
    acceptsIdentity: Identity -> bool,
    acceptsTx: TxRecord -> bool)

  /** What one transaction leads to: a skip, or an identity and a transaction record to upsert. */
  datatype TxOutcome = Skipped(reason: Skip) | Ingested(identity: Identity, record: TxRecord)

  /**
   * The document stored for a decoded payload: createdAt becomes `now`
   * and _id the contract address; every other field of an object payload
   * is kept as decoded.
   */
  function Stamp(payload: Json, address: string, now: int): (identity: Identity)
    ensures identity.id == address && identity.createdAt == now
    ensures payload.JObject? ==>
      && identity.body.JObject?
      && identity.body.fields.Keys == payload.fields.Keys - {"createdAt", "_id"}
      && forall k :: k in identity.body.fields ==> identity.body.fields[k] == payload.fields[k]
    ensures !payload.JObject? ==> identity.body == payload
  {
    var body := if payload.JObject? then JObject(payload.fields - {"createdAt", "_id"}) else payload;
    Identity(address, body, now)
  }

  /**
   * One transaction of block `blockNumber` at `index`: fetch it, keep it only
   * if private, resolve its contract, decode the identity with the configured
   * strategy, skip a falsy payload, and stamp the rest. The schema check on
   * the stamped identity has no effect on the outcome.
   */
  function ProcessTx(env: Env, strategy: Strategy, blockNumber: int, index: nat, hash: string): (o: TxOutcome)
    requires hash in env.chain.txs
    ensures env.chain.txs[hash].None? ==> o == Skipped(TxFetchFailed)
    ensures env.chain.txs[hash].Some? && !IsPrivate(env.chain.txs[hash].value.v) ==> o == Skipped(PublicTx)
    ensures o.Ingested? <==>
      && env.chain.txs[hash].Some?
      && IsPrivate(env.chain.txs[hash].value.v)
      && ResolveAddress(env.chain, env.chain.txs[hash].value).Ok?
      && var address := ResolveAddress(env.chain, env.chain.txs[hash].value).value;
         && DecodeIdentity(env.parser, strategy, ContractAt(env.chain, address)).Ok?
         && Truthy(DecodeIdentity(env.parser, strategy, ContractAt(env.chain, address)).value)
    ensures o.Ingested? ==>
      && o.record.tx == env.chain.txs[hash].value
      && o.record.tx.v in {Some(37), Some(38)}
      && ResolveAddress(env.chain, o.record.tx) == Ok(o.identity.id)
      && o.record.contractAddress == o.identity.id
      && o.identity.createdAt == env.clock(blockNumber, index)
    ensures o.Ingested? ==>
      && DecodeIdentity(env.parser, strategy, ContractAt(env.chain, o.identity.id)).Ok?
      && o.identity == Stamp(DecodeIdentity(env.parser, strategy, ContractAt(env.chain, o.identity.id)).value,
                             o.identity.id, env.clock(blockNumber, index))
  {
    match env.chain.txs[hash]
    case None => Skipped(TxFetchFailed)
    case Some(tx) =>
      if !IsPrivate(tx.v) then Skipped(PublicTx)
      else
        match ResolveAddress(env.chain, tx)
        case Err(reason) => Skipped(reason)
        case Ok(address) =>
          match DecodeIdentity(env.parser, strategy, ContractAt(env.chain, address))
          case Err(reason) => Skipped(reason)
          case Ok(payload) =>
            if !Truthy(payload) then Skipped(FalsyPayload)
            else Ingested(Stamp(payload, address, env.clock(blockNumber, index)), TxRecord(tx, address))
  }

  /**
   * The two upserts of an ingested transaction: the identity under its
   * contract address, then the transaction under its hash. A refused
   * identity update does not prevent the transaction update.
   */
  function Apply(env: Env, s: Stores, o: TxOutcome): (r: Stores)
    ensures o.Skipped? ==> r == s
    ensures Keyed(s) ==> Keyed(r)
    ensures s.identities.Keys <= r.identities.Keys && s.transactions.Keys <= r.transactions.Keys
    ensures o.Ingested? && env.acceptsIdentity(o.identity) ==>
      o.identity.id in r.identities && r.identities[o.identity.id] == o.identity
    ensures o.Ingested? && !env.acceptsIdentity(o.identity) ==> r.identities == s.identities
    ensures o.Ingested? && env.acceptsTx(o.record) ==>
      o.record.tx.hash in r.transactions && r.transactions[o.record.tx.hash] == o.record
    ensures o.Ingested? && !env.acceptsTx(o.record) ==> r.transactions == s.transactions
    ensures o.Ingested? ==> r.identities.Keys <= s.identities.Keys + {o.identity.id}
    ensures o.Ingested? ==> forall a :: a in s.identities && a != o.identity.id ==> r.identities[a] == s.identities[a]
    ensures o.Ingested? ==> r.transactions.Keys <= s.transactions.Keys + {o.record.tx.hash}
    ensures o.Ingested? ==> forall h :: h in s.transactions && h != o.record.tx.hash ==> r.transactions[h] == s.transactions[h]
  {
    match o
    case Skipped(_) => s
    case Ingested(identity, record) =>
      Stores(
        if env.acceptsIdentity(identity) then Upsert(s.identities, identity.id, identity) else s.identities,
        if env.acceptsTx(record) then Upsert(s.transactions, record.tx.hash, record) else s.transactions)
  }

  /** The outcomes applied one after another, first to last. */
  function ApplyAll(env: Env, s: Stores, os: seq<TxOutcome>): (r: Stores)
    ensures Keyed(s) ==> Keyed(r)
    ensures s.identities.Keys <= r.identities.Keys && s.transactions.Keys <= r.transactions.Keys
    decreases |os|
  {
    if os == [] then s else Apply(env, ApplyAll(env, s, os[..|os| - 1]), os[|os| - 1])
  }

  /** Applying one more outcome extends the fold by one step. */
  lemma ApplyAllExtend(env: Env, s: Stores, os: seq<TxOutcome>, o: TxOutcome)
    ensures ApplyAll(env, s, os + [o]) == Apply(env, ApplyAll(env, s, os), o)
  {
    assert (os + [o])[..|os|] == os;
  }

  /** Applying two runs of outcomes one after the other is applying their concatenation. */
  lemma {:induction false} ApplyAllConcat(env: Env, s: Stores, xs: seq<TxOutcome>, ys: seq<TxOutcome>)
    ensures ApplyAll(env, ApplyAll(env, s, xs), ys) == ApplyAll(env, s, xs + ys)
    decreases |ys|
  {
    if ys == [] {
      assert xs + ys == xs;
    } else {
      var init := ys[..|ys| - 1];
      assert (xs + ys)[..|xs + ys| - 1] == xs + init;
      assert (xs + ys)[|xs + ys| - 1] == ys[|ys| - 1];
      ApplyAllConcat(env, s, xs, init);
    }
  }

  /** `o` writes the identity under address `a`. */
  predicate WritesIdentity(env: Env, o: TxOutcome, a: string) {
    o.Ingested? && o.identity.id == a && env.acceptsIdentity(o.identity)
  }

  /** `o` writes the transaction record under hash `h`. */
  predicate WritesTx(env: Env, o: TxOutcome, h: string) {
    o.Ingested? && o.record.tx.hash == h && env.acceptsTx(o.record)
  }

  /** An address holds exactly the identity of the last outcome that wrote it. */
  lemma {:induction false} LastIdentityWriteWins(env: Env, s: Stores, os: seq<TxOutcome>, a: string, j: nat)
    requires j < |os| && WritesIdentity(env, os[j], a)
    requires forall k :: j < k < |os| ==> !WritesIdentity(env, os[k], a)
    ensures a in ApplyAll(env, s, os).identities
    ensures ApplyAll(env, s, os).identities[a] == os[j].identity
    decreases |os|
  {
    if j < |os| - 1 {
      LastIdentityWriteWins(env, s, os[..|os| - 1], a, j);
    }
  }

  /** An address no outcome wrote keeps what it held before. */
  lemma {:induction false} UnwrittenIdentityUnchanged(env: Env, s: Stores, os: seq<TxOutcome>, a: string)
    requires forall k :: 0 <= k < |os| ==> !WritesIdentity(env, os[k], a)
    ensures (a in ApplyAll(env, s, os).identities) == (a in s.identities)
    ensures a in s.identities ==> ApplyAll(env, s, os).identities[a] == s.identities[a]
    decreases |os|
  {
    if os != [] {
      UnwrittenIdentityUnchanged(env, s, os[..|os| - 1], a);
    }
  }

  /** A hash holds exactly the record of the last outcome that wrote it. */
  lemma {:induction false} LastTxWriteWins(env: Env, s: Stores, os: seq<TxOutcome>, h: string, j: nat)
    requires j < |os| && WritesTx(env, os[j], h)
    requires forall k :: j < k < |os| ==> !WritesTx(env, os[k], h)
    ensures h in ApplyAll(env, s, os).transactions
    ensures ApplyAll(env, s, os).transactions[h] == os[j].record
    decreases |os|
  {
    if j < |os| - 1 {
      LastTxWriteWins(env, s, os[..|os| - 1], h, j);
    }
  }

  /** A hash no outcome wrote keeps what it held before. */
  lemma {:induction false} UnwrittenTxUnchanged(env: Env, s: Stores, os: seq<TxOutcome>, h: string)
    requires forall k :: 0 <= k < |os| ==> !WritesTx(env, os[k], h)
    ensures (h in ApplyAll(env, s, os).transactions) == (h in s.transactions)
    ensures h in s.transactions ==> ApplyAll(env, s, os).transactions[h] == s.transactions[h]
    decreases |os|
  {
    if os != [] {
      UnwrittenTxUnchanged(env, s, os[..|os| - 1], h);
    }
  }

  /** A refused identity update still lets the transaction update happen. */
  lemma RefusedIdentityKeepsTxWrite(env: Env, s: Stores, o: TxOutcome)
    requires o.Ingested? && !env.acceptsIdentity(o.identity) && env.acceptsTx(o.record)
    ensures Apply(env, s, o).identities == s.identities
    ensures o.record.tx.hash in Apply(env, s, o).transactions
    ensures Apply(env, s, o).transactions[o.record.tx.hash] == o.record
  {
  }

  /**
   * A re-ingested identity is stamped afresh: it is visible from its new
   * createdAt for the whole time-to-live, whatever the record it replaced.
   */
  lemma IngestRestartsTimeToLive(env: Env, s: Stores, o: TxOutcome, ttlSeconds: int, now: int)
    requires o.Ingested? && env.acceptsIdentity(o.identity)
    requires o.identity.createdAt <= now
    ensures var visible := VisibleIdentities(Apply(env, s, o).identities, ttlSeconds, now);
      (o.identity.id in visible <==> now - o.identity.createdAt < ttlSeconds * MillisPerSecond)
  {
  }

  /**
   * How far the per-transaction walk goes: it stops at the first index
   * holding no hash, that is past the end or at an empty string.
   */
  function BlockEnd(hashes: seq<string>): (k: nat)
    ensures k <= |hashes|
    ensures forall j :: 0 <= j < k ==> hashes[j] != ""
    ensures k < |hashes| ==> hashes[k] == ""
  {
    if hashes == [] || hashes[0] == "" then 0 else 1 + BlockEnd(hashes[1..])
  }

  /** The node knows every transaction the walk of block `b` asks for. */
  predicate BlockServed(chain: Chain, b: Block) {
    forall j :: 0 <= j < BlockEnd(b.transactions) ==> b.transactions[j] in chain.txs
  }

  /** The outcomes of the first `k` transactions of `b`, one per index, in index order. */
  function Outcomes(env: Env, strategy: Strategy, b: Block, k: nat): (os: seq<TxOutcome>)
    requires k <= BlockEnd(b.transactions) && BlockServed(env.chain, b)
    ensures |os| == k
    ensures forall j :: 0 <= j < k ==> os[j] == ProcessTx(env, strategy, b.number, j, b.transactions[j])
  {
    if k == 0 then []
    else Outcomes(env, strategy, b, k - 1) + [ProcessTx(env, strategy, b.number, k - 1, b.transactions[k - 1])]
  }

  /** Walking one more index appends that index's outcome. */
  lemma OutcomesExtend(env: Env, strategy: Strategy, b: Block, k: nat)
    requires k < BlockEnd(b.transactions) && BlockServed(env.chain, b)
    ensures Outcomes(env, strategy, b, k + 1) ==
      Outcomes(env, strategy, b, k) + [ProcessTx(env, strategy, b.number, k, b.transactions[k])]
  {
  }

  /** The stores after a block: every reachable index processed once, in increasing order. */
  function BlockEffect(env: Env, strategy: Strategy, s: Stores, b: Block): (r: Stores)
    requires BlockServed(env.chain, b)
    ensures BlockEnd(b.transactions) == 0 ==> r == s
    ensures Keyed(s) ==> Keyed(r)
    ensures s.identities.Keys <= r.identities.Keys && s.transactions.Keys <= r.transactions.Keys
  {
    ApplyAll(env, s, Outcomes(env, strategy, b, BlockEnd(b.transactions)))
  }

  /**
   * Within a block, an address ends up holding the identity of the last
   * index that wrote it, stamped with that index's time.
   */
  lemma BlockIdentityIsLastWrite(env: Env, strategy: Strategy, s: Stores, b: Block, a: string, j: nat)
    requires BlockServed(env.chain, b) && j < BlockEnd(b.transactions)
    requires WritesIdentity(env, ProcessTx(env, strategy, b.number, j, b.transactions[j]), a)
    requires forall k :: j < k < BlockEnd(b.transactions) ==>
      !WritesIdentity(env, ProcessTx(env, strategy, b.number, k, b.transactions[k]), a)
    ensures a in BlockEffect(env, strategy, s, b).identities
    ensures BlockEffect(env, strategy, s, b).identities[a] == ProcessTx(env, strategy, b.number, j, b.transactions[j]).identity
    ensures BlockEffect(env, strategy, s, b).identities[a].createdAt == env.clock(b.number, j)
  {
    LastIdentityWriteWins(env, s, Outcomes(env, strategy, b, BlockEnd(b.transactions)), a, j);
  }

  /** Within a block, a hash ends up holding the record of the last index that wrote it. */
  lemma BlockTxIsLastWrite(env: Env, strategy: Strategy, s: Stores, b: Block, h: string, j: nat)
    requires BlockServed(env.chain, b) && j < BlockEnd(b.transactions)
    requires WritesTx(env, ProcessTx(env, strategy, b.number, j, b.transactions[j]), h)
    requires forall k :: j < k < BlockEnd(b.transactions) ==>
      !WritesTx(env, ProcessTx(env, strategy, b.number, k, b.transactions[k]), h)
    ensures h in BlockEffect(env, strategy, s, b).transactions
    ensures BlockEffect(env, strategy, s, b).transactions[h] == ProcessTx(env, strategy, b.number, j, b.transactions[j]).record
  {
    LastTxWriteWins(env, s, Outcomes(env, strategy, b, BlockEnd(b.transactions)), h, j);
  }

  /** A block none of whose indices writes address `a` leaves it as it was. */
  lemma BlockLeavesOtherIdentities(env: Env, strategy: Strategy, s: Stores, b: Block, a: string)
    requires BlockServed(env.chain, b)
    requires forall k :: 0 <= k < BlockEnd(b.transactions) ==>
      !WritesIdentity(env, ProcessTx(env, strategy, b.number, k, b.transactions[k]), a)
    ensures (a in BlockEffect(env, strategy, s, b).identities) == (a in s.identities)
    ensures a in s.identities ==> BlockEffect(env, strategy, s, b).identities[a] == s.identities[a]
  {
    UnwrittenIdentityUnchanged(env, s, Outcomes(env, strategy, b, BlockEnd(b.transactions)), a);
  }

  /** A block none of whose indices writes hash `h` leaves it as it was. */
  lemma BlockLeavesOtherTxs(env: Env, strategy: Strategy, s: Stores, b: Block, h: string)
    requires BlockServed(env.chain, b)
    requires forall k :: 0 <= k < BlockEnd(b.transactions) ==>
      !WritesTx(env, ProcessTx(env, strategy, b.number, k, b.transactions[k]), h)
    ensures (h in BlockEffect(env, strategy, s, b).transactions) == (h in s.transactions)
    ensures h in s.transactions ==> BlockEffect(env, strategy, s, b).transactions[h] == s.transactions[h]
  {
    UnwrittenTxUnchanged(env, s, Outcomes(env, strategy, b, BlockEnd(b.transactions)), h);
  }

  /** The stores after scanning block `n`: a block that cannot be fetched changes nothing. */
  function ScanEffect(env: Env, strategy: Strategy, s: Stores, n: int): (r: Stores)
    requires n in env.chain.blocks
    requires env.chain.blocks[n].Some? ==> BlockServed(env.chain, env.chain.blocks[n].value)
    ensures env.chain.blocks[n].None? ==> r == s
    ensures env.chain.blocks[n].Some? && BlockEnd(env.chain.blocks[n].value.transactions) == 0 ==> r == s
    ensures Keyed(s) ==> Keyed(r)
    ensures s.identities.Keys <= r.identities.Keys && s.transactions.Keys <= r.transactions.Keys
  {
    match env.chain.blocks[n]
    case None => s
    case Some(b) => BlockEffect(env, strategy, s, b)
  }

  /** Blocks `lo..hi` can all be fetched without a null, and so can their transactions. */
  predicate Serves(chain: Chain, lo: int, hi: int) {
    forall n :: lo <= n <= hi ==>
      n in chain.blocks && (chain.blocks[n].Some? ==> BlockServed(chain, chain.blocks[n].value))
  }

  /** The outcomes of block `n`'s walk, in index order; none when the block cannot be fetched. */
  function BlockOutcomes(env: Env, strategy: Strategy, n: int): seq<TxOutcome>
    requires Serves(env.chain, n, n)
  {
    match env.chain.blocks[n]
    case None => []
    case Some(b) => Outcomes(env, strategy, b, BlockEnd(b.transactions))
  }

  /** Scanning a block applies its outcomes, in index order. */
  lemma ScanAppliesBlockOutcomes(env: Env, strategy: Strategy, s: Stores, n: int)
    requires Serves(env.chain, n, n)
    ensures ScanEffect(env, strategy, s, n) == ApplyAll(env, s, BlockOutcomes(env, strategy, n))
  {
  }

  /** The outcomes of blocks `lo..hi`, block after block, each in index order. */
  function DrainOutcomes(env: Env, strategy: Strategy, lo: int, hi: int): seq<TxOutcome>
    requires Serves(env.chain, lo, hi)
    decreases hi - lo + 1
  {
    if lo > hi then [] else BlockOutcomes(env, strategy, lo) + DrainOutcomes(env, strategy, lo + 1, hi)
  }

  /** The reader's state: the next block to scan and the two collections. */
  datatype ScanState = ScanState(cursor: int, stores: Stores)

  /**
   * Scanning from the cursor up to `height`, one block at a time; the
   * cursor moves past each block once its walk is over, or at once when
   * the block cannot be fetched.
   */
  function Drain(env: Env, strategy: Strategy, st: ScanState, height: int): (r: ScanState)
    requires Serves(env.chain, st.cursor, height)
    ensures r.cursor == if st.cursor <= height then height + 1 else st.cursor
    ensures st.cursor > height ==> r == st
    ensures Keyed(st.stores) ==> Keyed(r.stores)
    ensures st.stores.identities.Keys <= r.stores.identities.Keys
    ensures st.stores.transactions.Keys <= r.stores.transactions.Keys
    decreases height - st.cursor + 1
  {
    if st.cursor > height then st
    else
      var next := ScanState(st.cursor + 1, ScanEffect(env, strategy, st.stores, st.cursor));
      Drain(env, strategy, next, height)
  }

  /**
   * A drain applies to the collections, in order, the outcomes of every
   * fetched block from the cursor to the height.
   */
  lemma {:induction false} DrainAppliesAllOutcomes(env: Env, strategy: Strategy, st: ScanState, height: int)
    requires Serves(env.chain, st.cursor, height)
    ensures Drain(env, strategy, st, height).stores == ApplyAll(env, st.stores, DrainOutcomes(env, strategy, st.cursor, height))
    decreases height - st.cursor + 1
  {
    if st.cursor <= height {
      var c := st.cursor;
      var first := BlockOutcomes(env, strategy, c);
      var rest := DrainOutcomes(env, strategy, c + 1, height);
      var next := ScanState(c + 1, ScanEffect(env, strategy, st.stores, c));
      assert Drain(env, strategy, st, height) == Drain(env, strategy, next, height);
      assert DrainOutcomes(env, strategy, c, height) == first + rest;
      ScanAppliesBlockOutcomes(env, strategy, st.stores, c);
      DrainAppliesAllOutcomes(env, strategy, next, height);
      ApplyAllConcat(env, st.stores, first, rest);
    }
  }

  /**
   * Across a whole drain, an address holds the identity of the last
   * transaction, in block and index order, that wrote it.
   */
  lemma DrainIdentityIsLastWrite(env: Env, strategy: Strategy, st: ScanState, height: int, a: string, j: nat)
    requires Serves(env.chain, st.cursor, height)
    requires j < |DrainOutcomes(env, strategy, st.cursor, height)|
    requires WritesIdentity(env, DrainOutcomes(env, strategy, st.cursor, height)[j], a)
    requires forall k :: j < k < |DrainOutcomes(env, strategy, st.cursor, height)| ==>
      !WritesIdentity(env, DrainOutcomes(env, strategy, st.cursor, height)[k], a)
    ensures a in Drain(env, strategy, st, height).stores.identities
    ensures Drain(env, strategy, st, height).stores.identities[a] == DrainOutcomes(env, strategy, st.cursor, height)[j].identity
  {
    DrainAppliesAllOutcomes(env, strategy, st, height);
    LastIdentityWriteWins(env, st.stores, DrainOutcomes(env, strategy, st.cursor, height), a, j);
  }

  /** Across a whole drain, an address no transaction wrote keeps what it held. */
  lemma DrainLeavesOtherIdentities(env: Env, strategy: Strategy, st: ScanState, height: int, a: string)
    requires Serves(env.chain, st.cursor, height)
    requires forall k :: 0 <= k < |DrainOutcomes(env, strategy, st.cursor, height)| ==>
      !WritesIdentity(env, DrainOutcomes(env, strategy, st.cursor, height)[k], a)
    ensures (a in Drain(env, strategy, st, height).stores.identities) == (a in st.stores.identities)
    ensures a in st.stores.identities ==> Drain(env, strategy, st, height).stores.identities[a] == st.stores.identities[a]
  {
    DrainAppliesAllOutcomes(env, strategy, st, height);
    UnwrittenIdentityUnchanged(env, st.stores, DrainOutcomes(env, strategy, st.cursor, height), a);
  }

  /**
   * Across a whole drain, a hash holds the record of the last transaction,
   * in block and index order, that wrote it.
   */
  lemma DrainTxIsLastWrite(env: Env, strategy: Strategy, st: ScanState, height: int, h: string, j: nat)
    requires Serves(env.chain, st.cursor, height)
    requires j < |DrainOutcomes(env, strategy, st.cursor, height)|
    requires WritesTx(env, DrainOutcomes(env, strategy, st.cursor, height)[j], h)
    requires forall k :: j < k < |DrainOutcomes(env, strategy, st.cursor, height)| ==>
      !WritesTx(env, DrainOutcomes(env, strategy, st.cursor, height)[k], h)
    ensures h in Drain(env, strategy, st, height).stores.transactions
    ensures Drain(env, strategy, st, height).stores.transactions[h] == DrainOutcomes(env, strategy, st.cursor, height)[j].record
  {
    DrainAppliesAllOutcomes(env, strategy, st, height);
    LastTxWriteWins(env, st.stores, DrainOutcomes(env, strategy, st.cursor, height), h, j);
  }

  /** Across a whole drain, a hash no transaction wrote keeps what it held. */
  lemma DrainLeavesOtherTxs(env: Env, strategy: Strategy, st: ScanState, height: int, h: string)
    requires Serves(env.chain, st.cursor, height)
    requires forall k :: 0 <= k < |DrainOutcomes(env, strategy, st.cursor, height)| ==>
      !WritesTx(env, DrainOutcomes(env, strategy, st.cursor, height)[k], h)
    ensures (h in Drain(env, strategy, st, height).stores.transactions) == (h in st.stores.transactions)
    ensures h in st.stores.transactions ==> Drain(env, strategy, st, height).stores.transactions[h] == st.stores.transactions[h]
  {
    DrainAppliesAllOutcomes(env, strategy, st, height);
    UnwrittenTxUnchanged(env, st.stores, DrainOutcomes(env, strategy, st.cursor, height), h);
  }

  /**
   * One polling cycle: fetch the height; when that fails, or the cursor is
   * already past it, nothing changes; otherwise drain to the height.
   */
  function Cycle(env: Env, strategy: Strategy, st: ScanState): (r: ScanState)
    requires env.chain.height.Some? ==> Serves(env.chain, st.cursor, env.chain.height.value)
    ensures env.chain.height.None? ==> r == st
    ensures env.chain.height.Some? && st.cursor > env.chain.height.value ==> r == st
    ensures env.chain.height.Some? && st.cursor <= env.chain.height.value ==> r.cursor == env.chain.height.value + 1
    ensures Keyed(st.stores) ==> Keyed(r.stores)
  {
    match env.chain.height
    case None => st
    case Some(height) => if st.cursor <= height then Drain(env, strategy, st, height) else st
  }
}
