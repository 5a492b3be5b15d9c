/**
 * The two in-memory collections: identities keyed by contract address, with
 * a time-to-live on createdAt, and transactions keyed by hash, which never
 * expire.
 */
module Store {
  import opened JsonValues
  import opened Ledger

  /**
   * A stored identity: `id` is the contract address, `createdAt` the
   * ingestion time in milliseconds, and `body` the decoded payload without
   * its own createdAt and _id fields, which the reader overwrites.
   */
  datatype Identity = Identity(id: string, body: Json, createdAt: int)

  /** A stored transaction: the transaction as fetched, annotated with its contract address. */
  datatype TxRecord = TxRecord(tx: Tx, contractAddress: string)

  datatype Stores = Stores(identities: map<string, Identity>, transactions: map<string, TxRecord>)

  /** Every record sits under its own key: an identity under its id, a transaction under its hash. */
  predicate Keyed(s: Stores) {
    && (forall a :: a in s.identities ==> s.identities[a].id == a)
    && (forall h :: h in s.transactions ==> s.transactions[h].tx.hash == h)
  }

  /** An update with upsert: the record at `key` is replaced, or inserted when there is none. */
  function Upsert<V>(m: map<string, V>, key: string, record: V): (r: map<string, V>)
    ensures r.Keys == m.Keys + {key}
    ensures r[key] == record
    ensures forall k :: k in m && k != key ==> r[k] == m[k]
  {
    m[key := record]
  }

  const MillisPerSecond := 1000

  /** An identity is observable while less than `ttlSeconds` seconds have passed since createdAt. */
  predicate Alive(identity: Identity, ttlSeconds: int, now: int) {
    now < identity.createdAt + ttlSeconds * MillisPerSecond
  }

  /** What a find on the identity collection returns at time `now`. */
  function VisibleIdentities(identities: map<string, Identity>, ttlSeconds: int, now: int): (r: map<string, Identity>)
    ensures forall a :: a in r <==> a in identities && Alive(identities[a], ttlSeconds, now)
    ensures forall a :: a in r ==> r[a] == identities[a]
  {
    map a | a in identities && Alive(identities[a], ttlSeconds, now) :: identities[a]
  }

  /** What a count on the identity collection returns at time `now`. */
  function IdentityCount(identities: map<string, Identity>, ttlSeconds: int, now: int): nat {
    |VisibleIdentities(identities, ttlSeconds, now)|
  }

  lemma {:induction false} SubsetCardinality<T>(a: set<T>, b: set<T>)
    requires a <= b
    ensures |a| <= |b|
    decreases |a|
  {
    if a != {} {
      var x :| x in a;
      SubsetCardinality(a - {x}, b - {x});
    }
  }

  /** Without writes, time only hides identities: the visible set and the count never grow. */
  lemma VisibleOnlyShrinks(identities: map<string, Identity>, ttlSeconds: int, earlier: int, later: int)
    requires earlier <= later
    ensures VisibleIdentities(identities, ttlSeconds, later).Keys <= VisibleIdentities(identities, ttlSeconds, earlier).Keys
    ensures IdentityCount(identities, ttlSeconds, later) <= IdentityCount(identities, ttlSeconds, earlier)
  {
    var l := VisibleIdentities(identities, ttlSeconds, later);
    var e := VisibleIdentities(identities, ttlSeconds, earlier);
    SubsetCardinality(l.Keys, e.Keys);
  }

  /** The count never exceeds the number of stored identities, expired ones included. */
  lemma CountBoundedByStore(identities: map<string, Identity>, ttlSeconds: int, now: int)
    ensures IdentityCount(identities, ttlSeconds, now) <= |identities|
  {
    SubsetCardinality(VisibleIdentities(identities, ttlSeconds, now).Keys, identities.Keys);
  }
}
