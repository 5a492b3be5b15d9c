/** Concrete runs of one cycle over small chains. */
module Scenarios {
  import opened Options
  import opened JsonValues
  import opened Ledger
  import opened Decode
  import opened Store
  import opened Pipeline

  /**
   * Block 10 holds one private transaction to 0xABC; the contract answers
   * getName with "Alice" and getVectors with one embedding. One cycle from
   * block 10 stores Alice under 0xABC, the transaction under its hash, and
   * moves the cursor to 11.
   */
  lemma OneCycleStoresAlice(embedding: Json)
    ensures var tx := Tx("0xh1", "0xf", Some("0xABC"), "0x01", Some(37));
      var env := Env(
        Chain(Some(10), map[10 := Some(Block(10, ["0xh1"]))], map["0xh1" := Some(tx)], map[],
              map["0xABC" := Contract(Some("Alice"), Some("[v]"), None)]),
        map["[v]" := JArray([embedding])],
        (n: int, i: nat) => 1000 * n + i,
        (identity: Identity) => true,
        (record: TxRecord) => true);
      var r := Cycle(env, TwoCall, ScanState(10, Stores(map[], map[])));
      && r.cursor == 11
      && r.stores.identities == map["0xABC" := Identity("0xABC", FlightPassIdentity("Alice", JArray([embedding])), 10000)]
      && r.stores.transactions == map["0xh1" := TxRecord(tx, "0xABC")]
  {
    var tx := Tx("0xh1", "0xf", Some("0xABC"), "0x01", Some(37));
    var env := Env(
      Chain(Some(10), map[10 := Some(Block(10, ["0xh1"]))], map["0xh1" := Some(tx)], map[],
            map["0xABC" := Contract(Some("Alice"), Some("[v]"), None)]),
      map["[v]" := JArray([embedding])],
      (n: int, i: nat) => 1000 * n + i,
      (identity: Identity) => true,
      (record: TxRecord) => true);
    var b := Block(10, ["0xh1"]);
    assert BlockEnd(b.transactions) == 1;
    var o := ProcessTx(env, TwoCall, 10, 0, "0xh1");
    assert o == Ingested(Identity("0xABC", FlightPassIdentity("Alice", JArray([embedding])), 10000), TxRecord(tx, "0xABC"));
    assert Outcomes(env, TwoCall, b, 1) == [o];
    var s0 := Stores(map[], map[]);
    var s1 := Apply(env, s0, o);
    assert ApplyAll(env, s0, [o]) == s1;
    assert ScanEffect(env, TwoCall, s0, 10) == s1;
    var st1 := ScanState(11, s1);
    assert Drain(env, TwoCall, st1, 10) == st1;
    assert Drain(env, TwoCall, ScanState(10, s0), 10) == st1;
    assert s1.identities == map["0xABC" := o.identity];
  }

  /**
   * With the single-call strategy, a payload the schema refuses (it lacks a
   * name and a version) is stored all the same: validation never skips.
   */
  lemma SchemaDoesNotGate()
    ensures var env := Env(
        Chain(Some(0), map[], map["0xh" := Some(Tx("0xh", "0xf", Some("0xC"), "0x", Some(38)))], map[],
              map["0xC" := Contract(None, None, Some("{}"))]),
        map["{}" := JObject(map["other" := JBool(true)])],
        (n: int, i: nat) => 0,
        (identity: Identity) => true,
        (record: TxRecord) => true);
      && !SchemaValid(JObject(map["other" := JBool(true)]))
      && ProcessTx(env, SingleCall, 0, 0, "0xh").Ingested?
  {
  }
}
