/**
 * The decision logic of the per-transaction pipeline: which transactions are
 * private, which contract a transaction is about, how an identity is read
 * from that contract, and the identity schema.
 */
module Decode {
  import opened Options
  import opened JsonValues
  import opened Ledger

  /** The contract schema name that selects the two-call strategy; it is also the default. */
  const FlightPass := "FlightPass"

  /** How an identity is read from a contract: getName and getVectors, or one get() holding JSON. */
  datatype Strategy = TwoCall | SingleCall

  /** Why a transaction produced no records. */
  datatype Skip =
    | TxFetchFailed
    | PublicTx
    | ReceiptFetchFailed
    | NoReceipt
    | NameCallFailed
    | EmptyName
    | VectorsCallFailed
    | BadVectors
    | GetCallFailed
    | BadPayload
    | FalsyPayload

  datatype Result<+T> = Ok(value: T) | Err(reason: Skip)

  /** The strategy is chosen once, by exact comparison of the configured schema name. */
  function StrategyFor(contractFile: string): (s: Strategy)
    ensures s == TwoCall <==> contractFile == FlightPass
    ensures s == SingleCall <==> contractFile != FlightPass
  {
    if contractFile == FlightPass then TwoCall else SingleCall
  }

  /** The two recovery values that mark a private transaction. */
  function IsPrivate(v: Option<int>): (r: bool)
    ensures r <==> v.Some? && v.value in {37, 38}
  {
    v == Some(37) || v == Some(38)
  }

  /** `tx.to` is truthy: present and not the empty string. */
  predicate HasTarget(tx: Tx) {
    tx.to.Some? && tx.to.value != ""
  }

  /**
   * The contract a private transaction is about: its target, or for a
   * contract creation the address in its receipt. A receipt that cannot be
   * fetched, or that is null, skips the transaction.
   */
  function ResolveAddress(chain: Chain, tx: Tx): (r: Result<string>)
    ensures HasTarget(tx) ==> r == Ok(tx.to.value)
    ensures !HasTarget(tx) && FetchReceipt(chain, tx.hash).ReceiptFailed? ==> r == Err(ReceiptFetchFailed)
    ensures !HasTarget(tx) && FetchReceipt(chain, tx.hash).ReceiptNull? ==> r == Err(NoReceipt)
    ensures !HasTarget(tx) && FetchReceipt(chain, tx.hash).Receipt? ==>
      r == Ok(FetchReceipt(chain, tx.hash).contractAddress)
  {
    if HasTarget(tx) then Ok(tx.to.value)
    else
      match FetchReceipt(chain, tx.hash)
      case ReceiptFailed => Err(ReceiptFetchFailed)
      case ReceiptNull => Err(NoReceipt)
      case Receipt(address) => Ok(address)
  }

  /** Address resolution as the code is written, where the null-receipt branch throws. */
  datatype Resolution = Resolved(address: string) | Unresolved(reason: Skip) | Threw

  /**
   * The same choice as ResolveAddress, except that the branch for a null
   * receipt evaluates `err` in its log call, a name bound only inside the
   * preceding catch clause, and so throws instead of skipping.
   */
  function ResolveAddressAsWritten(chain: Chain, tx: Tx): (r: Resolution)
    ensures r.Threw? <==> !HasTarget(tx) && FetchReceipt(chain, tx.hash).ReceiptNull?
  {
    if HasTarget(tx) then Resolved(tx.to.value)
    else
      match FetchReceipt(chain, tx.hash)
      case ReceiptFailed => Unresolved(ReceiptFetchFailed)
      case ReceiptNull => Threw
      case Receipt(address) => Resolved(address)
  }

  /** The discrepancy: a contract creation with a null receipt throws where a skip was intended. */
  lemma NullReceiptThrowsAsWritten(chain: Chain, tx: Tx)
    requires !HasTarget(tx) && FetchReceipt(chain, tx.hash).ReceiptNull?
    ensures ResolveAddressAsWritten(chain, tx) == Threw
    ensures ResolveAddress(chain, tx) == Err(NoReceipt)
  {
  }

  /** Everywhere else the code as written and the corrected resolution agree. */
  lemma AsWrittenAgreesOtherwise(chain: Chain, tx: Tx)
    requires HasTarget(tx) || !FetchReceipt(chain, tx.hash).ReceiptNull?
    ensures ResolveAddressAsWritten(chain, tx) ==
      match ResolveAddress(chain, tx)
      case Ok(address) => Resolved(address)
      case Err(reason) => Unresolved(reason)
  {
  }

  /** The identity object the two-call strategy builds. */
  function FlightPassIdentity(name: string, biometrics: Json): Json {
    JObject(map["name" := JString(name), "biometrics" := biometrics, "version" := JString("1")])
  }

  /**
   * Two-call decoding: getName must succeed with a non-empty name; getVectors
   * must succeed; its empty result stands for no biometrics, any other result
   * must parse as JSON.
   */
  function DecodeTwoCall(parser: map<string, Json>, c: Contract): (r: Result<Json>)
    ensures c.getName.None? ==> r == Err(NameCallFailed)
    ensures c.getName == Some("") ==> r == Err(EmptyName)
    ensures c.getName.Some? && c.getName.value != "" && c.getVectors.None? ==> r == Err(VectorsCallFailed)
    ensures (c.getName.Some? && c.getName.value != "" && c.getVectors.Some? &&
             c.getVectors.value != "" && c.getVectors.value !in parser) ==> r == Err(BadVectors)
    ensures r.Ok? <==>
      c.getName.Some? && c.getName.value != "" && c.getVectors.Some? &&
      (c.getVectors.value == "" || c.getVectors.value in parser)
    ensures r.Ok? ==>
      && r.value.JObject?
      && r.value.fields.Keys == {"name", "biometrics", "version"}
      && r.value.fields["version"] == JString("1")
      && r.value.fields["name"] == JString(c.getName.value)
      && r.value.fields["biometrics"] ==
         (if c.getVectors.value == "" then JArray([]) else parser[c.getVectors.value])
  {
    match c.getName
    case None => Err(NameCallFailed)
    case Some(name) =>
      if name == "" then Err(EmptyName)
      else
        match c.getVectors
        case None => Err(VectorsCallFailed)
        case Some(vectors) =>
          if vectors == "" then Ok(FlightPassIdentity(name, JArray([])))
          else
            match Parse(parser, vectors)
            case None => Err(BadVectors)
            case Some(biometrics) => Ok(FlightPassIdentity(name, biometrics))
  }

  /** Single-call decoding: get() must succeed and its result must parse as JSON. */
  function DecodeSingleCall(parser: map<string, Json>, c: Contract): (r: Result<Json>)
    ensures c.get.None? ==> r == Err(GetCallFailed)
    ensures c.get.Some? && c.get.value !in parser ==> r == Err(BadPayload)
    ensures c.get.Some? && c.get.value in parser ==> r == Ok(parser[c.get.value])
  {
    match c.get
    case None => Err(GetCallFailed)
    case Some(text) =>
      match Parse(parser, text)
      case None => Err(BadPayload)
      case Some(payload) => Ok(payload)
  }

  /** Decoding dispatched by the configured strategy. */
  function DecodeIdentity(parser: map<string, Json>, strategy: Strategy, c: Contract): (r: Result<Json>)
    ensures strategy == TwoCall ==> r == DecodeTwoCall(parser, c)
    ensures strategy == SingleCall ==> r == DecodeSingleCall(parser, c)
  {
    match strategy
    case TwoCall => DecodeTwoCall(parser, c)
    case SingleCall => DecodeSingleCall(parser, c)
  }

  /** A non-empty string, as a required Joi string demands. */
  predicate NonEmptyString(j: Json) {
    j.JString? && j.s != ""
  }

  /** The keys the identity schema knows; any other key is refused. */
  const SchemaKeys: set<string> := {"version", "name", "biometrics", "createdAt"}

  /**
   * The identity schema, applied to a candidate just after createdAt has
   * been set to the current date (so createdAt always passes): an object
   * with no unknown key, a non-empty string version and name, and
   * biometrics, when present, an array.
   */
  function SchemaValid(candidate: Json): (r: bool)
    ensures r ==> candidate.JObject? && candidate.fields.Keys <= SchemaKeys
    ensures r ==> "name" in candidate.fields && candidate.fields["name"].JString? && |candidate.fields["name"].s| > 0
    ensures r ==> "version" in candidate.fields && candidate.fields["version"].JString? && |candidate.fields["version"].s| > 0
    ensures r ==> ("biometrics" in candidate.fields ==> candidate.fields["biometrics"].JArray?)
  {
    && candidate.JObject?
    && (forall k :: k in candidate.fields ==> k in SchemaKeys)
    && "version" in candidate.fields && NonEmptyString(candidate.fields["version"])
    && "name" in candidate.fields && NonEmptyString(candidate.fields["name"])
    && ("biometrics" in candidate.fields ==> candidate.fields["biometrics"].JArray?)
  }

  /** A two-call identity meets the schema exactly when its biometrics are an array. */
  lemma TwoCallSchema(parser: map<string, Json>, c: Contract)
    requires DecodeTwoCall(parser, c).Ok?
    ensures SchemaValid(DecodeTwoCall(parser, c).value) <==>
      DecodeTwoCall(parser, c).value.fields["biometrics"].JArray?
  {
    var f := DecodeTwoCall(parser, c).value.fields;
    assert forall k :: k in f ==> k in SchemaKeys;
  }
}
