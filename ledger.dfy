/**
 * The ledger node as the reader sees it through its client: chain height,
 * blocks, transactions, receipts and contract calls, all given as data.
 */
module Ledger {
  import opened Options

  /**
   * A transaction as getTransaction returns it. `to` is None for a contract
   * creation. `v` is the signature's recovery value as a number after
   * JavaScript's loose-equality coercion, None when the field is absent.
   */
  datatype Tx = Tx(hash: string, from: string, to: Option<string>, input: string, v: Option<int>)

  /** A block: its number and the hashes of its transactions, in order. */
  datatype Block = Block(number: int, transactions: seq<string>)

  /** What getTransactionReceipt does: throw, resolve to null, or give a receipt. */
  datatype ReceiptFetch = ReceiptFailed | ReceiptNull | Receipt(contractAddress: string)

  /** The results of the three contract methods the reader calls; None where the call throws. */
  datatype Contract = Contract(getName: Option<string>, getVectors: Option<string>, get: Option<string>)

  /**
   * The node's answers:
   * - `height`: getBlockNumber, None where it throws;
   * - `blocks`: getBlock, None where it throws (a number missing from the map
   *   is one for which it resolves to null);
   * - `txs`: getTransaction, None where it throws (a hash missing from the map
   *   is one for which it resolves to null);
   * - `receipts`: getTransactionReceipt by transaction hash (a hash missing
   *   from the map has no receipt yet: the call resolves to null);
   * - `contracts`: the code at each address (at an address missing from the
   *   map every call throws).
   */
  datatype Chain = Chain(
    height: Option<int>,
    blocks: map<int, Option<Block>>,
    txs: map<string, Option<Tx>>,
    receipts: map<string, ReceiptFetch>,
    contracts: map<string, Contract>)

  function FetchReceipt(chain: Chain, hash: string): ReceiptFetch {
    if hash in chain.receipts then chain.receipts[hash] else ReceiptNull
  }

  function ContractAt(chain: Chain, address: string): Contract {
    if address in chain.contracts then chain.contracts[address] else Contract(None, None, None)
  }
}
