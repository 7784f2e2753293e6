/** The chain-agnostic transaction the connectors return. Values are exact. */
module Transactions {
  import opened Options
  import opened Chains

  datatype TxIO = TxIO(address: string, value: real, index: int, isChange: bool)

  datatype Status = Success | FailedStatus | UnknownStatus

  datatype ChainTransaction = ChainTransaction(
    chain: Chain,
    txid: string,
    timestamp: int,
    inputs: seq<TxIO>,
    outputs: seq<TxIO>,
    blockHeight: Option<nat>,
    fee: real,
    assetKey: string,
    status: Status)
  {
    /** A reverted transaction transferred nothing. */
    predicate MovedValue() { status == Success }
  }
}
