// The ingestion slice's shared shapes (packages/ingestion/src/types.ts). Numeric provider strings
// are the numbers they denote; one target chain is fixed, so rows carry no chain id.

module Types {
  import opened Text

  datatype FeeStrategy = TxList | ReceiptsOpstack

  datatype NativeTx = NativeTx(
    block: nat, time: int, hash: string, from: string, to: Option<string>,
    value: nat, gasUsed: nat, gasPrice: nat, isError: bool)

  datatype InternalTx = InternalTx(
    block: nat, time: int, hash: string, from: string, to: Option<string>,
    value: nat, isError: bool, traceId: Option<string>)

  datatype Erc20Transfer = Erc20Transfer(
    block: nat, time: int, hash: string, from: string, to: string, contract: string, value: nat)

  // An erc20 row after receipt matching (packages/ingestion/src/logindex.ts:15-19).
  datatype Erc20WithMeta = Erc20WithMeta(row: Erc20Transfer, logIndex: nat, txFrom: string, txTo: Option<string>)

  // `data` is None when the log's data is not a number.
  datatype Log = Log(logIndex: nat, address: string, topics: seq<string>, data: Option<nat>)

  datatype Receipt = Receipt(
    from: string, to: Option<string>, gasUsed: nat, effectiveGasPrice: nat, l1Fee: Option<nat>, logs: seq<Log>)

  datatype Token = NativeToken | Erc20Token(contract: string)

  datatype EventKind = NativeTransfer | Erc20TransferKind | GasFee | OpeningBalance

  // The append-only idempotency key (packages/ingestion/src/write/event-writer.ts:10-15).
  datatype Key = Key(txHash: string, logIndex: int, token: Token)

  datatype Event = Event(
    key: Key, kind: EventKind, from: string, to: string, amount: int,
    block: nat, time: int, txFrom: string, txTo: Option<string>)

  const ZERO_ADDRESS := "0x0000000000000000000000000000000000000000"
}
