/**
 Blocks, calls, logs and triggers of the Ethereum chain, with the fields the indexer looks at
 (chain/ethereum/src/trigger.rs, massbit/src/components/ethereum/types.rs).
 */
module EthereumTypes {
  import opened Common

  datatype Address = Address(bytes: seq<nat>)
  datatype H256 = H256(bytes: seq<nat>)

  datatype BlockPtr = BlockPtr(hash: H256, number: int)

  datatype EthereumCall = EthereumCall(
    to: Address,
    input: seq<nat>,
    blockNumber: int,
    blockHash: H256,
    transactionHash: Option<H256>,
    transactionIndex: nat)

  datatype Log = Log(
    address: Address,
    topics: seq<H256>,
    data: seq<nat>,
    blockNumber: int,
    blockHash: H256,
    transactionHash: Option<H256>,
    transactionIndex: Option<nat>,
    logIndex: Option<nat>)

  datatype BlockTriggerType = Every | WithCallTo(address: Address)

  datatype Trigger =
    | BlockTrigger(ptr: BlockPtr, kind: BlockTriggerType)
    | CallTrigger(call: EthereumCall)
    | LogTrigger(log: Log)
  {
    function BlockNumber(): int {
      match this
      case BlockTrigger(ptr, _) => ptr.number
      case CallTrigger(call) => call.blockNumber
      case LogTrigger(log) => log.blockNumber
    }

    function BlockHash(): H256 {
      match this
      case BlockTrigger(ptr, _) => ptr.hash
      case CallTrigger(call) => call.blockHash
      case LogTrigger(log) => log.blockHash
    }
  }
}
