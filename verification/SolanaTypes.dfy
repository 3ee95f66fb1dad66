/**
 Blocks, transactions and key filters of the Solana reader (chain/solana/src/types.rs).

 An account key stands for its printed form: `Pubkey::to_string` is base58, which is injective.
 */
module SolanaTypes {
  import opened Common

  type Pubkey = string

  datatype Transaction = Transaction(signature: string, accountKeys: seq<Pubkey>, logMessages: seq<string>)

  datatype ConfirmedBlock = ConfirmedBlock(
    previousBlockhash: string,
    blockhash: string,
    parentSlot: nat,
    transactions: seq<Transaction>,
    rewards: seq<int>,
    blockTime: Option<int>,
    blockHeight: Option<nat>)

  /** A slot together with its block; `None` when the node could not serve that slot. */
  datatype SlotBlock = SlotBlock(slot: nat, block: Option<ConfirmedBlock>) {

    /** The same block with its transactions left out. */
    function CheapClone(): SlotBlock {
      match block
      case None => this
      case Some(b) => SlotBlock(slot, Some(b.(transactions := [])))
    }
  }

  datatype SolanaFilter = SolanaFilter(keys: seq<Pubkey>) {

    predicate IsMatch(tx: Transaction) {
      exists k :: k in keys && k in tx.accountKeys
    }

    /** A filter without keys accepts every transaction. */
    function FilterBlock(b: ConfirmedBlock): ConfirmedBlock {
      if keys == [] then b
      else b.(transactions := Filter(b.transactions, tx => IsMatch(tx)))
    }
  }
}
