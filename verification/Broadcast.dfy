/**
 The fan-out of released blocks to the registered indexers
 (`IndexerBroadcast` in chain-reader/src/indexer_broadcast.rs).

 The source makes one pass over the transactions and collects per-indexer blocks in maps that are
 keyed by the indexer's hash. The reference is the per-indexer filter of chain/solana/src/types.rs.
 */
module Broadcast {
  import opened Common
  import opened SolanaTypes

  datatype IndexerHash = IndexerHash(text: string)

  /** `sender` names the channel to the indexer; `filterHashes` are the printed filter keys. */
  datatype IndexerInfo = IndexerInfo(hash: IndexerHash, filter: SolanaFilter, filterHashes: set<string>, sender: nat) {
    ghost predicate Valid() {
      forall k :: k in filterHashes <==> k in filter.keys
    }

    predicate Interested(tx: Transaction) {
      exists k :: k in tx.accountKeys && k in filterHashes
    }
  }

  datatype Message = Message(sender: nat, blocks: seq<SlotBlock>)

  // ---------- What the one-pass algorithm computes ----------

  /** The copies of `tx` pushed for `hash`: one for each indexer with that hash that wants it. */
  function Copies(ixs: seq<IndexerInfo>, hash: IndexerHash, tx: Transaction): seq<Transaction> {
    if ixs == [] then []
    else
      var last := ixs[|ixs| - 1];
      Copies(ixs[..|ixs| - 1], hash, tx) + if last.hash == hash && last.Interested(tx) then [tx] else []
  }

  function CopiesOfAll(ixs: seq<IndexerInfo>, hash: IndexerHash, txs: seq<Transaction>): seq<Transaction> {
    if txs == [] then []
    else CopiesOfAll(ixs, hash, txs[..|txs| - 1]) + Copies(ixs, hash, txs[|txs| - 1])
  }

  function WithTransactions(b: SlotBlock, txs: seq<Transaction>): SlotBlock
    requires b.block.Some?
  {
    SlotBlock(b.slot, Some(b.block.value.(transactions := txs)))
  }

  /** The blocks collected under `hash`: present blocks with at least one pushed transaction. */
  function Collected(ixs: seq<IndexerInfo>, hash: IndexerHash, blocks: seq<SlotBlock>): seq<SlotBlock> {
    if blocks == [] then []
    else
      var b := blocks[|blocks| - 1];
      Collected(ixs, hash, blocks[..|blocks| - 1]) +
      if b.block.None? then []
      else
        var txs := CopiesOfAll(ixs, hash, b.block.value.transactions);
        if txs == [] then [] else [WithTransactions(b, txs)]
  }

  /** No earlier indexer in the list has the hash of the one at `i`. */
  predicate FirstWithHash(ixs: seq<IndexerInfo>, i: nat)
    requires i < |ixs|
  {
    forall j :: 0 <= j < i ==> ixs[j].hash != ixs[i].hash
  }

  function Post(sender: nat, blocks: seq<SlotBlock>): seq<Message> {
    if blocks == [] then [] else [Message(sender, blocks)]
  }

  /** The messages of the first `n` indexers: the first indexer of each hash takes what was collected. */
  function Messages(ixs: seq<IndexerInfo>, blocks: seq<SlotBlock>, n: nat): seq<Message>
    requires n <= |ixs|
  {
    if n == 0 then []
    else
      var got := Collected(ixs, ixs[n - 1].hash, blocks);
      Messages(ixs, blocks, n - 1) +
      if FirstWithHash(ixs, n - 1) then Post(ixs[n - 1].sender, got) else []
  }

  /** What the first `n` indexers take when they remove their entries from `collected` in turn. */
  function Taken(ixs: seq<IndexerInfo>, collected: map<IndexerHash, seq<SlotBlock>>, n: nat): seq<Message>
    requires n <= |ixs|
  {
    if n == 0 then []
    else
      Taken(ixs, collected, n - 1) +
      if FirstWithHash(ixs, n - 1) && ixs[n - 1].hash in collected
      then [Message(ixs[n - 1].sender, collected[ixs[n - 1].hash])] else []
  }

  function Hashes(ixs: seq<IndexerInfo>): set<IndexerHash> {
    set j | 0 <= j < |ixs| :: ixs[j].hash
  }

  function Lookup(m: map<IndexerHash, seq<SlotBlock>>, h: IndexerHash): seq<SlotBlock> {
    if h in m then m[h] else []
  }

  function NonEmpty(b: SlotBlock): seq<SlotBlock>
    requires b.block.Some?
  {
    if b.block.value.transactions == [] then [] else [b]
  }

  /** `filtered` holds exactly what `blocks` contribute to each hash. */
  ghost predicate Filed(ixs: seq<IndexerInfo>, blocks: seq<SlotBlock>, filtered: map<IndexerHash, seq<SlotBlock>>) {
    && filtered.Keys <= Hashes(ixs)
    && (forall h :: h in filtered ==> filtered[h] != [])
    && (forall h :: h in Hashes(ixs) ==> Lookup(filtered, h) == Collected(ixs, h, blocks))
  }

  function Live(ixs: seq<IndexerInfo>, closed: set<nat>): seq<IndexerInfo> {
    Filter(ixs, (ix: IndexerInfo) => ix.sender !in closed)
  }

  class IndexerBroadcast {
    var indSenders: seq<IndexerInfo>

    constructor ()
      ensures indSenders == []
    {
      indSenders := [];
    }

    method RegisterIndexer(hash: IndexerHash, filter: SolanaFilter, sender: nat)
      modifies this
      ensures |indSenders| == |old(indSenders)| + 1 && indSenders[..|old(indSenders)|] == old(indSenders)
      ensures var ix := indSenders[|old(indSenders)|];
              ix.hash == hash && ix.filter == filter && ix.sender == sender && ix.Valid()
    {
      var filterHashes: set<string> := {};
      for i := 0 to |filter.keys|
        invariant forall k :: k in filterHashes <==> k in filter.keys[..i]
      {
        filterHashes := filterHashes + {filter.keys[i]};
      }
      indSenders := indSenders + [IndexerInfo(hash, filter, filterHashes, sender)];
    }

    /** `closed` are the senders whose receiving side is gone when the call starts. */
    method BroadcastBlocks(blocks: seq<SlotBlock>, closed: set<nat>) returns (sent: seq<Message>)
      modifies this
      ensures indSenders == Live(old(indSenders), closed)
      ensures sent == Messages(indSenders, blocks, |indSenders|)
    {
      indSenders := Live(indSenders, closed);
      var ixs := indSenders;
      var filtered: map<IndexerHash, seq<SlotBlock>> := map[];
      for i := 0 to |blocks|
        invariant indSenders == ixs
        invariant Filed(ixs, blocks[..i], filtered)
      {
        assert blocks[..i + 1] == blocks[..i] + [blocks[i]];
        if blocks[i].block.Some? {
          var indexerBlocks := PushTransactions(ixs, blocks[i]);
          var before := filtered;
          filtered := FileBlocks(indexerBlocks, before);
          FiledSnoc(ixs, blocks[i], blocks[..i], indexerBlocks, before, filtered);
        }
      }
      assert blocks[..|blocks|] == blocks;
      sent := Distribute(ixs, filtered);
      TakenIsMessages(ixs, blocks, filtered, |ixs|);
    }

    /** Clones the block for every hash without transactions, then pushes each one where it is wanted. */
    static method PushTransactions(ixs: seq<IndexerInfo>, block: SlotBlock)
      returns (indexerBlocks: map<IndexerHash, SlotBlock>)
      requires block.block.Some?
      ensures indexerBlocks.Keys == Hashes(ixs)
      ensures forall h :: h in Hashes(ixs) ==>
                indexerBlocks[h] == WithTransactions(block, CopiesOfAll(ixs, h, block.block.value.transactions))
    {
      var txs := block.block.value.transactions;
      var pushed: map<IndexerHash, seq<Transaction>> := map h | h in Hashes(ixs) :: [];
      for t := 0 to |txs|
        invariant pushed.Keys == Hashes(ixs)
        invariant forall h :: h in Hashes(ixs) ==> pushed[h] == CopiesOfAll(ixs, h, txs[..t])
      {
        assert txs[..t + 1][..t] == txs[..t];
        pushed := PushTransaction(ixs, txs[t], pushed);
      }
      assert txs[..|txs|] == txs;
      indexerBlocks := map h | h in Hashes(ixs) :: WithTransactions(block.CheapClone(), pushed[h]);
    }

    static method PushTransaction(ixs: seq<IndexerInfo>, tx: Transaction, before: map<IndexerHash, seq<Transaction>>)
      returns (pushed: map<IndexerHash, seq<Transaction>>)
      requires before.Keys == Hashes(ixs)
      ensures pushed.Keys == Hashes(ixs)
      ensures forall h :: h in Hashes(ixs) ==> pushed[h] == before[h] + Copies(ixs, h, tx)
    {
      pushed := before;
      for j := 0 to |ixs|
        invariant pushed.Keys == Hashes(ixs)
        invariant forall h :: h in Hashes(ixs) ==> pushed[h] == before[h] + Copies(ixs[..j], h, tx)
      {
        assert ixs[..j + 1][..j] == ixs[..j];
        if ixs[j].Interested(tx) {
          pushed := pushed[ixs[j].hash := pushed[ixs[j].hash] + [tx]];
        }
      }
      assert ixs[..|ixs|] == ixs;
    }

    /** Appends the non-empty per-indexer blocks, in the arbitrary order of a hash map. */
    static method FileBlocks(indexerBlocks: map<IndexerHash, SlotBlock>, before: map<IndexerHash, seq<SlotBlock>>)
      returns (filtered: map<IndexerHash, seq<SlotBlock>>)
      requires forall h :: h in indexerBlocks ==> indexerBlocks[h].block.Some?
      requires forall h :: h in before ==> before[h] != []
      ensures filtered.Keys <= before.Keys + indexerBlocks.Keys
      ensures forall h :: h in filtered ==> filtered[h] != []
      ensures forall h :: h in indexerBlocks ==> Lookup(filtered, h) == Lookup(before, h) + NonEmpty(indexerBlocks[h])
    {
      filtered := before;
      var todo := indexerBlocks.Keys;
      while todo != {}
        invariant todo <= indexerBlocks.Keys
        invariant filtered.Keys <= before.Keys + indexerBlocks.Keys
        invariant forall h :: h in todo ==> Lookup(filtered, h) == Lookup(before, h)
        invariant forall h :: h in indexerBlocks && h !in todo ==>
                    Lookup(filtered, h) == Lookup(before, h) + NonEmpty(indexerBlocks[h])
        invariant forall h :: h in filtered ==> filtered[h] != []
        decreases todo
      {
        var hash :| hash in todo;
        var b := indexerBlocks[hash];
        if |b.block.value.transactions| > 0 {
          filtered := filtered[hash := Lookup(filtered, hash) + [b]];
        }
        todo := todo - {hash};
      }
    }

    /** Each indexer in turn removes what is filed under its hash and is sent that. */
    static method Distribute(ixs: seq<IndexerInfo>, collected: map<IndexerHash, seq<SlotBlock>>)
      returns (sent: seq<Message>)
      requires forall h :: h in collected ==> collected[h] != []
      ensures sent == Taken(ixs, collected, |ixs|)
    {
      var filtered := collected;
      sent := [];
      for n := 0 to |ixs|
        invariant sent == Taken(ixs, collected, n)
        invariant filtered.Keys == collected.Keys - Hashes(ixs[..n])
        invariant forall h :: h in filtered ==> filtered[h] == collected[h]
      {
        assert Hashes(ixs[..n + 1]) == Hashes(ixs[..n]) + {ixs[n].hash} by {
          assert ixs[..n + 1] == ixs[..n] + [ixs[n]];
          HashesSnoc(ixs[..n], ixs[n]);
        }
        FirstWithHashIsNew(ixs, n);
        if ixs[n].hash in filtered {
          sent := sent + [Message(ixs[n].sender, filtered[ixs[n].hash])];
          filtered := filtered - {ixs[n].hash};
        }
      }
    }
  }

  lemma HashesSnoc(ixs: seq<IndexerInfo>, ix: IndexerInfo)
    ensures Hashes(ixs + [ix]) == Hashes(ixs) + {ix.hash}
  {
    var all := ixs + [ix];
    assert all[|ixs|] == ix;
    forall h | h in Hashes(ixs) ensures h in Hashes(all) {
      var j :| 0 <= j < |ixs| && ixs[j].hash == h;
      assert all[j].hash == h;
    }
  }

  lemma FirstWithHashIsNew(ixs: seq<IndexerInfo>, n: nat)
    requires n < |ixs|
    ensures FirstWithHash(ixs, n) <==> ixs[n].hash !in Hashes(ixs[..n])
  {
    if ixs[n].hash in Hashes(ixs[..n]) {
      var j :| 0 <= j < n && ixs[..n][j].hash == ixs[n].hash;
      assert ixs[j].hash == ixs[n].hash;
    } else {
      forall j | 0 <= j < n ensures ixs[j].hash != ixs[n].hash {
        assert ixs[..n][j].hash in Hashes(ixs[..n]);
      }
    }
  }

  /** One more present block extends what is filed under each hash. */
  lemma FiledSnoc(ixs: seq<IndexerInfo>, block: SlotBlock, done: seq<SlotBlock>,
                  indexerBlocks: map<IndexerHash, SlotBlock>,
                  before: map<IndexerHash, seq<SlotBlock>>, filtered: map<IndexerHash, seq<SlotBlock>>)
    requires block.block.Some? && Filed(ixs, done, before)
    requires indexerBlocks.Keys == Hashes(ixs)
    requires forall h :: h in Hashes(ixs) ==>
               && indexerBlocks[h] == WithTransactions(block, CopiesOfAll(ixs, h, block.block.value.transactions))
               && Lookup(filtered, h) == Lookup(before, h) + NonEmpty(indexerBlocks[h])
    requires filtered.Keys <= Hashes(ixs)
    requires forall h :: h in filtered ==> filtered[h] != []
    ensures Filed(ixs, done + [block], filtered)
  {
    forall h | h in Hashes(ixs)
      ensures Lookup(filtered, h) == Collected(ixs, h, done + [block])
    {
      assert (done + [block])[..|done|] == done;
    }
  }

  lemma {:induction false} TakenIsMessages(ixs: seq<IndexerInfo>, blocks: seq<SlotBlock>,
                                           collected: map<IndexerHash, seq<SlotBlock>>, n: nat)
    requires n <= |ixs| && Filed(ixs, blocks, collected)
    ensures Taken(ixs, collected, n) == Messages(ixs, blocks, n)
  {
    if n > 0 {
      TakenIsMessages(ixs, blocks, collected, n - 1);
      assert ixs[n - 1].hash in Hashes(ixs);
    }
  }

  // ---------- The reference: every indexer filters on its own ----------

  /** `filter_block` on each present block, empty results dropped, order kept. */
  function Wanted(filter: SolanaFilter, blocks: seq<SlotBlock>): seq<SlotBlock> {
    if blocks == [] then []
    else
      var b := blocks[|blocks| - 1];
      Wanted(filter, blocks[..|blocks| - 1]) +
      if b.block.None? then []
      else NonEmpty(SlotBlock(b.slot, Some(filter.FilterBlock(b.block.value))))
  }

  lemma {:induction false} WantedAppend(filter: SolanaFilter, a: seq<SlotBlock>, b: seq<SlotBlock>)
    ensures Wanted(filter, a + b) == Wanted(filter, a) + Wanted(filter, b)
  {
    if b == [] {
      assert a + b == a;
    } else {
      WantedAppend(filter, a, b[..|b| - 1]);
      assert (a + b)[..|a + b| - 1] == a + b[..|b| - 1];
    }
  }

  function Reference(ixs: seq<IndexerInfo>, blocks: seq<SlotBlock>): seq<Message> {
    if ixs == [] then []
    else
      var ix := ixs[|ixs| - 1];
      var got := Wanted(ix.filter, blocks);
      Reference(ixs[..|ixs| - 1], blocks) + Post(ix.sender, got)
  }

  ghost predicate DistinctHashes(ixs: seq<IndexerInfo>) {
    forall i, j :: 0 <= i < j < |ixs| ==> ixs[i].hash != ixs[j].hash
  }

  /** Every registration has its own channel. */
  ghost predicate DistinctSenders(ixs: seq<IndexerInfo>) {
    forall i, j :: 0 <= i < j < |ixs| ==> ixs[i].sender != ixs[j].sender
  }

  ghost predicate AllValid(ixs: seq<IndexerInfo>) {
    forall i :: 0 <= i < |ixs| ==> ixs[i].Valid()
  }

  /** Some present block of the batch holds the transaction. */
  ghost predicate Holds(blocks: seq<SlotBlock>, tx: Transaction) {
    exists i :: 0 <= i < |blocks| && blocks[i].block.Some? && tx in blocks[i].block.value.transactions
  }

  lemma HoldsLast(blocks: seq<SlotBlock>, tx: Transaction)
    requires blocks != []
    ensures var rest, b := blocks[..|blocks| - 1], blocks[|blocks| - 1];
            Holds(blocks, tx) <==> Holds(rest, tx) || (b.block.Some? && tx in b.block.value.transactions)
  {
    var rest, b := blocks[..|blocks| - 1], blocks[|blocks| - 1];
    if Holds(rest, tx) {
      var i :| 0 <= i < |rest| && rest[i].block.Some? && tx in rest[i].block.value.transactions;
      assert blocks[i] == rest[i];
    }
    if Holds(blocks, tx) && !(b.block.Some? && tx in b.block.value.transactions) {
      var i :| 0 <= i < |blocks| && blocks[i].block.Some? && tx in blocks[i].block.value.transactions;
      assert rest[i] == blocks[i];
    }
  }

  /** No present block of the batch holds a transaction. */
  predicate NoTransactions(blocks: seq<SlotBlock>) {
    forall i :: 0 <= i < |blocks| && blocks[i].block.Some? ==> blocks[i].block.value.transactions == []
  }

  /** No other indexer with the hash of the one at `i` wants the transaction. */
  ghost predicate Alone(ixs: seq<IndexerInfo>, i: nat, tx: Transaction)
    requires i < |ixs|
  {
    forall j :: 0 <= j < |ixs| && j != i && ixs[j].hash == ixs[i].hash ==> !ixs[j].Interested(tx)
  }

  /** Nor any other transaction of the batch. */
  ghost predicate AloneIn(ixs: seq<IndexerInfo>, i: nat, blocks: seq<SlotBlock>)
    requires i < |ixs|
  {
    forall tx :: Holds(blocks, tx) ==> Alone(ixs, i, tx)
  }

  lemma {:induction false} CopiesForOne(ixs: seq<IndexerInfo>, i: nat, tx: Transaction)
    requires i < |ixs| && Alone(ixs, i, tx)
    ensures Copies(ixs, ixs[i].hash, tx) == if ixs[i].Interested(tx) then [tx] else []
  {
    var n := |ixs| - 1;
    if i < n {
      CopiesForOne(ixs[..n], i, tx);
    } else {
      NoCopies(ixs[..n], ixs[n].hash, tx);
    }
  }

  lemma {:induction false} NoCopies(ixs: seq<IndexerInfo>, hash: IndexerHash, tx: Transaction)
    requires forall j :: 0 <= j < |ixs| && ixs[j].hash == hash ==> !ixs[j].Interested(tx)
    ensures Copies(ixs, hash, tx) == []
  {
    if ixs != [] {
      NoCopies(ixs[..|ixs| - 1], hash, tx);
    }
  }

  lemma {:induction false} CopiesForAll(ixs: seq<IndexerInfo>, i: nat, txs: seq<Transaction>)
    requires i < |ixs| && ixs[i].Valid() && forall tx :: tx in txs ==> Alone(ixs, i, tx)
    ensures CopiesOfAll(ixs, ixs[i].hash, txs) == Filter(txs, tx => ixs[i].filter.IsMatch(tx))
  {
    if txs != [] {
      CopiesForAll(ixs, i, txs[..|txs| - 1]);
      CopiesForOne(ixs, i, txs[|txs| - 1]);
    }
  }

  /** What holds of a batch also holds of its last block and of the rest. */
  lemma AloneInParts(ixs: seq<IndexerInfo>, i: nat, blocks: seq<SlotBlock>)
    requires i < |ixs| && AloneIn(ixs, i, blocks) && blocks != []
    ensures AloneIn(ixs, i, blocks[..|blocks| - 1])
    ensures var b := blocks[|blocks| - 1];
            b.block.Some? ==> forall tx :: tx in b.block.value.transactions ==> Alone(ixs, i, tx)
  {
    forall tx { HoldsLast(blocks, tx); }
  }

  /** A filter that has keys and shares no wanted transaction gets exactly its own filtered blocks. */
  lemma {:induction false} CollectedIsWanted(ixs: seq<IndexerInfo>, i: nat, blocks: seq<SlotBlock>)
    requires i < |ixs| && AloneIn(ixs, i, blocks) && ixs[i].Valid()
    requires ixs[i].filter.keys != []
    ensures Collected(ixs, ixs[i].hash, blocks) == Wanted(ixs[i].filter, blocks)
  {
    if blocks != [] {
      AloneInParts(ixs, i, blocks);
      CollectedIsWanted(ixs, i, blocks[..|blocks| - 1]);
      var b := blocks[|blocks| - 1];
      if b.block.Some? {
        CopiesForAll(ixs, i, b.block.value.transactions);
      }
    }
  }

  /** Without keys the broadcaster collects nothing, while the filter accepts every transaction. */
  lemma {:induction false} WithoutKeys(ixs: seq<IndexerInfo>, i: nat, blocks: seq<SlotBlock>)
    requires i < |ixs| && AloneIn(ixs, i, blocks) && ixs[i].Valid()
    requires ixs[i].filter.keys == []
    ensures Collected(ixs, ixs[i].hash, blocks) == []
    ensures Wanted(ixs[i].filter, blocks) == [] <==> NoTransactions(blocks)
  {
    if blocks != [] {
      var rest, b := blocks[..|blocks| - 1], blocks[|blocks| - 1];
      AloneInParts(ixs, i, blocks);
      WithoutKeys(ixs, i, rest);
      assert NoTransactions(blocks) <==>
             NoTransactions(rest) && (b.block.Some? ==> b.block.value.transactions == []);
      if b.block.Some? {
        CopiesForAll(ixs, i, b.block.value.transactions);
        FilterNone(b.block.value.transactions, tx => ixs[i].filter.IsMatch(tx));
      }
    }
  }

  /** The filter has keys, or the batch holds no transaction. */
  predicate FilterAgrees(ix: IndexerInfo, blocks: seq<SlotBlock>) {
    ix.filter.keys != [] || NoTransactions(blocks)
  }

  lemma OneIndexer(ixs: seq<IndexerInfo>, i: nat, blocks: seq<SlotBlock>)
    requires i < |ixs| && AloneIn(ixs, i, blocks) && ixs[i].Valid()
    ensures FilterAgrees(ixs[i], blocks) ==> Collected(ixs, ixs[i].hash, blocks) == Wanted(ixs[i].filter, blocks)
    ensures !FilterAgrees(ixs[i], blocks) ==>
              Collected(ixs, ixs[i].hash, blocks) == [] && Wanted(ixs[i].filter, blocks) != []
  {
    if ixs[i].filter.keys == [] {
      WithoutKeys(ixs, i, blocks);
    } else {
      CollectedIsWanted(ixs, i, blocks);
    }
  }

  // ---------- When the fan-out agrees with the reference ----------

  /** What one channel receives of the messages. */
  function Received(ms: seq<Message>, sender: nat): seq<seq<SlotBlock>> {
    if ms == [] then []
    else
      var m := ms[|ms| - 1];
      Received(ms[..|ms| - 1], sender) + if m.sender == sender then [m.blocks] else []
  }

  function AtMostOne(blocks: seq<SlotBlock>): seq<seq<SlotBlock>> {
    if blocks == [] then [] else [blocks]
  }

  lemma ReceivedPost(ms: seq<Message>, sender: nat, blocks: seq<SlotBlock>, receiver: nat)
    ensures Received(ms + Post(sender, blocks), receiver) ==
            Received(ms, receiver) + if sender == receiver then AtMostOne(blocks) else []
  {
    var post := Post(sender, blocks);
    if post == [] {
      assert ms + post == ms;
    } else {
      assert (ms + post)[..|ms + post| - 1] == ms;
    }
  }

  /** The first indexer of a hash receives what was collected under it, the later ones nothing. */
  lemma {:induction false} ReceivedByOne(ixs: seq<IndexerInfo>, blocks: seq<SlotBlock>, n: nat, i: nat)
    requires n <= |ixs| && i < |ixs| && DistinctSenders(ixs)
    ensures Received(Messages(ixs, blocks, n), ixs[i].sender) ==
            if i < n && FirstWithHash(ixs, i) then AtMostOne(Collected(ixs, ixs[i].hash, blocks)) else []
  {
    if n > 0 {
      ReceivedByOne(ixs, blocks, n - 1, i);
      var ms, last, got := Messages(ixs, blocks, n - 1), ixs[n - 1], Collected(ixs, ixs[n - 1].hash, blocks);
      assert last.sender == ixs[i].sender <==> i == n - 1;
      if FirstWithHash(ixs, n - 1) {
        assert Messages(ixs, blocks, n) == ms + Post(last.sender, got);
        ReceivedPost(ms, last.sender, got, ixs[i].sender);
      } else {
        assert Messages(ixs, blocks, n) == ms;
      }
    }
  }

  lemma {:induction false} ReceivedInReference(ixs: seq<IndexerInfo>, blocks: seq<SlotBlock>, i: nat)
    requires i < |ixs| && DistinctSenders(ixs)
    ensures Received(Reference(ixs, blocks), ixs[i].sender) == AtMostOne(Wanted(ixs[i].filter, blocks))
  {
    var n := |ixs| - 1;
    if i < n {
      ReceivedInReference(ixs[..n], blocks, i);
    } else {
      NotInReference(ixs[..n], blocks, ixs[n].sender);
    }
    var ms, last := Reference(ixs[..n], blocks), Wanted(ixs[n].filter, blocks);
    assert Reference(ixs, blocks) == ms + Post(ixs[n].sender, last);
    ReceivedPost(ms, ixs[n].sender, last, ixs[i].sender);
    assert ixs[n].sender == ixs[i].sender <==> i == n;
  }

  lemma {:induction false} NotInReference(ixs: seq<IndexerInfo>, blocks: seq<SlotBlock>, sender: nat)
    requires forall j :: 0 <= j < |ixs| ==> ixs[j].sender != sender
    ensures Received(Reference(ixs, blocks), sender) == []
  {
    if ixs != [] {
      var n := |ixs| - 1;
      NotInReference(ixs[..n], blocks, sender);
      ReceivedPost(Reference(ixs[..n], blocks), ixs[n].sender, Wanted(ixs[n].filter, blocks), sender);
    }
  }

  lemma ReferenceNext(ixs: seq<IndexerInfo>, blocks: seq<SlotBlock>, n: nat)
    requires n < |ixs|
    ensures Reference(ixs[..n + 1], blocks) ==
            Reference(ixs[..n], blocks) + Post(ixs[n].sender, Wanted(ixs[n].filter, blocks))
  {
    assert ixs[..n + 1][..n] == ixs[..n];
  }

  ghost predicate Refuses(filter: SolanaFilter, tx: Transaction) {
    filter.keys != [] && !filter.IsMatch(tx)
  }

  /** No transaction of the batch is one that the filter accepts. */
  ghost predicate WantsNothing(ix: IndexerInfo, blocks: seq<SlotBlock>) {
    forall tx :: Holds(blocks, tx) ==> Refuses(ix.filter, tx)
  }

  lemma {:induction false} WantsNothingMeaning(ix: IndexerInfo, blocks: seq<SlotBlock>)
    ensures WantsNothing(ix, blocks) <==> Wanted(ix.filter, blocks) == []
  {
    if blocks == [] {
      assert WantsNothing(ix, []);
    } else {
      WantsNothingMeaning(ix, blocks[..|blocks| - 1]);
      WantsNothingParts(ix, blocks);
      var b := blocks[|blocks| - 1];
      if b.block.Some? {
        NothingAccepted(ix.filter, b.block.value);
      }
    }
  }

  lemma WantsNothingParts(ix: IndexerInfo, blocks: seq<SlotBlock>)
    requires blocks != []
    ensures var rest, b := blocks[..|blocks| - 1], blocks[|blocks| - 1];
            WantsNothing(ix, blocks) <==>
            WantsNothing(ix, rest) &&
            (b.block.Some? ==> forall tx :: tx in b.block.value.transactions ==> Refuses(ix.filter, tx))
  {
    forall tx { HoldsLast(blocks, tx); }
  }

  lemma NothingAccepted(filter: SolanaFilter, b: ConfirmedBlock)
    ensures filter.FilterBlock(b).transactions == [] <==>
            forall tx :: tx in b.transactions ==> Refuses(filter, tx)
  {
    var kept := filter.FilterBlock(b).transactions;
    forall tx { FilterIn(b.transactions, tx => filter.IsMatch(tx), tx); }
    if kept != [] {
      assert kept[0] in kept;
    }
  }

  /**
   The first indexer of a hash: its filter has keys or the batch carries no transaction. A later one:
   its filter accepts nothing of the batch.
   */
  ghost predicate Served(ixs: seq<IndexerInfo>, i: nat, blocks: seq<SlotBlock>)
    requires i < |ixs|
  {
    if FirstWithHash(ixs, i) then FilterAgrees(ixs[i], blocks) else WantsNothing(ixs[i], blocks)
  }

  ghost predicate AllServed(ixs: seq<IndexerInfo>, blocks: seq<SlotBlock>) {
    forall i :: 0 <= i < |ixs| ==> Served(ixs, i, blocks)
  }

  /** What the fan-out gives the indexer at `i` is what its own filter selects. */
  ghost predicate Matches(ixs: seq<IndexerInfo>, i: nat, blocks: seq<SlotBlock>)
    requires i < |ixs|
  {
    (if FirstWithHash(ixs, i) then Collected(ixs, ixs[i].hash, blocks) else []) == Wanted(ixs[i].filter, blocks)
  }

  lemma {:induction false} MatchingPrefix(ixs: seq<IndexerInfo>, blocks: seq<SlotBlock>, n: nat)
    requires n <= |ixs| && forall i :: 0 <= i < |ixs| ==> Matches(ixs, i, blocks)
    ensures Messages(ixs, blocks, n) == Reference(ixs[..n], blocks)
  {
    if n > 0 {
      MatchingPrefix(ixs, blocks, n - 1);
      ReferenceNext(ixs, blocks, n - 1);
      assert Matches(ixs, n - 1, blocks);
      var sent := if FirstWithHash(ixs, n - 1) then Post(ixs[n - 1].sender, Collected(ixs, ixs[n - 1].hash, blocks))
                  else [];
      assert sent == Post(ixs[n - 1].sender, Wanted(ixs[n - 1].filter, blocks));
    }
  }

  lemma FanOutIffAllMatch(ixs: seq<IndexerInfo>, blocks: seq<SlotBlock>)
    requires DistinctSenders(ixs)
    ensures Messages(ixs, blocks, |ixs|) == Reference(ixs, blocks) <==>
            forall i :: 0 <= i < |ixs| ==> Matches(ixs, i, blocks)
  {
    assert ixs[..|ixs|] == ixs;
    if Messages(ixs, blocks, |ixs|) == Reference(ixs, blocks) {
      forall i | 0 <= i < |ixs| ensures Matches(ixs, i, blocks) {
        ReceivedByOne(ixs, blocks, |ixs|, i);
        ReceivedInReference(ixs, blocks, i);
        var sent := if FirstWithHash(ixs, i) then Collected(ixs, ixs[i].hash, blocks) else [];
        assert AtMostOne(sent) == AtMostOne(Wanted(ixs[i].filter, blocks));
      }
    } else if forall i :: 0 <= i < |ixs| ==> Matches(ixs, i, blocks) {
      MatchingPrefix(ixs, blocks, |ixs|);
    }
  }

  /** Where no later indexer wants anything, the first one shares nothing. */
  lemma FirstIsAlone(ixs: seq<IndexerInfo>, i: nat, blocks: seq<SlotBlock>)
    requires i < |ixs| && FirstWithHash(ixs, i) && AllValid(ixs)
    requires forall j :: 0 <= j < |ixs| && !FirstWithHash(ixs, j) ==> WantsNothing(ixs[j], blocks)
    ensures AloneIn(ixs, i, blocks)
  {
    forall tx, j | Holds(blocks, tx) && 0 <= j < |ixs| && j != i && ixs[j].hash == ixs[i].hash
      ensures !ixs[j].Interested(tx)
    {
      assert j > i && !FirstWithHash(ixs, j);
      assert WantsNothing(ixs[j], blocks);
    }
  }

  lemma MatchesIffServed(ixs: seq<IndexerInfo>, i: nat, blocks: seq<SlotBlock>)
    requires i < |ixs| && AllValid(ixs)
    requires forall j :: 0 <= j < |ixs| && !FirstWithHash(ixs, j) ==> WantsNothing(ixs[j], blocks)
    ensures Matches(ixs, i, blocks) <==> Served(ixs, i, blocks)
  {
    if FirstWithHash(ixs, i) {
      FirstIsAlone(ixs, i, blocks);
      OneIndexer(ixs, i, blocks);
    } else {
      WantsNothingMeaning(ixs[i], blocks);
    }
  }

  /**
   The one-pass fan-out sends what each indexer would select on its own, in the order of the
   indexers and at most one message each, exactly when the first indexer of every hash has keys, or
   the batch carries no transaction, and the later ones of a hash want nothing of the batch.
   */
  lemma FanOutIsPerIndexerFilter(ixs: seq<IndexerInfo>, blocks: seq<SlotBlock>)
    requires DistinctSenders(ixs) && AllValid(ixs)
    ensures Messages(ixs, blocks, |ixs|) == Reference(ixs, blocks) <==> AllServed(ixs, blocks)
  {
    FanOutIffAllMatch(ixs, blocks);
    if forall j :: 0 <= j < |ixs| && !FirstWithHash(ixs, j) ==> WantsNothing(ixs[j], blocks) {
      forall i | 0 <= i < |ixs| ensures Matches(ixs, i, blocks) <==> Served(ixs, i, blocks) {
        MatchesIffServed(ixs, i, blocks);
      }
    } else {
      var j :| 0 <= j < |ixs| && !FirstWithHash(ixs, j) && !WantsNothing(ixs[j], blocks);
      WantsNothingMeaning(ixs[j], blocks);
      assert !Served(ixs, j, blocks) && !Matches(ixs, j, blocks);
    }
  }

  /** With distinct hashes every filter must have keys, or the batch carry no transaction at all. */
  lemma FanOutWithDistinctHashes(ixs: seq<IndexerInfo>, blocks: seq<SlotBlock>)
    requires DistinctSenders(ixs) && AllValid(ixs) && DistinctHashes(ixs)
    ensures Messages(ixs, blocks, |ixs|) == Reference(ixs, blocks) <==>
            forall i :: 0 <= i < |ixs| ==> FilterAgrees(ixs[i], blocks)
  {
    FanOutIsPerIndexerFilter(ixs, blocks);
    forall i | 0 <= i < |ixs| ensures Served(ixs, i, blocks) <==> FilterAgrees(ixs[i], blocks) {
      assert FirstWithHash(ixs, i);
    }
    if forall i :: 0 <= i < |ixs| ==> FilterAgrees(ixs[i], blocks) {
      assert AllServed(ixs, blocks);
    } else {
      var i :| 0 <= i < |ixs| && !FilterAgrees(ixs[i], blocks);
      assert !Served(ixs, i, blocks);
    }
  }

  /** Two indexers under one hash: the first receives the transaction twice, the second nothing. */
  lemma SharedHash(a: IndexerInfo, b: IndexerInfo, block: SlotBlock, tx: Transaction)
    requires a.hash == b.hash && a.Interested(tx) && b.Interested(tx)
    requires block.block.Some? && block.block.value.transactions == [tx]
    ensures Messages([a, b], [block], 2) == [Message(a.sender, [WithTransactions(block, [tx, tx])])]
  {
    var ixs, txs := [a, b], [tx];
    assert ixs[..1] == [a] && [a][..0] == [];
    assert Copies([a], a.hash, tx) == [tx];
    assert Copies(ixs, a.hash, tx) == [tx, tx];
    assert txs[..0] == [] && [block][..0] == [];
    assert CopiesOfAll(ixs, a.hash, txs) == [tx, tx];
    assert block.block.value.transactions == txs;
    assert Collected(ixs, a.hash, [block]) == [WithTransactions(block, [tx, tx])];
    assert ixs[0].hash == ixs[1].hash;
    assert !FirstWithHash(ixs, 1);
    assert Messages(ixs, [block], 1) == [Message(a.sender, [WithTransactions(block, [tx, tx])])];
  }
}
