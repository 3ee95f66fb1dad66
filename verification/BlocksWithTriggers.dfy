/**
 Grouping scanned triggers into blocks (`blocks_with_triggers` and `load_blocks` in
 chain/ethereum/src/ethereum_adapter.rs).

 The node maps the hashes of the blocks it knows to their numbers.
 */
module BlocksWithTriggers {
  import opened Common
  import opened EthereumTypes
  import opened DataSources
  import opened TriggerFilters
  import opened TriggerOrder
  import opened ChainScan

  datatype LightBlock = LightBlock(hash: H256, number: int)

  datatype BlockWithTriggers = BlockWithTriggers(block: LightBlock, triggers: seq<Trigger>)

  datatype LoadError =
    | BlockNotFound(hash: H256)
    | NoTriggersFor(block: LightBlock)
    | BeforeRange(number: int)
    | AfterRange(number: int)

  type Node = map<H256, int>

  /** `sorted` is `ts` in processing order. */
  ghost predicate IsSortOf(sorted: seq<Trigger>, ts: seq<Trigger>) {
    Indexed(sorted) && multiset(sorted) == multiset(ts) && Sorted(sorted)
  }

  /** A block sorts its triggers when it is created. */
  function NewBlock(block: LightBlock, ts: seq<Trigger>): (b: BlockWithTriggers)
    requires Indexed(ts)
    ensures b.block == block && IsSortOf(b.triggers, ts)
  {
    SortSorts(ts);
    BlockWithTriggers(block, Sort(ts))
  }

  function HashesOf(triggers: seq<Trigger>): set<H256> {
    set i | 0 <= i < |triggers| :: triggers[i].BlockHash()
  }

  function Wanted(triggers: seq<Trigger>, toHash: H256): set<H256> {
    HashesOf(triggers) + {toHash}
  }

  function TriggersOf(triggers: seq<Trigger>, n: int): seq<Trigger> {
    Filter(triggers, (t: Trigger) => t.BlockNumber() == n)
  }

  // ---------- Loading blocks ----------

  ghost predicate Ascending(bs: seq<LightBlock>) {
    forall i, j :: 0 <= i < j < |bs| ==> bs[i].number <= bs[j].number
  }

  /** One block per hash, numbered as the node says. */
  ghost predicate Loaded(bs: seq<LightBlock>, hashes: set<H256>, node: Node) {
    && (forall i :: 0 <= i < |bs| ==> bs[i].hash in hashes && bs[i].hash in node && bs[i].number == node[bs[i].hash])
    && (forall i, j :: 0 <= i < j < |bs| ==> bs[i].hash != bs[j].hash)
    && (forall h :: h in hashes ==> exists i :: 0 <= i < |bs| && bs[i].hash == h)
  }

  /** Where a block belongs in an ascending list: behind every block that is not higher. */
  function Place(bs: seq<LightBlock>, number: int): (k: nat)
    requires Ascending(bs)
    ensures k <= |bs|
    ensures forall i :: 0 <= i < k ==> bs[i].number <= number
    ensures forall i :: k <= i < |bs| ==> bs[i].number > number
  {
    if bs == [] then 0
    else if bs[|bs| - 1].number <= number then |bs|
    else Place(bs[..|bs| - 1], number)
  }

  lemma InsertLoaded(bs: seq<LightBlock>, k: nat, b: LightBlock, hashes: set<H256>, node: Node)
    requires k <= |bs| && Loaded(bs, hashes, node) && b.hash !in hashes && b.hash in node && b.number == node[b.hash]
    ensures Loaded(bs[..k] + [b] + bs[k..], hashes + {b.hash}, node)
  {
    var all := bs[..k] + [b] + bs[k..];
    InsertedAt(bs, k, b);
    forall h | h in hashes ensures exists i :: 0 <= i < |all| && all[i].hash == h {
      var i :| 0 <= i < |bs| && bs[i].hash == h;
      assert all[if i < k then i else i + 1] == bs[i];
    }
  }

  lemma InsertedAt(bs: seq<LightBlock>, k: nat, b: LightBlock)
    requires k <= |bs|
    ensures var all := bs[..k] + [b] + bs[k..];
            && |all| == |bs| + 1 && all[k] == b
            && (forall i :: 0 <= i < k ==> all[i] == bs[i])
            && (forall i :: k < i < |all| ==> all[i] == bs[i - 1])
  {
  }

  lemma InsertAscending(bs: seq<LightBlock>, k: nat, b: LightBlock)
    requires Ascending(bs) && k <= |bs|
    requires forall i :: 0 <= i < k ==> bs[i].number <= b.number
    requires forall i :: k <= i < |bs| ==> bs[i].number > b.number
    ensures Ascending(bs[..k] + [b] + bs[k..])
  {
  }

  /** Requests every block, in the arbitrary order of a hash set, and sorts them by number. */
  method LoadBlocks(hashes: set<H256>, node: Node) returns (r: Result<seq<LightBlock>, LoadError>)
    ensures r.Ok? <==> hashes <= node.Keys
    ensures r.Ok? ==> Loaded(r.value, hashes, node) && Ascending(r.value)
  {
    var blocks, todo := [], hashes;
    while todo != {}
      invariant todo <= hashes && hashes - todo <= node.Keys
      invariant Loaded(blocks, hashes - todo, node) && Ascending(blocks)
      decreases todo
    {
      var hash :| hash in todo;
      if hash !in node {
        return Err(BlockNotFound(hash));
      }
      var b := LightBlock(hash, node[hash]);
      var k := Place(blocks, b.number);
      InsertLoaded(blocks, k, b, hashes - todo, node);
      InsertAscending(blocks, k, b);
      assert hashes - (todo - {hash}) == (hashes - todo) + {hash};
      blocks := blocks[..k] + [b] + blocks[k..];
      todo := todo - {hash};
    }
    assert hashes - todo == hashes;
    r := Ok(blocks);
  }

  // ---------- Grouping ----------

  ghost predicate Grouped(byBlock: map<int, seq<Trigger>>, triggers: seq<Trigger>) {
    forall n :: TriggersOf(triggers, n) == (if n in byBlock then byBlock[n] else []) &&
                (n in byBlock ==> byBlock[n] != [])
  }

  method GroupByBlock(triggers: seq<Trigger>, to: int) returns (byBlock: map<int, seq<Trigger>>)
    ensures forall n :: n in byBlock <==> n == to || TriggersOf(triggers, n) != []
    ensures forall n :: n in byBlock ==> byBlock[n] == TriggersOf(triggers, n)
  {
    byBlock := map[];
    for i := 0 to |triggers|
      invariant Grouped(byBlock, triggers[..i])
    {
      assert triggers[..i + 1][..i] == triggers[..i];
      var n := triggers[i].BlockNumber();
      byBlock := byBlock[n := (if n in byBlock then byBlock[n] else []) + [triggers[i]]];
    }
    assert triggers[..|triggers|] == triggers;
    if to !in byBlock {
      byBlock := byBlock[to := []];
    }
  }

  /** Each block takes its triggers out of the map; a number that is not there, or not any more, is an error. */
  method Attach(blocks: seq<LightBlock>, byBlock: map<int, seq<Trigger>>)
    returns (r: Result<seq<BlockWithTriggers>, LoadError>)
    requires Ascending(blocks) && forall n :: n in byBlock ==> Indexed(byBlock[n])
    ensures r.Ok? <==> (forall i :: 0 <= i < |blocks| ==> blocks[i].number in byBlock) && StrictlyAscending(blocks)
    ensures r.Ok? ==> |r.value| == |blocks| && forall i :: 0 <= i < |blocks| ==> Carries(r.value[i], blocks[i], byBlock)
  {
    var left, out := byBlock, [];
    for i := 0 to |blocks|
      invariant StrictUpTo(blocks, i)
      invariant left == byBlock - Numbers(blocks, i)
      invariant |out| == i && forall j :: 0 <= j < i ==> Carries(out[j], blocks[j], byBlock)
    {
      NextNumber(blocks, i);
      var n := blocks[i].number;
      if n !in left {
        return Err(NoTriggersFor(blocks[i]));
      }
      out := out + [NewBlock(blocks[i], left[n])];
      left := left - {n};
    }
    r := Ok(out);
  }

  function Numbers(blocks: seq<LightBlock>, i: nat): set<int>
    requires i <= |blocks|
  {
    set j | 0 <= j < i :: blocks[j].number
  }

  ghost predicate StrictUpTo(blocks: seq<LightBlock>, n: nat) {
    forall i, j :: 0 <= i < j < n && j < |blocks| ==> blocks[i].number < blocks[j].number
  }

  /** The next number is new, or the numbers do not strictly ascend. */
  lemma NextNumber(blocks: seq<LightBlock>, i: nat)
    requires Ascending(blocks) && i < |blocks| && StrictUpTo(blocks, i)
    ensures Numbers(blocks, i + 1) == Numbers(blocks, i) + {blocks[i].number}
    ensures if blocks[i].number in Numbers(blocks, i) then !StrictlyAscending(blocks) else StrictUpTo(blocks, i + 1)
  {
    if blocks[i].number in Numbers(blocks, i) {
      var j :| 0 <= j < i && blocks[j].number == blocks[i].number;
      assert !StrictlyAscending(blocks);
    } else {
      forall j | 0 <= j < i ensures blocks[j].number < blocks[i].number {
        assert blocks[j].number in Numbers(blocks, i);
      }
    }
  }

  ghost predicate Carries(o: BlockWithTriggers, b: LightBlock, byBlock: map<int, seq<Trigger>>) {
    b.number in byBlock && o.block == b && IsSortOf(o.triggers, byBlock[b.number])
  }

  ghost predicate StrictlyAscending(bs: seq<LightBlock>) {
    forall i, j :: 0 <= i < j < |bs| ==> bs[i].number < bs[j].number
  }

  /**
   The scanned hashes are known, have different numbers, and each number is in the range and has
   triggers or is `to`.
   */
  ghost predicate Loadable(triggers: seq<Trigger>, toHash: H256, node: Node, from: int, to: int) {
    && Wanted(triggers, toHash) <= node.Keys
    && (forall g, h :: g in Wanted(triggers, toHash) && h in Wanted(triggers, toHash) && g != h ==> node[g] != node[h])
    && (forall h :: h in Wanted(triggers, toHash) ==>
          from <= node[h] <= to && (node[h] == to || TriggersOf(triggers, node[h]) != []))
  }

  /**
   One block per wanted hash, in strictly ascending order within the range, each with the triggers
   of its number, sorted.
   */
  ghost predicate Delivered(triggers: seq<Trigger>, toHash: H256, node: Node, from: int, to: int,
                            blocks: seq<BlockWithTriggers>)
  {
    && (forall i, j :: 0 <= i < j < |blocks| ==> blocks[i].block.number < blocks[j].block.number)
    && (forall i :: 0 <= i < |blocks| ==>
          && from <= blocks[i].block.number <= to
          && blocks[i].block.hash in Wanted(triggers, toHash) && blocks[i].block.hash in node
          && blocks[i].block.number == node[blocks[i].block.hash]
          && IsSortOf(blocks[i].triggers, TriggersOf(triggers, blocks[i].block.number)))
    && (forall h :: h in Wanted(triggers, toHash) ==> exists i :: 0 <= i < |blocks| && blocks[i].block.hash == h)
  }

  lemma IndexedTriggersOf(triggers: seq<Trigger>, n: int)
    requires Indexed(triggers)
    ensures Indexed(TriggersOf(triggers, n))
  {
    var own := TriggersOf(triggers, n);
    forall i | 0 <= i < |own| && own[i].LogTrigger? ensures own[i].log.transactionIndex.Some? {
      FilterIn(triggers, (t: Trigger) => t.BlockNumber() == n, own[i]);
    }
  }

  /** Two wanted hashes with the same number, or a number without triggers other than `to`, always fail. */
  method LoadBlocksWithTriggers(triggers: seq<Trigger>, toHash: H256, node: Node, from: int, to: int)
    returns (r: Result<seq<BlockWithTriggers>, LoadError>)
    requires Indexed(triggers)
    ensures r.Ok? <==> Loadable(triggers, toHash, node, from, to)
    ensures r.Ok? ==> Delivered(triggers, toHash, node, from, to, r.value)
  {
    var byBlock := GroupByBlock(triggers, to);
    forall n | n in byBlock ensures Indexed(byBlock[n]) {
      IndexedTriggersOf(triggers, n);
    }
    var loaded := LoadBlocks(Wanted(triggers, toHash), node);
    if loaded.Err? {
      return Err(loaded.error);
    }
    var blocks := loaded.value;
    LoadableMeaning(triggers, toHash, node, from, to, blocks, byBlock);
    var attached := Attach(blocks, byBlock);
    if attached.Err? {
      return Err(attached.error);
    }
    var out := attached.value;
    var first, last := out[0].block.number, out[|out| - 1].block.number;
    if first < from {
      return Err(BeforeRange(first));
    }
    if last > to {
      return Err(AfterRange(last));
    }
    DeliveredMeaning(triggers, toHash, node, from, to, blocks, byBlock, out);
    r := Ok(out);
  }

  /** The checks that the method makes, read back on hashes and numbers. */
  lemma LoadableMeaning(triggers: seq<Trigger>, toHash: H256, node: Node, from: int, to: int,
                        blocks: seq<LightBlock>, byBlock: map<int, seq<Trigger>>)
    requires Loaded(blocks, Wanted(triggers, toHash), node) && Ascending(blocks) &&
             Wanted(triggers, toHash) <= node.Keys
    requires forall n :: n in byBlock <==> n == to || TriggersOf(triggers, n) != []
    ensures |blocks| > 0
    ensures Loadable(triggers, toHash, node, from, to) <==>
            && StrictlyAscending(blocks)
            && (forall i :: 0 <= i < |blocks| ==> blocks[i].number in byBlock)
            && from <= blocks[0].number && blocks[|blocks| - 1].number <= to
  {
    var hashes := Wanted(triggers, toHash);
    ExistsBlock(blocks, hashes, node, toHash);
    StrictIffDistinct(blocks, hashes, node);
    RangeIffEnds(blocks, hashes, node, from, to);
    NumbersIffKeys(blocks, hashes, node, byBlock);
  }

  lemma DeliveredMeaning(triggers: seq<Trigger>, toHash: H256, node: Node, from: int, to: int,
                         blocks: seq<LightBlock>, byBlock: map<int, seq<Trigger>>, out: seq<BlockWithTriggers>)
    requires Loaded(blocks, Wanted(triggers, toHash), node) && StrictlyAscending(blocks) && |blocks| > 0
    requires forall n :: n in byBlock ==> byBlock[n] == TriggersOf(triggers, n)
    requires |out| == |blocks| && forall i :: 0 <= i < |blocks| ==> Carries(out[i], blocks[i], byBlock)
    requires from <= blocks[0].number && blocks[|blocks| - 1].number <= to
    ensures Delivered(triggers, toHash, node, from, to, out)
  {
    var hashes := Wanted(triggers, toHash);
    CarryOver(blocks, out, hashes);
    WithinEnds(blocks, from, to);
    forall i | 0 <= i < |out|
      ensures && from <= out[i].block.number <= to
              && out[i].block.hash in hashes && out[i].block.hash in node
              && out[i].block.number == node[out[i].block.hash]
              && IsSortOf(out[i].triggers, TriggersOf(triggers, out[i].block.number))
    {
      assert Carries(out[i], blocks[i], byBlock);
    }
    forall i, j | 0 <= i < j < |out| ensures out[i].block.number < out[j].block.number {
      assert Carries(out[i], blocks[i], byBlock) && Carries(out[j], blocks[j], byBlock);
    }
  }

  lemma WithinEnds(blocks: seq<LightBlock>, from: int, to: int)
    requires StrictlyAscending(blocks) && |blocks| > 0 && from <= blocks[0].number && blocks[|blocks| - 1].number <= to
    ensures forall i :: 0 <= i < |blocks| ==> from <= blocks[i].number <= to
  {
    forall i | 0 <= i < |blocks| ensures from <= blocks[i].number <= to {
      assert i > 0 ==> blocks[0].number < blocks[i].number;
      assert i < |blocks| - 1 ==> blocks[i].number < blocks[|blocks| - 1].number;
    }
  }

  lemma ExistsBlock(blocks: seq<LightBlock>, hashes: set<H256>, node: Node, h: H256)
    requires Loaded(blocks, hashes, node) && h in hashes
    ensures |blocks| > 0
  {
  }

  lemma StrictIffDistinct(blocks: seq<LightBlock>, hashes: set<H256>, node: Node)
    requires Loaded(blocks, hashes, node) && Ascending(blocks) && hashes <= node.Keys
    ensures StrictlyAscending(blocks) <==> forall g, h :: g in hashes && h in hashes && g != h ==> node[g] != node[h]
  {
    if StrictlyAscending(blocks) {
      forall g, h | g in hashes && h in hashes && g != h ensures node[g] != node[h] {
        var i :| 0 <= i < |blocks| && blocks[i].hash == g;
        var j :| 0 <= j < |blocks| && blocks[j].hash == h;
        assert blocks[i].number != blocks[j].number;
      }
    }
    if forall g, h :: g in hashes && h in hashes && g != h ==> node[g] != node[h] {
      forall i, j | 0 <= i < j < |blocks| ensures blocks[i].number < blocks[j].number {
        assert blocks[i].hash != blocks[j].hash;
      }
    }
  }

  lemma RangeIffEnds(blocks: seq<LightBlock>, hashes: set<H256>, node: Node, from: int, to: int)
    requires Loaded(blocks, hashes, node) && Ascending(blocks) && hashes <= node.Keys && |blocks| > 0
    ensures (from <= blocks[0].number && blocks[|blocks| - 1].number <= to) <==> forall h :: h in hashes ==>
              from <= node[h] <= to
  {
    if from <= blocks[0].number && blocks[|blocks| - 1].number <= to {
      forall h | h in hashes ensures from <= node[h] <= to {
        var i :| 0 <= i < |blocks| && blocks[i].hash == h;
        assert blocks[0].number <= blocks[i].number <= blocks[|blocks| - 1].number;
      }
    }
  }

  lemma NumbersIffKeys(blocks: seq<LightBlock>, hashes: set<H256>, node: Node, byBlock: map<int, seq<Trigger>>)
    requires Loaded(blocks, hashes, node) && hashes <= node.Keys
    ensures (forall i :: 0 <= i < |blocks| ==> blocks[i].number in byBlock) <==> forall h :: h in hashes ==>
              node[h] in byBlock
  {
    if forall i :: 0 <= i < |blocks| ==> blocks[i].number in byBlock {
      forall h | h in hashes ensures node[h] in byBlock {
        var i :| 0 <= i < |blocks| && blocks[i].hash == h;
      }
    }
  }

  lemma CarryOver(blocks: seq<LightBlock>, out: seq<BlockWithTriggers>, hashes: set<H256>)
    requires |out| == |blocks| && forall i :: 0 <= i < |out| ==> out[i].block == blocks[i]
    requires forall h :: h in hashes ==> exists i :: 0 <= i < |blocks| && blocks[i].hash == h
    ensures forall h :: h in hashes ==> exists i :: 0 <= i < |out| && out[i].block.hash == h
  {
    forall h | h in hashes ensures exists i :: 0 <= i < |out| && out[i].block.hash == h {
      var i :| 0 <= i < |blocks| && blocks[i].hash == h;
      assert out[i].block == blocks[i];
    }
  }

  // ---------- What the caller can rely on ----------

  /** The node numbers every scanned block as its triggers do, and `toHash` as `to`. */
  ghost predicate Agrees(triggers: seq<Trigger>, toHash: H256, node: Node, to: int) {
    && toHash in node && node[toHash] == to
    && forall i :: 0 <= i < |triggers| ==>
         triggers[i].BlockHash() in node && node[triggers[i].BlockHash()] == triggers[i].BlockNumber()
  }

  /** No two scanned blocks share a number: the triggers come from one chain. */
  ghost predicate OneChain(triggers: seq<Trigger>, toHash: H256, to: int) {
    && (forall i, j :: 0 <= i < |triggers| && 0 <= j < |triggers| &&
                       triggers[i].BlockNumber() == triggers[j].BlockNumber() ==>
          triggers[i].BlockHash() == triggers[j].BlockHash())
    && (forall i :: 0 <= i < |triggers| && triggers[i].BlockNumber() == to ==> triggers[i].BlockHash() == toHash)
  }

  lemma TriggersOfIn(triggers: seq<Trigger>, i: nat)
    requires i < |triggers|
    ensures triggers[i] in TriggersOf(triggers, triggers[i].BlockNumber())
  {
    FilterIn(triggers, (t: Trigger) => t.BlockNumber() == triggers[i].BlockNumber(), triggers[i]);
  }

  /** With a node that agrees, grouping succeeds exactly on triggers of one chain within the range. */
  lemma AgreeingNodeLoads(triggers: seq<Trigger>, toHash: H256, node: Node, from: int, to: int)
    requires Agrees(triggers, toHash, node, to) && from <= to
    ensures Loadable(triggers, toHash, node, from, to) <==>
            OneChain(triggers, toHash, to) && forall i :: 0 <= i < |triggers| ==>
                       from <= triggers[i].BlockNumber() <= to
  {
    var hashes := Wanted(triggers, toHash);
    forall i | 0 <= i < |triggers| ensures triggers[i].BlockHash() in hashes &&
           TriggersOf(triggers, triggers[i].BlockNumber()) != [] {
      TriggersOfIn(triggers, i);
    }
    if OneChain(triggers, toHash, to) && forall i :: 0 <= i < |triggers| ==> from <= triggers[i].BlockNumber() <= to {
      forall h | h in hashes
        ensures h in node && from <= node[h] <= to && (node[h] == to || TriggersOf(triggers, node[h]) != [])
      {
        if h != toHash {
          var i :| 0 <= i < |triggers| && triggers[i].BlockHash() == h;
        }
      }
      forall g, h | g in hashes && h in hashes && g != h ensures node[g] != node[h] {
        DistinctNumbers(triggers, toHash, node, to, g, h);
      }
    }
  }

  lemma DistinctNumbers(triggers: seq<Trigger>, toHash: H256, node: Node, to: int, g: H256, h: H256)
    requires Agrees(triggers, toHash, node, to) && OneChain(triggers, toHash, to)
    requires g in Wanted(triggers, toHash) && h in Wanted(triggers, toHash) && g != h && g in node && h in node
    ensures node[g] != node[h]
  {
    if g != toHash {
      var i :| 0 <= i < |triggers| && triggers[i].BlockHash() == g;
      if h != toHash {
        var j :| 0 <= j < |triggers| && triggers[j].BlockHash() == h;
        assert triggers[i].BlockNumber() != triggers[j].BlockNumber();
      }
    } else {
      var j :| 0 <= j < |triggers| && triggers[j].BlockHash() == h;
    }
  }

  /**
   Every scanned trigger is in exactly one block, the one with its number, as often as it was
   scanned; and the last block of the range is there.
   */
  lemma EveryTriggerInItsBlock(triggers: seq<Trigger>, toHash: H256, node: Node, from: int, to: int,
                               blocks: seq<BlockWithTriggers>, t: Trigger) returns (k: nat)
    requires Delivered(triggers, toHash, node, from, to, blocks) && Agrees(triggers, toHash, node, to)
    requires t in triggers
    ensures k < |blocks| && blocks[k].block.number == t.BlockNumber()
    ensures multiset(blocks[k].triggers)[t] == multiset(triggers)[t]
    ensures forall i :: 0 <= i < |blocks| && i != k ==> t !in blocks[i].triggers
    ensures exists i :: 0 <= i < |blocks| && blocks[i].block.number == to
  {
    var n :| 0 <= n < |triggers| && triggers[n] == t;
    assert t.BlockHash() in Wanted(triggers, toHash);
    k :| 0 <= k < |blocks| && blocks[k].block.hash == t.BlockHash();
    FilterCount(triggers, (u: Trigger) => u.BlockNumber() == blocks[k].block.number, t);
    forall i | 0 <= i < |blocks| && i != k ensures t !in blocks[i].triggers {
      assert blocks[i].block.number != blocks[k].block.number;
      FilterIn(triggers, (u: Trigger) => u.BlockNumber() == blocks[i].block.number, t);
      assert t !in multiset(TriggersOf(triggers, blocks[i].block.number));
      assert t !in multiset(blocks[i].triggers);
    }
    var last :| 0 <= last < |blocks| && blocks[last].block.hash == toHash;
    assert blocks[last].block.number == to;
  }

  /** A range of one block gives exactly one block, as `triggers_in_block` asserts. */
  lemma SingleBlockRange(triggers: seq<Trigger>, toHash: H256, node: Node, n: int, blocks: seq<BlockWithTriggers>)
    requires Delivered(triggers, toHash, node, n, n, blocks)
    ensures |blocks| == 1 && blocks[0].block.number == n
  {
    assert toHash in Wanted(triggers, toHash);
    var k :| 0 <= k < |blocks| && blocks[k].block.hash == toHash;
    assert blocks[0].block.number == n && blocks[|blocks| - 1].block.number == n;
  }

  // ---------- From the chain to the handlers ----------

  function Scanned(logs: seq<Log>, calls: seq<EthereumCall>, ptrs: seq<BlockPtr>): seq<Trigger> {
    Map(logs, (l: Log) => LogTrigger(l)) + Map(calls, (c: EthereumCall) => CallTrigger(c)) +
    Map(ptrs, (p: BlockPtr) => BlockTrigger(p, Every))
  }

  lemma {:induction false} MapCount<A>(s: seq<A>, f: A -> Trigger, x: A)
    requires forall a, b :: f(a) == f(b) ==> a == b
    ensures multiset(Map(s, f))[f(x)] == multiset(s)[x]
  {
    if s != [] {
      var rest, last := s[..|s| - 1], s[|s| - 1];
      MapCount(rest, f, x);
      assert s == rest + [last];
      assert Map(s, f) == Map(rest, f) + [f(last)];
    }
  }

  lemma ScannedLogCount(logs: seq<Log>, calls: seq<EthereumCall>, ptrs: seq<BlockPtr>, log: Log)
    ensures multiset(Scanned(logs, calls, ptrs))[LogTrigger(log)] == multiset(logs)[log]
  {
    var a, b, c := Map(logs, (l: Log) => LogTrigger(l)), Map(calls, (c: EthereumCall) => CallTrigger(c)),
                   Map(ptrs, (p: BlockPtr) => BlockTrigger(p, Every));
    MapCount(logs, (l: Log) => LogTrigger(l), log);
    assert LogTrigger(log) !in b && LogTrigger(log) !in c;
    assert multiset(a + b + c) == multiset(a) + multiset(b) + multiset(c);
  }

  /**
   Scan, group and sort together: a log of the range reaches the block with its number, exactly once
   for every event handler of the data sources that is meant for it.
   */
  lemma LogsReachTheirBlock(dss: seq<DataSource>, i: nat, logs: seq<Log>, calls: seq<EthereumCall>, ptrs: seq<BlockPtr>,
                            triggers: seq<Trigger>, toHash: H256, node: Node, from: int, to: int,
                            blocks: seq<BlockWithTriggers>, log: Log, hashes: Hashes) returns (k: nat)
    requires multiset(triggers) == multiset(Scanned(LogScan(logs, from, to, FilterOf(dss, hashes).log), calls, ptrs))
    requires Delivered(triggers, toHash, node, from, to, blocks) && Agrees(triggers, toHash, node, to)
    requires i < |dss| && AcceptsLog(dss[i], log, hashes.topic) && log in logs && from <= log.blockNumber <= to
    ensures k < |blocks| && blocks[k].block.number == log.blockNumber
    ensures multiset(blocks[k].triggers)[LogTrigger(log)] == Times(multiset(logs)[log],
            HandlerCount(dss, log, hashes.topic)) > 0
    ensures forall j :: 0 <= j < |blocks| && j != k ==> LogTrigger(log) !in blocks[j].triggers
  {
    var found := LogScan(logs, from, to, FilterOf(dss, hashes).log);
    ScannedLogCount(found, calls, ptrs, log);
    LogMultiplicity(logs, from, to, LogFilterOf(dss, hashes), log);
    MatchingFiltersAreHandlers(dss, log, hashes);
    LogScanComplete(dss, i, logs, from, to, log, hashes);
    assert log in multiset(found);
    assert LogTrigger(log) in multiset(triggers);
    k := EveryTriggerInItsBlock(triggers, toHash, node, from, to, blocks, LogTrigger(log));
  }

  /** Within a block whose log indices rise with the transactions, the triggers are in transaction order. */
  lemma BlockInTransactionOrder(triggers: seq<Trigger>, toHash: H256, node: Node, from: int, to: int,
                                blocks: seq<BlockWithTriggers>, k: nat)
    requires Indexed(triggers) && Delivered(triggers, toHash, node, from, to, blocks) && k < |blocks|
    requires Indexed(TriggersOf(triggers, blocks[k].block.number)) &&
             Rising(TriggersOf(triggers, blocks[k].block.number))
    ensures Indexed(blocks[k].triggers) && ByTransaction(blocks[k].triggers)
  {
    SortIsByTransaction(TriggersOf(triggers, blocks[k].block.number), blocks[k].triggers);
  }
}
