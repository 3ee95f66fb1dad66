/**
 The scan of a block range as the block stream uses it (`blocks_with_triggers` in
 chain/ethereum/src/ethereum_adapter.rs, `scan_triggers` in chain/ethereum/src/chain.rs): logs, calls
 and block pointers are searched for at the same time, grouped by block and sorted.

 The chain is what the node would answer: its logs and traces in block order, and the hash of each
 block. Each answer may fail; answers that come are right.
 */
module TriggerScan {
  import opened Common
  import opened EthereumTypes
  import opened TriggerFilters
  import opened TriggerOrder
  import opened ChainScan
  import opened BlocksWithTriggers

  datatype ChainData = ChainData(logs: seq<Log>, traces: seq<Trace>, hash: int -> H256)

  /** Logs and traces come in block order and name the hash of their block; hashes tell blocks apart. */
  ghost predicate OfOneChain(c: ChainData) {
    && InBlockOrder(c.logs) && TracesInOrder(c.traces)
    && (forall i :: 0 <= i < |c.logs| ==>
         c.logs[i].blockHash == c.hash(c.logs[i].blockNumber) && c.logs[i].transactionIndex.Some?)
    && (forall i :: 0 <= i < |c.traces| ==> c.traces[i].blockHash == c.hash(c.traces[i].blockNumber))
    && (forall m, n :: c.hash(m) == c.hash(n) ==> m == n)
  }

  /** How the node's answers turn out. `arrival` is the order in which the three searches finish. */
  datatype Answers = Answers(
    logs: nat -> Replies,
    traces: Replies,
    pointers: bool,
    lastHash: bool,
    node: Node,
    arrival: nat)

  /** The blocks that the node loads have the numbers of the chain. */
  ghost predicate Honest(c: ChainData, node: Node) {
    forall n :: c.hash(n) in node ==> node[c.hash(n)] == n
  }

  /** One pointer per block of the range, if every block is wanted. */
  function Pointers(c: ChainData, from: int, to: int, filter: TriggerFilter): seq<BlockPtr> {
    if filter.block.triggerEveryBlock && from <= to then seq(to - from + 1, i => BlockPtr(c.hash(from + i), from + i))
        else []
  }

  /** Everything the searches find in the range. */
  function AllOf(c: ChainData, from: int, to: int, filter: TriggerFilter): seq<Trigger> {
    Scanned(LogScan(c.logs, from, to, filter.log), CallScan(c.traces, from, to, filter.call),
            Pointers(c, from, to, filter))
  }

  /** What a block holds for a filter: what a search of that block alone finds. */
  function Due(c: ChainData, n: int, filter: TriggerFilter): seq<Trigger> {
    AllOf(c, n, n, filter)
  }

  /** A call to an address that is listed but only starts after block n. */
  predicate EarlyCall(filter: TriggerFilter, n: int, t: Trigger) {
    t.CallTrigger? && t.call.to in filter.call && n < filter.call[t.call.to].startBlock
  }

  // ---------- A range against its blocks ----------

  lemma ScannedCallCount(logs: seq<Log>, calls: seq<EthereumCall>, ptrs: seq<BlockPtr>, call: EthereumCall)
    ensures multiset(Scanned(logs, calls, ptrs))[CallTrigger(call)] == multiset(calls)[call]
  {
    var a, b, c := Map(logs, (l: Log) => LogTrigger(l)), Map(calls, (c: EthereumCall) => CallTrigger(c)),
                   Map(ptrs, (p: BlockPtr) => BlockTrigger(p, Every));
    MapCount(calls, (c: EthereumCall) => CallTrigger(c), call);
    assert CallTrigger(call) !in a && CallTrigger(call) !in c;
    assert multiset(a + b + c) == multiset(a) + multiset(b) + multiset(c);
  }

  lemma ScannedBlockCount(logs: seq<Log>, calls: seq<EthereumCall>, ptrs: seq<BlockPtr>, ptr: BlockPtr)
    ensures multiset(Scanned(logs, calls, ptrs))[BlockTrigger(ptr, Every)] == multiset(ptrs)[ptr]
  {
    var a, b, c := Map(logs, (l: Log) => LogTrigger(l)), Map(calls, (c: EthereumCall) => CallTrigger(c)),
                   Map(ptrs, (p: BlockPtr) => BlockTrigger(p, Every));
    MapCount(ptrs, (p: BlockPtr) => BlockTrigger(p, Every), ptr);
    assert BlockTrigger(ptr, Every) !in a && BlockTrigger(ptr, Every) !in b;
    assert multiset(a + b + c) == multiset(a) + multiset(b) + multiset(c);
  }

  lemma {:induction false} PointerCount(c: ChainData, from: int, to: int, filter: TriggerFilter, ptr: BlockPtr)
    requires from <= to + 1
    ensures multiset(Pointers(c, from, to, filter))[ptr] ==
            if filter.block.triggerEveryBlock && from <= ptr.number <= to &&
                ptr.hash == c.hash(ptr.number) then 1 else 0
    decreases (to - from) + 1
  {
    if from <= to && filter.block.triggerEveryBlock {
      PointerCount(c, from, to - 1, filter, ptr);
      assert Pointers(c, from, to, filter) == Pointers(c, from, to - 1, filter) + [BlockPtr(c.hash(to), to)];
    }
  }

  lemma LogInRange(c: ChainData, from: int, to: int, filter: TriggerFilter, log: Log)
    requires from <= log.blockNumber <= to
    ensures multiset(AllOf(c, from, to, filter))[LogTrigger(log)] ==
            multiset(Due(c, log.blockNumber, filter))[LogTrigger(log)]
  {
    var n := log.blockNumber;
    ScannedLogCount(LogScan(c.logs, from, to, filter.log), CallScan(c.traces, from, to, filter.call),
                    Pointers(c, from, to, filter), log);
    ScannedLogCount(LogScan(c.logs, n, n, filter.log), CallScan(c.traces, n, n, filter.call),
                    Pointers(c, n, n, filter), log);
    LogMultiplicity(c.logs, from, to, filter.log, log);
    LogMultiplicity(c.logs, n, n, filter.log, log);
  }

  /** Calls are the exception: an address that starts inside the range is searched for from its beginning. */
  lemma CallInRange(c: ChainData, from: int, to: int, filter: TriggerFilter, call: EthereumCall)
    requires from <= call.blockNumber <= to && |call.input| >= 4
    ensures var t, n := CallTrigger(call), call.blockNumber;
            !EarlyCall(filter, n, t) ==> multiset(AllOf(c, from, to, filter))[t] == multiset(Due(c, n, filter))[t]
    ensures EarlyCall(filter, call.blockNumber, CallTrigger(call)) ==>
              CallTrigger(call) !in Due(c, call.blockNumber, filter)
  {
    var n := call.blockNumber;
    ScannedCallCount(LogScan(c.logs, from, to, filter.log), CallScan(c.traces, from, to, filter.call),
                     Pointers(c, from, to, filter), call);
    ScannedCallCount(LogScan(c.logs, n, n, filter.log), CallScan(c.traces, n, n, filter.call),
                     Pointers(c, n, n, filter), call);
    CallMultiplicity(c.traces, from, to, filter.call, call);
    CallMultiplicity(c.traces, n, n, filter.call, call);
    if EarlyCall(filter, n, CallTrigger(call)) {
      assert CallTrigger(call) !in multiset(Due(c, n, filter));
    }
  }

  lemma BlockInRange(c: ChainData, from: int, to: int, filter: TriggerFilter, ptr: BlockPtr)
    requires from <= ptr.number <= to
    ensures var t := BlockTrigger(ptr, Every);
            multiset(AllOf(c, from, to, filter))[t] == multiset(Due(c, ptr.number, filter))[t]
  {
    var n := ptr.number;
    ScannedBlockCount(LogScan(c.logs, from, to, filter.log), CallScan(c.traces, from, to, filter.call),
                      Pointers(c, from, to, filter), ptr);
    ScannedBlockCount(LogScan(c.logs, n, n, filter.log), CallScan(c.traces, n, n, filter.call),
                      Pointers(c, n, n, filter), ptr);
    PointerCount(c, from, to, filter, ptr);
    PointerCount(c, n, n, filter, ptr);
  }

  /** The kinds of trigger that a search yields. */
  predicate Searched(t: Trigger) {
    match t
    case BlockTrigger(_, kind) => kind == Every
    case CallTrigger(call) => |call.input| >= 4
    case LogTrigger(_) => true
  }

  /**
   Searching a range finds in each block what searching that block alone finds, as often, and
   besides only calls to addresses that start later in the range.
   */
  lemma RangeIsItsBlocks(c: ChainData, from: int, to: int, filter: TriggerFilter, t: Trigger)
    requires from <= t.BlockNumber() <= to && Searched(t)
    ensures var n := t.BlockNumber();
            if EarlyCall(filter, n, t) then t !in Due(c, n, filter)
            else multiset(AllOf(c, from, to, filter))[t] == multiset(Due(c, n, filter))[t]
  {
    match t
    case LogTrigger(log) => LogInRange(c, from, to, filter, log);
    case CallTrigger(call) => CallInRange(c, from, to, filter, call);
    case BlockTrigger(ptr, kind) => BlockInRange(c, from, to, filter, ptr);
  }

  // ---------- What a scan delivers ----------

  /** All that is due in the block, as often as it is due, and besides only early calls. */
  ghost predicate Genuine(c: ChainData, filter: TriggerFilter, b: BlockWithTriggers) {
    && b.block.hash == c.hash(b.block.number)
    && (forall t :: t in Due(c, b.block.number, filter) ==>
          multiset(b.triggers)[t] == multiset(Due(c, b.block.number, filter))[t])
    && (forall t :: t in b.triggers && t !in Due(c, b.block.number, filter) ==> EarlyCall(filter, b.block.number, t))
    && (forall t :: t in b.triggers ==> t.BlockNumber() == b.block.number && Searched(t))
  }

  ghost predicate HasBlock(blocks: seq<BlockWithTriggers>, n: int) {
    exists i :: 0 <= i < |blocks| && blocks[i].block.number == n
  }

  ghost predicate Rising(blocks: seq<BlockWithTriggers>) {
    forall i, j :: 0 <= i < j < |blocks| ==> blocks[i].block.number < blocks[j].block.number
  }

  /** Blocks after `from` and up to `last`. */
  ghost predicate Within(from: int, last: int, blocks: seq<BlockWithTriggers>) {
    forall i :: 0 <= i < |blocks| ==> from < blocks[i].block.number <= last
  }

  ghost predicate AllGenuine(c: ChainData, filter: TriggerFilter, blocks: seq<BlockWithTriggers>) {
    forall i :: 0 <= i < |blocks| ==> Genuine(c, filter, blocks[i])
  }

  /** No block after `from` and up to `last` in which something is due is missing. */
  ghost predicate Complete(c: ChainData, filter: TriggerFilter, from: int, last: int, blocks: seq<BlockWithTriggers>) {
    forall n :: from < n <= last && Due(c, n, filter) != [] ==> HasBlock(blocks, n)
  }

  /** In order, genuine, and only blocks in which nothing is due are left out. */
  ghost predicate Covers(c: ChainData, filter: TriggerFilter, from: int, last: int, blocks: seq<BlockWithTriggers>) {
    Rising(blocks) && Within(from, last, blocks) && AllGenuine(c, filter, blocks) &&
           Complete(c, filter, from, last, blocks)
  }

  /** The searches finish in any order. */
  function Arranged(a: seq<Trigger>, b: seq<Trigger>, c: seq<Trigger>, arrival: nat): (r: seq<Trigger>)
    ensures multiset(r) == multiset(a + b + c)
  {
    match arrival
    case 0 => a + b + c
    case 1 => a + c + b
    case 2 => b + a + c
    case 3 => b + c + a
    case 4 => c + a + b
    case _ => c + b + a
  }

  /** Every request succeeds, or is for the logs of more than one block and too heavy. */
  ghost predicate Answered(a: Answers) {
    && (forall i, n, x, y :: LogsAnswered(a.logs(i)(n, x, y), x, y))
    && (forall n, x, y :: a.traces(n, x, y).Succeeds?)
    && a.pointers && a.lastHash
  }

  predicate LogsAnswered(reply: Reply, from: int, to: int) {
    reply.Succeeds? || (reply.TooHeavy? && from < to)
  }

  /** The node can load every block of the range. */
  ghost predicate Loads(c: ChainData, node: Node, from: int, to: int) {
    forall n :: from <= n <= to ==> c.hash(n) in node
  }

  lemma {:induction false} NodeFor(c: ChainData, from: int, to: int) returns (node: Node)
    requires OfOneChain(c)
    ensures Honest(c, node) && Loads(c, node, from, to)
    decreases (to - from) + 1
  {
    if from > to {
      return map[];
    }
    var rest := NodeFor(c, from, to - 1);
    node := rest[c.hash(to) := to];
    forall n | c.hash(n) in node ensures node[c.hash(n)] == n {
      assert c.hash(n) == c.hash(to) ==> n == to;
    }
  }

  /** A node that finds every request for the logs of more than one block too heavy still answers. */
  lemma HeaviestAnswers(c: ChainData, from: int, to: int) returns (a: Answers)
    requires OfOneChain(c)
    ensures Answered(a) && Honest(c, a.node) && Loads(c, a.node, from, to)
    ensures forall i, n, x, y :: x < y ==> a.logs(i)(n, x, y).TooHeavy?
  {
    var node := NodeFor(c, from, to);
    var heavy: Replies := (n, x, y) => if x < y then TooHeavy else Succeeds;
    a := Answers(i => heavy, (n, x, y) => Succeeds, true, true, node, 0);
  }

  datatype Limits = Limits(maxEventOnlyRange: int, traceStep: int)

  /**
   Whatever the pattern of failures and the order of arrival, a scan that succeeds covers its range.
   It succeeds if every block can be loaded and every request is answered; requests for the logs of
   several blocks may be too heavy any number of times.
   */
  method ScanTriggers(c: ChainData, from: int, to: int, filter: TriggerFilter, answers: Answers, limits: Limits)
    returns (r: Result<seq<BlockWithTriggers>, string>)
    requires from <= to && OfOneChain(c) && Honest(c, answers.node) && filter.block.contractAddresses == {}
    requires limits.maxEventOnlyRange >= 1 && limits.traceStep >= 1
    ensures r.Ok? ==> Covers(c, filter, from - 1, to, r.value) && HasBlock(r.value, to)
    ensures Answered(answers) && Loads(c, answers.node, from, to) ==> r.Ok?
  {
    var logs, logRequests := LogsInBlockRange(c.logs, from, to, filter.log, limits.maxEventOnlyRange, answers.logs);
    if logs.Err? {
      return Err("logs");
    }
    var calls, callRequests := CallsInBlockRange(c.traces, from, to, filter.call, limits.traceStep, answers.traces);
    if calls.Err? {
      return Err("calls");
    }
    if (filter.block.triggerEveryBlock && !answers.pointers) || !answers.lastHash {
      return Err("block pointers");
    }
    r := Group(c, from, to, filter, Found(logs.value, calls.value, Pointers(c, from, to, filter), answers.arrival),
      answers.node);
  }

  /** What the searches found, in the order in which they finished. */
  function Found(logs: seq<Log>, calls: seq<EthereumCall>, ptrs: seq<BlockPtr>, arrival: nat): (r: seq<Trigger>)
    ensures multiset(r) == multiset(Scanned(logs, calls, ptrs))
  {
    Arranged(Map(logs, (l: Log) => LogTrigger(l)), Map(calls, (c: EthereumCall) => CallTrigger(c)),
             Map(ptrs, (p: BlockPtr) => BlockTrigger(p, Every)), arrival)
  }

  /** Groups what was found into blocks. */
  method Group(c: ChainData, from: int, to: int, filter: TriggerFilter, triggers: seq<Trigger>, node: Node)
    returns (r: Result<seq<BlockWithTriggers>, string>)
    requires from <= to && OfOneChain(c) && Honest(c, node) &&
             multiset(triggers) == multiset(AllOf(c, from, to, filter))
    ensures r.Ok? ==> Covers(c, filter, from - 1, to, r.value) && HasBlock(r.value, to)
    ensures Loads(c, node, from, to) ==> r.Ok?
  {
    FoundOnChain(c, from, to, filter, triggers);
    if Loads(c, node, from, to) {
      LoadsLoadable(c, node, from, to, triggers);
    }
    var loaded := LoadBlocksWithTriggers(triggers, c.hash(to), node, from, to);
    if loaded.Err? {
      return Err("blocks");
    }
    DeliveredCovers(c, node, from, to, filter, triggers, loaded.value);
    return Ok(loaded.value);
  }

  /** Each trigger is of the range and names the hash of its block. */
  ghost predicate OnChain(c: ChainData, from: int, to: int, triggers: seq<Trigger>) {
    forall i :: 0 <= i < |triggers| ==>
      from <= triggers[i].BlockNumber() <= to && triggers[i].BlockHash() == c.hash(triggers[i].BlockNumber()) &&
        Searched(triggers[i])
  }

  lemma FoundOne(c: ChainData, from: int, to: int, filter: TriggerFilter, t: Trigger)
    requires OfOneChain(c) && t in AllOf(c, from, to, filter)
    ensures from <= t.BlockNumber() <= to && t.BlockHash() == c.hash(t.BlockNumber()) && Searched(t)
    ensures t.LogTrigger? ==> t.log.transactionIndex.Some?
  {
    match t
    case LogTrigger(log) =>
      assert log in LogScan(c.logs, from, to, filter.log);
      LogScanGenuine(c.logs, from, to, filter.log, log);
    case CallTrigger(call) =>
      assert call in CallScan(c.traces, from, to, filter.call);
      var k := CallScanGenuine(c.traces, from, to, filter.call, call);
    case BlockTrigger(ptr, kind) =>
      assert ptr in Pointers(c, from, to, filter);
  }

  lemma FoundOnChain(c: ChainData, from: int, to: int, filter: TriggerFilter, triggers: seq<Trigger>)
    requires OfOneChain(c) && multiset(triggers) == multiset(AllOf(c, from, to, filter))
    ensures OnChain(c, from, to, triggers) && Indexed(triggers)
  {
    forall i | 0 <= i < |triggers|
      ensures && from <= triggers[i].BlockNumber() <= to && triggers[i].BlockHash() == c.hash(triggers[i].BlockNumber())
              && Searched(triggers[i]) && (triggers[i].LogTrigger? ==> triggers[i].log.transactionIndex.Some?)
    {
      assert triggers[i] in multiset(triggers);
      FoundOne(c, from, to, filter, triggers[i]);
    }
  }

  lemma WantedAgrees(c: ChainData, node: Node, from: int, to: int, triggers: seq<Trigger>)
    requires Honest(c, node) && OnChain(c, from, to, triggers) && Wanted(triggers, c.hash(to)) <= node.Keys
    ensures Agrees(triggers, c.hash(to), node, to)
  {
    forall i | 0 <= i < |triggers|
      ensures triggers[i].BlockHash() in node && node[triggers[i].BlockHash()] == triggers[i].BlockNumber()
    {
      assert triggers[i].BlockHash() in HashesOf(triggers);
    }
    assert c.hash(to) in Wanted(triggers, c.hash(to));
  }

  lemma LoadsLoadable(c: ChainData, node: Node, from: int, to: int, triggers: seq<Trigger>)
    requires from <= to && Honest(c, node) && OnChain(c, from, to, triggers) && Loads(c, node, from, to)
    ensures Loadable(triggers, c.hash(to), node, from, to)
  {
    forall h | h in Wanted(triggers, c.hash(to)) ensures h in node {
      if h != c.hash(to) {
        var i :| 0 <= i < |triggers| && triggers[i].BlockHash() == h;
      }
    }
    WantedAgrees(c, node, from, to, triggers);
    AgreeingNodeLoads(triggers, c.hash(to), node, from, to);
  }

  /** A delivered block has the hash of the chain. */
  lemma DeliveredHash(c: ChainData, node: Node, from: int, to: int, triggers: seq<Trigger>,
                      blocks: seq<BlockWithTriggers>, i: nat)
    requires Delivered(triggers, c.hash(to), node, from, to, blocks) && Agrees(triggers, c.hash(to), node, to)
    requires OnChain(c, from, to, triggers) && i < |blocks|
    ensures blocks[i].block.hash == c.hash(blocks[i].block.number)
  {
    var h := blocks[i].block.hash;
    if h != c.hash(to) {
      var k :| 0 <= k < |triggers| && triggers[k].BlockHash() == h;
    }
  }

  /** How often a trigger is in a delivered block. */
  lemma DeliveredCount(triggers: seq<Trigger>, n: int, sorted: seq<Trigger>, t: Trigger)
    requires IsSortOf(sorted, TriggersOf(triggers, n))
    ensures multiset(sorted)[t] == if t.BlockNumber() == n then multiset(triggers)[t] else 0
  {
    FilterCount(triggers, (u: Trigger) => u.BlockNumber() == n, t);
  }

  lemma BlockGenuine(c: ChainData, node: Node, from: int, to: int, filter: TriggerFilter, triggers: seq<Trigger>,
                     blocks: seq<BlockWithTriggers>, i: nat)
    requires OfOneChain(c) && multiset(triggers) == multiset(AllOf(c, from, to, filter)) &&
             OnChain(c, from, to, triggers)
    requires Delivered(triggers, c.hash(to), node, from, to, blocks) && Agrees(triggers, c.hash(to), node, to) &&
             i < |blocks|
    ensures Genuine(c, filter, blocks[i])
  {
    var b := blocks[i];
    var n := b.block.number;
    DeliveredHash(c, node, from, to, triggers, blocks, i);
    forall t | t in Due(c, n, filter) ensures multiset(b.triggers)[t] == multiset(Due(c, n, filter))[t] {
      FoundOne(c, n, n, filter, t);
      RangeIsItsBlocks(c, from, to, filter, t);
      DeliveredCount(triggers, n, b.triggers, t);
    }
    forall t | t in b.triggers
      ensures t.BlockNumber() == n && Searched(t) && (t !in Due(c, n, filter) ==> EarlyCall(filter, n, t))
    {
      assert t in multiset(b.triggers);
      DeliveredCount(triggers, n, b.triggers, t);
      assert t in multiset(triggers);
      FoundOne(c, from, to, filter, t);
      RangeIsItsBlocks(c, from, to, filter, t);
      assert t !in Due(c, n, filter) ==> t !in multiset(Due(c, n, filter));
    }
  }

  lemma BlockDelivered(c: ChainData, node: Node, from: int, to: int, filter: TriggerFilter, triggers: seq<Trigger>,
                       blocks: seq<BlockWithTriggers>, n: int)
    requires OfOneChain(c) && multiset(triggers) == multiset(AllOf(c, from, to, filter))
    requires Delivered(triggers, c.hash(to), node, from, to, blocks) && Agrees(triggers, c.hash(to), node, to)
    requires from <= n <= to && Due(c, n, filter) != []
    ensures HasBlock(blocks, n)
  {
    var t := Due(c, n, filter)[0];
    assert t in multiset(Due(c, n, filter));
    FoundOne(c, n, n, filter, t);
    RangeIsItsBlocks(c, from, to, filter, t);
    assert t in multiset(triggers);
    var k := EveryTriggerInItsBlock(triggers, c.hash(to), node, from, to, blocks, t);
    assert blocks[k].block.number == n;
  }

  lemma DeliveredCovers(c: ChainData, node: Node, from: int, to: int, filter: TriggerFilter, triggers: seq<Trigger>,
                        blocks: seq<BlockWithTriggers>)
    requires OfOneChain(c) && Honest(c, node) && multiset(triggers) == multiset(AllOf(c, from, to, filter))
    requires OnChain(c, from, to, triggers) && Loadable(triggers, c.hash(to), node, from, to)
    requires Delivered(triggers, c.hash(to), node, from, to, blocks)
    ensures Covers(c, filter, from - 1, to, blocks) && HasBlock(blocks, to)
  {
    WantedAgrees(c, node, from, to, triggers);
    forall i | 0 <= i < |blocks| ensures Genuine(c, filter, blocks[i]) {
      BlockGenuine(c, node, from, to, filter, triggers, blocks, i);
    }
    forall n | from - 1 < n <= to && Due(c, n, filter) != [] ensures HasBlock(blocks, n) {
      BlockDelivered(c, node, from, to, filter, triggers, blocks, n);
    }
    assert c.hash(to) in Wanted(triggers, c.hash(to));
    var k :| 0 <= k < |blocks| && blocks[k].block.hash == c.hash(to);
    assert blocks[k].block.number == to;
  }
}
