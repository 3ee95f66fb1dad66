/**
 The polling block stream (massbit/src/blockchain/polling_block_stream.rs): it scans ranges of
 blocks for triggers, one after the other, and yields what a range holds block by block.

 The size of the next range comes from how many triggers the last range held; real numbers stand
 for the floating point of that estimate.
 */
module PollingStream {
  import opened Common
  import opened TriggerFilters
  import opened BlocksWithTriggers
  import opened TriggerScan

  /** The next range grows at most tenfold and aims at the target number of triggers. */
  function NextRange(maxRange: int, previous: int, perBlock: real, target: nat): (r: int)
    requires 1 <= maxRange && 1 <= previous && 0.0 <= perBlock
    ensures 1 <= r <= maxRange && r <= previous * 10
    ensures perBlock == 0.0 ==> r == Min(maxRange, previous * 10)
    ensures perBlock > 0.0 && r > 1 ==> r as real <= target as real / perBlock
  {
    var limit := Min(maxRange, previous * 10);
    if perBlock == 0.0 then limit
    else
      var wanted := target as real / perBlock;
      var atLeast := if wanted < 1.0 then 1.0 else wanted;
      if atLeast < limit as real then atLeast.Floor else limit
  }

  function TriggerCount(blocks: seq<BlockWithTriggers>): nat {
    if blocks == [] then 0 else TriggerCount(blocks[..|blocks| - 1]) + |blocks[|blocks| - 1].triggers|
  }

  function PerBlock(triggers: nat, size: int): (r: real)
    requires 1 <= size
    ensures 0.0 <= r
  {
    triggers as real / size as real
  }

  datatype Polled = Yield(block: BlockWithTriggers) | ScanError(message: string)

  /** What is still to come up to `last` from a position of the reader. */
  ghost predicate Ahead(c: ChainData, filter: TriggerFilter, from: int, last: int, blocks: seq<BlockWithTriggers>) {
    from <= last && Covers(c, filter, from, last, blocks)
  }

  lemma AheadOfFirst(c: ChainData, filter: TriggerFilter, from: int, last: int, blocks: seq<BlockWithTriggers>)
    requires Ahead(c, filter, from, last, blocks) && blocks != []
    ensures Ahead(c, filter, blocks[0].block.number, last, blocks[1..])
    ensures from < blocks[0].block.number && Genuine(c, filter, blocks[0])
    ensures NoneBetween(c, filter, from, blocks[0].block.number)
  {
    var tail := blocks[1..];
    forall i | 0 <= i < |tail| ensures blocks[0].block.number < tail[i].block.number <= last &&
           Genuine(c, filter, tail[i]) {
      assert tail[i] == blocks[i + 1];
    }
    forall n | blocks[0].block.number < n <= last && Due(c, n, filter) != [] ensures HasBlock(tail, n) {
      TailHasBlock(blocks, n);
    }
    NoneBeforeFirst(c, filter, from, last, blocks);
  }

  lemma TailHasBlock(blocks: seq<BlockWithTriggers>, n: int)
    requires blocks != [] && HasBlock(blocks, n) && n != blocks[0].block.number
    ensures HasBlock(blocks[1..], n)
  {
    var i :| 0 <= i < |blocks| && blocks[i].block.number == n;
    assert blocks[1..][i - 1] == blocks[i];
  }

  lemma NoneBeforeFirst(c: ChainData, filter: TriggerFilter, from: int, last: int, blocks: seq<BlockWithTriggers>)
    requires Ahead(c, filter, from, last, blocks) && blocks != []
    ensures NoneBetween(c, filter, from, blocks[0].block.number)
  {
    forall n | from < n < blocks[0].block.number ensures Due(c, n, filter) == [] {
      assert !HasBlock(blocks, n);
    }
  }

  ghost predicate NoneBetween(c: ChainData, filter: TriggerFilter, from: int, next: int) {
    forall n :: from < n < next ==> Due(c, n, filter) == []
  }

  /** What is pending leads up to the end of the last range; if nothing is, the reader is there. */
  ghost predicate EndsAt(position: int, last: int, blocks: seq<BlockWithTriggers>) {
    if blocks == [] then last == position else blocks[|blocks| - 1].block.number == last
  }

  lemma LastBlockEnds(position: int, from: int, last: int, blocks: seq<BlockWithTriggers>)
    requires Rising(blocks) && Within(from, last, blocks) && HasBlock(blocks, last)
    ensures EndsAt(position, last, blocks)
  {
    var i :| 0 <= i < |blocks| && blocks[i].block.number == last;
    var n := |blocks| - 1;
    assert blocks[n].block.number <= last;
  }

  /** A scan right behind the last range joins it without a gap, and leads up to its own end. */
  lemma ScanJoins(c: ChainData, filter: TriggerFilter, position: int, from: int, last: int,
                  blocks: seq<BlockWithTriggers>)
    requires Ahead(c, filter, position, from, []) && from <= last
    requires Covers(c, filter, from, last, blocks) && HasBlock(blocks, last)
    ensures Ahead(c, filter, position, last, blocks) && EndsAt(position, last, blocks)
  {
    AheadAfterScan(c, filter, position, from, last, blocks);
    LastBlockEnds(position, from, last, blocks);
  }

  lemma LoadsLess(c: ChainData, node: Node, from: int, to: int, limit: int)
    requires Loads(c, node, from, limit) && to <= limit
    ensures Loads(c, node, from, to)
  {
  }

  /** When nothing is pending, the next range joins the last one without a gap. */
  lemma AheadAfterScan(c: ChainData, filter: TriggerFilter, from: int, middle: int, last: int,
                       blocks: seq<BlockWithTriggers>)
    requires Ahead(c, filter, from, middle, []) && Ahead(c, filter, middle, last, blocks)
    ensures Ahead(c, filter, from, last, blocks)
  {
    forall n | from < n <= last && Due(c, n, filter) != [] ensures HasBlock(blocks, n) {
      assert !HasBlock([], n);
    }
  }

  class PollingBlockStream {
    const filter: TriggerFilter
    const maxRange: int
    const target: nat
    const limits: Limits
    var pending: seq<BlockWithTriggers>
    var streamPtr: int
    var perBlock: real
    var range: int

    ghost predicate Valid()
      reads this
    {
      && 1 <= maxRange && 1 <= range && 0.0 <= perBlock
      && 1 <= limits.maxEventOnlyRange && 1 <= limits.traceStep
      && filter.block.contractAddresses == {}
    }

    constructor (start: int, filter: TriggerFilter, maxRange: int, target: nat, limits: Limits)
      requires 1 <= maxRange && 1 <= limits.maxEventOnlyRange && 1 <= limits.traceStep &&
               filter.block.contractAddresses == {}
      ensures Valid() && pending == [] && streamPtr == start && this.filter == filter && this.maxRange == maxRange
    {
      this.filter := filter;
      this.maxRange := maxRange;
      this.target := target;
      this.limits := limits;
      pending := [];
      streamPtr := start;
      perBlock := 1000000.0;
      range := 1;
    }

    /** Scans the range after the last one. */
    method ScanNext(c: ChainData, answers: Answers, ghost position: int) returns (failure: Option<string>)
      requires Valid() && pending == [] && OfOneChain(c) && Honest(c, answers.node)
      requires Ahead(c, filter, position, streamPtr, pending)
      modifies this`pending, this`streamPtr, this`perBlock, this`range
      ensures Valid() && Ahead(c, filter, position, streamPtr, pending)
      ensures failure.None? ==> old(streamPtr) < streamPtr <= old(streamPtr) + maxRange && HasBlock(pending, streamPtr)
      ensures failure.None? ==> EndsAt(position, streamPtr, pending)
      ensures failure.Some? ==> streamPtr == old(streamPtr) && pending == []
      ensures Answered(answers) && Loads(c, answers.node, old(streamPtr) + 1, old(streamPtr) + maxRange) ==>
                failure.None?
    {
      var size := NextRange(maxRange, range, perBlock, target);
      var from := streamPtr + 1;
      var last := from + size - 1;
      if Loads(c, answers.node, from, streamPtr + maxRange) {
        LoadsLess(c, answers.node, from, last, streamPtr + maxRange);
      }
      var scanned := ScanTriggers(c, from, last, filter, answers, limits);
      if scanned.Err? {
        return Some(scanned.error);
      }
      ScanJoins(c, filter, position, streamPtr, last, scanned.value);
      perBlock := PerBlock(TriggerCount(scanned.value), size);
      range := size;
      streamPtr := streamPtr + size;
      pending := scanned.value;
      return None;
    }

    /**
     One poll: the next pending block, or one scan when nothing is pending. The blocks ahead of the
     reader stay complete: none in which something is due is skipped. It yields if something is
     pending, or if every request is answered and the blocks behind the reader can be loaded.
     */
    method Poll(c: ChainData, answers: Answers, ghost position: int) returns (r: Polled)
      requires Valid() && OfOneChain(c) && Honest(c, answers.node)
      requires Ahead(c, filter, position, streamPtr, pending) && EndsAt(position, streamPtr, pending)
      modifies this`pending, this`streamPtr, this`perBlock, this`range
      ensures Valid()
      ensures r.Yield? ==>
                && position < r.block.block.number && Genuine(c, filter, r.block)
                && NoneBetween(c, filter, position, r.block.block.number)
                && Ahead(c, filter, r.block.block.number, streamPtr, pending)
                && EndsAt(r.block.block.number, streamPtr, pending)
      ensures !r.Yield? ==> streamPtr == old(streamPtr) && pending == old(pending) == []
      ensures Answered(answers) && Loads(c, answers.node, position + 1, position + maxRange) ==> r.Yield?
    {
      if pending == [] {
        var failure := ScanNext(c, answers, position);
        if failure.Some? {
          return ScanError(failure.value);
        }
      }
      AheadOfFirst(c, filter, position, streamPtr, pending);
      r := Yield(pending[0]);
      pending := pending[1..];
    }
  }
}
