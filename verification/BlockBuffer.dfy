/**
 The reorder buffer between the fetches and the broadcaster
 (`BlockBuffer` in chain-reader/src/indexer_broadcast.rs).
 */
module BlockBuffers {
  import opened Common
  import opened SolanaTypes

  /** What travels from the chain adapter to the broadcaster. */
  datatype BlockInfo = BlockSlot(slot: nat) | ConfirmBlockWithSlot(block: SlotBlock)

  datatype Buffer = Buffer(queue: map<nat, SlotBlock>, expected: nat)

  /** The queued blocks of the slots in [from, to), in slot order. */
  function Queued(queue: map<nat, SlotBlock>, from: nat, to: nat): (r: seq<SlotBlock>)
    requires from <= to
    requires forall k :: from <= k < to ==> k in queue
    ensures |r| == to - from
    ensures forall i :: 0 <= i < |r| ==> r[i] == queue[from + i]
  {
    seq(to - from, i requires 0 <= i < to - from => queue[from + i])
  }

  /** The buffer after `info`, and the blocks it releases. */
  function Handle(b: Buffer, info: BlockInfo): (Buffer, Option<seq<SlotBlock>>) {
    match info
    case BlockSlot(slot) => (b.(expected := slot), None)
    case ConfirmBlockWithSlot(block) =>
      if block.slot != b.expected then
        (b.(queue := b.queue[block.slot := block]), None)
      else
        var end := FirstAbsent(b.queue, b.expected + 1);
        (Buffer(map k | k in b.queue && !(b.expected < k < end) :: b.queue[k], end),
         Some([block] + Queued(b.queue, b.expected + 1, end)))
  }

  class BlockBuffer {
    var queue: map<nat, SlotBlock>
    var expectedSlot: nat

    function Contents(): Buffer
      reads this
    {
      Buffer(queue, expectedSlot)
    }

    constructor ()
      ensures Contents() == Buffer(map[], 0)
    {
      queue := map[];
      expectedSlot := 0;
    }

    method HandleIncomingBlock(info: BlockInfo) returns (released: Option<seq<SlotBlock>>)
      modifies this
      ensures (Contents(), released) == Handle(old(Contents()), info)
    {
      match info {
        case BlockSlot(slot) =>
          expectedSlot := slot;
          released := None;
        case ConfirmBlockWithSlot(block) =>
          if block.slot != expectedSlot {
            queue := queue[block.slot := block];
            released := None;
          } else {
            ghost var q0, e0 := queue, expectedSlot;
            var blocks := [block];
            var key := expectedSlot + 1;
            while key in queue
              invariant expectedSlot == e0 < key <= FirstAbsent(q0, e0 + 1)
              invariant queue == map k | k in q0 && !(e0 < k < key) :: q0[k]
              invariant blocks == [block] + Queued(q0, e0 + 1, key)
              decreases FirstAbsent(q0, e0 + 1) - key
            {
              blocks := blocks + [queue[key]];
              queue := queue - {key};
              key := key + 1;
            }
            expectedSlot := key;
            released := Some(blocks);
          }
      }
    }
  }
}
