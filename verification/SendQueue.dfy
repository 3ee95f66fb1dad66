/**
 The older send queue (`SendQueue` in chain-reader/src/solana_chain.rs). `pop_queue` advances
 `sending_slot` even when it finds nothing, so each drain gives up the slot on which it stops.
 */
module SendQueues {
  import opened Common
  import opened SolanaTypes

  datatype Queue = Queue(waiting: Blocks, sendingSlot: nat)

  /** Blocks by slot; the node has none for an empty slot. */
  type Blocks = map<nat, Option<ConfirmedBlock>>

  type Packed = seq<(ConfirmedBlock, nat)>

  /** The blocks that the slots of [from, to) hold, in slot order; an empty slot adds nothing. */
  function Pack(waiting: Blocks, from: nat, to: nat): Packed
    requires from <= to && forall k :: from <= k < to ==> k in waiting
  {
    if from == to then []
    else Pack(waiting, from, to - 1) +
         if waiting[to - 1].Some? then [(waiting[to - 1].value, to - 1)] else []
  }

  function Insert(q: Queue, block: Option<ConfirmedBlock>, slot: nat): (Queue, Option<Packed>) {
    if slot != q.sendingSlot then (q.(waiting := q.waiting[slot := block]), None)
    else
      var all, gap := q.waiting[slot := block], FirstAbsent(q.waiting, slot + 1);
      (Queue(map k | k in q.waiting && !(slot < k < gap) :: q.waiting[k], gap + 1), Some(Pack(all, slot, gap)))
  }

  class SendQueue {
    var queue: Blocks
    var sendingSlot: nat

    function Contents(): Queue
      reads this
    {
      Queue(queue, sendingSlot)
    }

    constructor (start: nat)
      ensures Contents() == Queue(map[], start)
    {
      queue := map[];
      sendingSlot := start;
    }

    method PopQueue() returns (r: Option<(Option<ConfirmedBlock>, nat)>)
      modifies this
      ensures sendingSlot == old(sendingSlot) + 1
      ensures queue == old(queue) - {old(sendingSlot)}
      ensures r == if old(sendingSlot) in old(queue) then Some((old(queue)[old(sendingSlot)], old(sendingSlot)))
              else None
    {
      if sendingSlot in queue {
        r := Some((queue[sendingSlot], sendingSlot));
        queue := queue - {sendingSlot};
      } else {
        r := None;
        assert queue == queue - {sendingSlot};
      }
      sendingSlot := sendingSlot + 1;
    }

    method InsertAndPrepareSend(block: Option<ConfirmedBlock>, slot: nat) returns (r: Option<Packed>)
      modifies this
      ensures (Contents(), r) == Insert(old(Contents()), block, slot)
    {
      if slot != sendingSlot {
        queue := queue[slot := block];
        return None;
      }
      ghost var q0 := queue;
      ghost var all, gap := queue[slot := block], FirstAbsent(queue, slot + 1);
      var blocks: Packed := [];
      if block.Some? {
        blocks := [(block.value, slot)];
      }
      sendingSlot := sendingSlot + 1;
      var popped := PopQueue();
      while popped.Some?
        invariant slot + 1 < sendingSlot <= gap + 1
        invariant popped.Some? ==> sendingSlot <= gap && popped.value == (all[sendingSlot - 1], sendingSlot - 1)
        invariant popped.None? ==> sendingSlot == gap + 1
        invariant queue == map k | k in q0 && !(slot < k < sendingSlot) :: q0[k]
        invariant blocks == Pack(all, slot, sendingSlot - 1)
        decreases gap + 1 - sendingSlot
      {
        if popped.value.0.Some? {
          blocks := blocks + [(popped.value.0.value, popped.value.1)];
        }
        popped := PopQueue();
      }
      assert queue == map k | k in q0 && !(slot < k < gap) :: q0[k];
      r := Some(blocks);
    }
  }

  // ---------- Runs: blocks arrive in any order ----------

  datatype Arrival = Arrival(slot: nat, block: Option<ConfirmedBlock>)

  /** The queue, everything packed so far, and the slots that were taken or given up. */
  datatype Log = Log(q: Queue, packed: Packed, taken: set<nat>, missed: set<nat>)

  function Slots(arrivals: seq<Arrival>): set<nat> {
    set i | 0 <= i < |arrivals| :: arrivals[i].slot
  }

  /** The waiting slots of [from, to). */
  function Between(q: Queue, from: nat, to: nat): set<nat> {
    set k | k in q.waiting && from <= k < to
  }

  function After(log: Log, a: Arrival): Log {
    var (q, out) := Insert(log.q, a.block, a.slot);
    if out.None? then log.(q := q)
    else Log(q, log.packed + out.value, log.taken + {a.slot} + Between(log.q, a.slot, q.sendingSlot - 1),
        log.missed + {q.sendingSlot - 1})
  }

  function Run(start: nat, arrivals: seq<Arrival>): Log {
    if arrivals == [] then Log(Queue(map[], start), [], {}, {})
    else After(Run(start, arrivals[..|arrivals| - 1]), arrivals[|arrivals| - 1])
  }

  ghost predicate Distinct(arrivals: seq<Arrival>) {
    forall i, j :: 0 <= i < j < |arrivals| ==> arrivals[i].slot != arrivals[j].slot
  }

  ghost predicate Increasing(packed: Packed) {
    forall i, j :: 0 <= i < j < |packed| ==> packed[i].1 < packed[j].1
  }

  /** What has arrived, by slot. */
  function Arrived(arrivals: seq<Arrival>): Blocks {
    if arrivals == [] then map[]
    else Arrived(arrivals[..|arrivals| - 1])[arrivals[|arrivals| - 1].slot := arrivals[|arrivals| - 1].block]
  }

  /** The packed blocks are those that arrived in the given slots; an empty slot adds nothing. */
  ghost predicate PackedFrom(packed: Packed, arrived: Blocks, slots: set<nat>) {
    forall b, k :: (b, k) in packed <==> k in slots && k in arrived && arrived[k] == Some(b)
  }

  /** Every slot below the sending slot was taken or missed; what arrived and was not taken waits. */
  ghost predicate SlotInv(start: nat, arrived: set<nat>, waiting: set<nat>, taken: set<nat>, missed: set<nat>,
                          sending: nat) {
    && start <= sending
    && (forall k :: k in taken || k in missed <==> start <= k < sending)
    && taken !! missed
    && taken <= arrived
    && (forall k :: k in waiting <==> k in arrived && k !in taken)
  }

  ghost predicate Holds(waiting: Blocks, arrived: Blocks) {
    forall k :: k in waiting && k in arrived ==> waiting[k] == arrived[k]
  }

  ghost predicate Inv(start: nat, arrived: Blocks, log: Log) {
    && SlotInv(start, arrived.Keys, log.q.waiting.Keys, log.taken, log.missed, log.q.sendingSlot)
    && Holds(log.q.waiting, arrived)
    && Increasing(log.packed)
    && PackedFrom(log.packed, arrived, log.taken)
  }

  lemma {:induction false} PackIncreasing(waiting: Blocks, from: nat, to: nat)
    requires from <= to && forall k :: from <= k < to ==> k in waiting
    ensures Increasing(Pack(waiting, from, to))
    ensures forall i :: 0 <= i < |Pack(waiting, from, to)| ==> from <= Pack(waiting, from, to)[i].1 < to
  {
    if from < to {
      PackIncreasing(waiting, from, to - 1);
    }
  }

  lemma {:induction false} PackContents(waiting: Blocks, from: nat, to: nat, b: ConfirmedBlock, k: nat)
    requires from <= to && forall k :: from <= k < to ==> k in waiting
    ensures (b, k) in Pack(waiting, from, to) <==> from <= k < to && waiting[k] == Some(b)
  {
    if from < to {
      PackContents(waiting, from, to - 1, b, k);
    }
  }

  /** A drain packs exactly what waits in the slots it takes, and the slots stay in order. */
  lemma DrainPacks(packed: Packed, arrived: Blocks, taken: set<nat>, waiting: Blocks, from: nat, to: nat,
                   taken': set<nat>)
    requires PackedFrom(packed, arrived, taken) && Increasing(packed)
    requires from <= to && (forall k :: from <= k < to ==>
               k in waiting && k !in taken && k in arrived && waiting[k] == arrived[k])
    requires forall k :: k in taken ==> k < from
    requires forall k :: k in taken' <==> k in taken || from <= k < to
    ensures Increasing(packed + Pack(waiting, from, to)) && PackedFrom(packed + Pack(waiting, from, to), arrived,
            taken')
  {
    PackIncreasing(waiting, from, to);
    var more := Pack(waiting, from, to);
    forall b, k ensures (b, k) in packed + more <==> k in taken' && k in arrived && arrived[k] == Some(b) {
      PackContents(waiting, from, to, b, k);
    }
    forall i, j | 0 <= i < |packed| && 0 <= j < |more| ensures packed[i].1 < more[j].1 {
      var (b, k) := packed[i];
      assert (b, k) in packed;
    }
  }

  lemma AfterKeeps(start: nat, arrived: Blocks, log: Log, a: Arrival)
    requires Inv(start, arrived, log) && a.slot !in arrived
    ensures Inv(start, arrived[a.slot := a.block], After(log, a))
  {
    var arrived' := arrived[a.slot := a.block];
    assert PackedFrom(log.packed, arrived', log.taken);
    if a.slot == log.q.sendingSlot {
      DrainKeeps(start, arrived, log, a);
    }
  }

  /** What a drain does to the queue and to the log. */
  lemma DrainEffect(log: Log, a: Arrival) returns (gap: nat)
    requires a.slot == log.q.sendingSlot
    ensures a.slot < gap && gap !in log.q.waiting && forall k :: a.slot < k < gap ==> k in log.q.waiting
    ensures var log' := After(log, a);
            && (a.slot !in log.q.waiting ==> forall k :: k in log'.taken <==> k in log.taken || a.slot <= k < gap)
            && (forall k :: k in log'.q.waiting <==> k in log.q.waiting && !(a.slot < k < gap))
            && (forall k :: k in log'.q.waiting ==> log'.q.waiting[k] == log.q.waiting[k])
            && log'.packed == log.packed + Pack(log.q.waiting[a.slot := a.block], a.slot, gap)
            && log'.missed == log.missed + {gap} && log'.q.sendingSlot == gap + 1
  {
    gap := FirstAbsent(log.q.waiting, a.slot + 1);
  }

  lemma DrainKeeps(start: nat, arrived: Blocks, log: Log, a: Arrival)
    requires Inv(start, arrived, log) && a.slot !in arrived && a.slot == log.q.sendingSlot
    requires PackedFrom(log.packed, arrived[a.slot := a.block], log.taken)
    ensures Inv(start, arrived[a.slot := a.block], After(log, a))
  {
    var arrived', log', all := arrived[a.slot := a.block], After(log, a), log.q.waiting[a.slot := a.block];
    var gap := DrainEffect(log, a);
    DrainPacks(log.packed, arrived', log.taken, all, a.slot, gap, log'.taken);
    DrainSlots(start, arrived.Keys, log.q.waiting.Keys, log.taken, log.missed, a.slot, gap,
               log'.q.waiting.Keys, log'.taken, log'.missed);
    assert arrived'.Keys == arrived.Keys + {a.slot};
  }

  lemma DrainSlots(start: nat, arrived: set<nat>, waiting: set<nat>, taken: set<nat>, missed: set<nat>, sending: nat,
                   gap: nat,
                   waiting': set<nat>, taken': set<nat>, missed': set<nat>)
    requires SlotInv(start, arrived, waiting, taken, missed, sending) && sending !in arrived
    requires sending < gap && gap !in waiting && forall k :: sending < k < gap ==> k in waiting
    requires forall k :: k in taken' <==> k in taken || sending <= k < gap
    requires forall k :: k in waiting' <==> k in waiting && !(sending < k < gap)
    requires missed' == missed + {gap}
    ensures SlotInv(start, arrived + {sending}, waiting', taken', missed', gap + 1)
  {
  }

  lemma SlotsSnoc(arrivals: seq<Arrival>)
    requires arrivals != []
    ensures Slots(arrivals) == Slots(arrivals[..|arrivals| - 1]) + {arrivals[|arrivals| - 1].slot}
  {
    var rest := arrivals[..|arrivals| - 1];
    forall k | k in Slots(arrivals) ensures k in Slots(rest) + {arrivals[|arrivals| - 1].slot} {
      var i :| 0 <= i < |arrivals| && arrivals[i].slot == k;
      assert i < |rest| ==> rest[i].slot == k;
    }
    forall k | k in Slots(rest) ensures k in Slots(arrivals) {
      var i :| 0 <= i < |rest| && rest[i].slot == k;
      assert arrivals[i].slot == k;
    }
  }

  lemma LastIsNew(arrivals: seq<Arrival>)
    requires arrivals != [] && Distinct(arrivals)
    ensures arrivals[|arrivals| - 1].slot !in Slots(arrivals[..|arrivals| - 1])
  {
  }

  lemma {:induction false} ArrivedSlots(arrivals: seq<Arrival>)
    ensures Arrived(arrivals).Keys == Slots(arrivals)
  {
    if arrivals != [] {
      ArrivedSlots(arrivals[..|arrivals| - 1]);
      SlotsSnoc(arrivals);
    }
  }

  lemma {:induction false} ArrivedAt(arrivals: seq<Arrival>, i: nat)
    requires Distinct(arrivals) && i < |arrivals|
    ensures arrivals[i].slot in Arrived(arrivals) && Arrived(arrivals)[arrivals[i].slot] == arrivals[i].block
  {
    if i < |arrivals| - 1 {
      ArrivedAt(arrivals[..|arrivals| - 1], i);
      assert arrivals[i].slot != arrivals[|arrivals| - 1].slot;
    }
  }

  lemma {:induction false} RunKeepsInv(start: nat, arrivals: seq<Arrival>)
    requires Distinct(arrivals)
    ensures Inv(start, Arrived(arrivals), Run(start, arrivals))
  {
    if arrivals != [] {
      var rest := arrivals[..|arrivals| - 1];
      RunKeepsInv(start, rest);
      LastIsNew(arrivals);
      ArrivedSlots(rest);
      AfterKeeps(start, Arrived(rest), Run(start, rest), arrivals[|arrivals| - 1]);
    }
  }

  /** In every run exactly the blocks of the taken slots are packed, with their own contents. */
  lemma PackedIsTaken(start: nat, arrivals: seq<Arrival>, i: nat, b: ConfirmedBlock)
    requires Distinct(arrivals) && i < |arrivals|
    ensures var log, a := Run(start, arrivals), arrivals[i];
            (b, a.slot) in log.packed <==> a.slot in log.taken && a.block == Some(b)
  {
    RunKeepsInv(start, arrivals);
    ArrivedAt(arrivals, i);
  }

  /** In every arrival order the packed slots rise strictly: none is sent twice. */
  lemma PackedSlotsRise(start: nat, arrivals: seq<Arrival>)
    requires Distinct(arrivals)
    ensures Increasing(Run(start, arrivals).packed)
  {
    RunKeepsInv(start, arrivals);
  }

  /** A slot on which a drain stopped is never taken, however the run goes on. */
  lemma {:induction false} MissedStaysMissed(start: nat, arrivals: seq<Arrival>, n: nat, k: nat)
    requires Distinct(arrivals) && n <= |arrivals|
    requires k in Run(start, arrivals[..n]).missed
    ensures k in Run(start, arrivals).missed && k !in Run(start, arrivals).taken
    ensures forall i :: 0 <= i < |Run(start, arrivals).packed| ==> Run(start, arrivals).packed[i].1 != k
  {
    RunKeepsInv(start, arrivals);
    forall i | 0 <= i < |Run(start, arrivals).packed|
      ensures Run(start, arrivals).packed[i].1 in Run(start, arrivals).taken
    {
      var (b, slot) := Run(start, arrivals).packed[i];
      assert (b, slot) in Run(start, arrivals).packed;
    }
    if n < |arrivals| {
      assert arrivals[..|arrivals| - 1][..n] == arrivals[..n];
      MissedStaysMissed(start, arrivals[..|arrivals| - 1], n, k);
    } else {
      assert arrivals[..n] == arrivals;
    }
  }

  /**
   When the slot after the missed one was already waiting, the queue waits for a slot that has
   already arrived: nothing is packed ever again.
   */
  lemma {:induction false} StuckForGood(start: nat, arrivals: seq<Arrival>, n: nat)
    requires Distinct(arrivals) && n <= |arrivals|
    requires Run(start, arrivals[..n]).q.sendingSlot in Slots(arrivals[..n])
    ensures Run(start, arrivals).packed == Run(start, arrivals[..n]).packed
    ensures Run(start, arrivals).q.sendingSlot == Run(start, arrivals[..n]).q.sendingSlot
  {
    if n < |arrivals| {
      var m := |arrivals| - 1;
      assert arrivals[..m][..n] == arrivals[..n];
      StuckForGood(start, arrivals[..m], n);
      var waitingFor := Run(start, arrivals[..n]).q.sendingSlot;
      var i :| 0 <= i < n && arrivals[..n][i].slot == waitingFor;
      assert arrivals[i].slot == waitingFor && arrivals[m].slot != waitingFor;
      assert Run(start, arrivals) == After(Run(start, arrivals[..m]), arrivals[m]);
    } else {
      assert arrivals[..n] == arrivals;
    }
  }

  /** Until the start slot arrives, nothing moves. */
  lemma {:induction false} NothingBeforeStart(start: nat, arrivals: seq<Arrival>)
    requires start !in Slots(arrivals)
    ensures Run(start, arrivals).q.sendingSlot == start && Run(start, arrivals).taken == {}
    ensures Run(start, arrivals).missed == {}
  {
    if arrivals != [] {
      SlotsSnoc(arrivals);
      NothingBeforeStart(start, arrivals[..|arrivals| - 1]);
    }
  }

  /** The drain that the start slot sets off stops at the first slot that has not arrived. */
  lemma FirstDrain(start: nat, before: seq<Arrival>, a: Arrival) returns (gap: nat)
    requires Distinct(before) && a.slot == start && start !in Slots(before)
    ensures start < gap && gap !in Slots(before)
    ensures forall k :: start < k < gap ==> k in Slots(before)
    ensures After(Run(start, before), a).missed == {gap}
    ensures forall k :: k in After(Run(start, before), a).taken <==> start <= k < gap
  {
    NothingBeforeStart(start, before);
    RunKeepsInv(start, before);
    ArrivedSlots(before);
    gap := DrainEffect(Run(start, before), a);
  }

  /** Every block that arrived is packed. */
  ghost predicate AllPacked(arrivals: seq<Arrival>, packed: Packed) {
    forall i :: 0 <= i < |arrivals| && arrivals[i].block.Some? ==> (arrivals[i].block.value, arrivals[i].slot) in packed
  }

  /**
   For every order in which the slots start .. start + n - 1 arrive, all of them are taken exactly
   when the start slot is the last to arrive. Then every block is packed; and when no slot is
   empty, every block is packed only then. (The reorder buffer releases all of them in every order.)
   */
  lemma CompleteIffStartArrivesLast(start: nat, arrivals: seq<Arrival>)
    requires arrivals != [] && Distinct(arrivals)
    requires forall k :: k in Slots(arrivals) <==> start <= k < start + |arrivals|
    ensures Run(start, arrivals).taken == Slots(arrivals) <==> arrivals[|arrivals| - 1].slot == start
    ensures arrivals[|arrivals| - 1].slot == start ==> AllPacked(arrivals, Run(start, arrivals).packed)
    ensures (forall i :: 0 <= i < |arrivals| ==> arrivals[i].block.Some?) ==>
              (AllPacked(arrivals, Run(start, arrivals).packed) <==> arrivals[|arrivals| - 1].slot == start)
  {
    assert start in Slots(arrivals);
    var at :| 0 <= at < |arrivals| && arrivals[at].slot == start;
    if at == |arrivals| - 1 {
      StartLast(start, arrivals);
      AllTakenPacked(start, arrivals);
    } else {
      var k := StartEarlier(start, arrivals, at);
      assert arrivals[k].block.Some? ==> !AllPacked(arrivals, Run(start, arrivals).packed) by {
        if arrivals[k].block.Some? {
          PackedIsTaken(start, arrivals, k, arrivals[k].block.value);
        }
      }
    }
  }

  lemma AllTakenPacked(start: nat, arrivals: seq<Arrival>)
    requires Distinct(arrivals) && Run(start, arrivals).taken == Slots(arrivals)
    ensures AllPacked(arrivals, Run(start, arrivals).packed)
  {
    forall i | 0 <= i < |arrivals| && arrivals[i].block.Some?
      ensures (arrivals[i].block.value, arrivals[i].slot) in Run(start, arrivals).packed
    {
      PackedIsTaken(start, arrivals, i, arrivals[i].block.value);
      assert arrivals[i].slot in Slots(arrivals);
    }
  }

  lemma StartLast(start: nat, arrivals: seq<Arrival>)
    requires arrivals != [] && Distinct(arrivals) && arrivals[|arrivals| - 1].slot == start
    requires forall k :: k in Slots(arrivals) <==> start <= k < start + |arrivals|
    ensures Run(start, arrivals).taken == Slots(arrivals)
  {
    var before, last := arrivals[..|arrivals| - 1], arrivals[|arrivals| - 1];
    SlotsSnoc(arrivals);
    var gap := FirstDrain(start, before, last);
    assert gap > start + 1 ==> gap - 1 in Slots(before);
    assert gap == start + |arrivals|;
  }

  /** Otherwise some slot that arrives is never taken. */
  lemma StartEarlier(start: nat, arrivals: seq<Arrival>, at: nat) returns (k: nat)
    requires Distinct(arrivals) && at < |arrivals| - 1 && arrivals[at].slot == start
    requires forall k :: k in Slots(arrivals) <==> start <= k < start + |arrivals|
    ensures k < |arrivals| && arrivals[k].slot !in Run(start, arrivals).taken
    ensures Run(start, arrivals).taken != Slots(arrivals)
  {
    var before := arrivals[..at];
    var gap := FirstDrain(start, before, arrivals[at]);
    assert arrivals[..at + 1][..at] == before;
    var late := arrivals[|arrivals| - 1].slot;
    assert late !in Slots(before);
    assert late in Slots(arrivals);
    assert gap in Slots(arrivals);
    MissedStaysMissed(start, arrivals, at + 1, gap);
    k :| 0 <= k < |arrivals| && arrivals[k].slot == gap;
  }
}
