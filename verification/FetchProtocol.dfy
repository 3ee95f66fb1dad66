/**
 The fetch, reorder and fan-out protocol of the Solana reader: `ChainAdapter::start`
 (chain-reader/src/solana_chain_adapter.rs), the channel between the two threads
 (chain-reader/src/stream_service.rs) and `IndexerBroadcast::try_recv`
 (chain-reader/src/indexer_broadcast.rs), as a state machine over atomic steps.

 Fetches run concurrently with the polling loop and with the broadcaster, so
 the steps may interleave in any order. The node is the environment: it reports slots that never
 decrease, are at least `MARGIN` and fit a u64, and it answers each fetch with a block, with
 nothing, or not in time.
 */
module FetchProtocol {
  import opened Common
  import opened SolanaTypes
  import opened BlockBuffers

  const MARGIN: nat := 100
  const BATCH: nat := 10
  const PERMITS: nat := 2 * BATCH
  const CAPACITY: nat := 1024

  /** Where the polling loop is: between polls, or inside the loop that spawns `next..end`. */
  datatype Phase = Idle | Spawning(next: nat, end: nat)

  datatype Adapter = Adapter(
    nodeSlot: nat,
    firstNotification: bool,
    lastBlock: Option<nat>,
    phase: Phase,
    fetching: set<nat>,
    sending: map<nat, Option<ConfirmedBlock>>)

  /** What has happened so far; no step reads it. */
  datatype History = History(
    root: nat,
    started: bool,
    timedOut: set<nat>,
    fetched: map<nat, Option<ConfirmedBlock>>,
    released: seq<SlotBlock>)

  datatype State = State(adapter: Adapter, channel: seq<BlockInfo>, buffer: Buffer, history: History)

  datatype Step =
    | Poll(newSlot: nat)
    | Spawn
    | EndBatch
    | FetchDone(slot: nat, block: Option<ConfirmedBlock>)
    | FetchTimesOut(slot: nat)
    | Send(slot: nat)
    | Receive

  function Init(): State {
    State(Adapter(MARGIN, true, None, Idle, {}, map[]), [], Buffer(map[], 0), History(0, false, {}, map[], []))
  }

  predicate Enabled(s: State, step: Step) {
    var a := s.adapter;
    match step
    case Poll(newSlot) => a.phase.Idle? && MARGIN <= newSlot < TWO64 && a.nodeSlot <= newSlot
    case Spawn => a.phase.Spawning? && a.phase.next < a.phase.end && |a.fetching| < PERMITS
    case EndBatch => a.phase.Spawning? && a.phase.next == a.phase.end
    case FetchDone(slot, _) => slot in a.fetching
    case FetchTimesOut(slot) => slot in a.fetching
    case Send(slot) => slot in a.sending && |s.channel| < CAPACITY
    case Receive => s.channel != []
  }

  function PollStep(s: State, newSlot: nat): State
    requires Enabled(s, Poll(newSlot))
  {
    var currentRoot := newSlot - MARGIN;
    var a := s.adapter.(nodeSlot := newSlot);
    var s1 := if a.firstNotification
              then s.(channel := s.channel + [BlockSlot(currentRoot)], history := s.history.(root := currentRoot))
              else s;
    var a1 := a.(firstNotification := false);
    match a.lastBlock
    case None => s1.(adapter := a1.(lastBlock := Some(currentRoot)))
    case Some(last) =>
      // `currentRoot < last` would be a u64 underflow in the source; ArithmeticStaysInRange excludes it.
      if currentRoot <= last then s1.(adapter := a1)
      else
        var number := if currentRoot - last < BATCH then currentRoot - last else BATCH;
        s1.(adapter := a1.(phase := Spawning(last, last + number)))
  }

  function ReceiveStep(s: State): State
    requires Enabled(s, Receive)
  {
    var info := s.channel[0];
    var (buffer, released) := Handle(s.buffer, info);
    var history := s.history.(
      started := s.history.started || info.BlockSlot?,
      released := s.history.released + if released.Some? then released.value else []);
    s.(channel := s.channel[1..], buffer := buffer, history := history)
  }

  /**
   One step. The fetch as written calls the node without a point at which it could be interrupted, so
   the time-out around it does not fire; here it may fire on any fetch, as the code provides for.
   */
  function Next(s: State, step: Step): State
    requires Enabled(s, step)
  {
    var a := s.adapter;
    match step
    case Poll(newSlot) => PollStep(s, newSlot)
    case Spawn =>
      s.(adapter := a.(phase := Spawning(a.phase.next + 1, a.phase.end), fetching := a.fetching + {a.phase.next}))
    case EndBatch =>
      s.(adapter := a.(phase := Idle, lastBlock := Some(a.phase.end)))
    case FetchDone(slot, block) =>
      s.(adapter := a.(fetching := a.fetching - {slot}, sending := a.sending[slot := block]),
         history := s.history.(fetched := s.history.fetched[slot := block]))
    case FetchTimesOut(slot) =>
      s.(adapter := a.(fetching := a.fetching - {slot}),
         history := s.history.(timedOut := s.history.timedOut + {slot}))
    case Send(slot) =>
      s.(adapter := a.(sending := a.sending - {slot}),
         channel := s.channel + [ConfirmBlockWithSlot(SlotBlock(slot, a.sending[slot]))])
    case Receive => ReceiveStep(s)
  }

  /** `trace` starts in the initial state and moves by the enabled step of `steps` each time. */
  ghost predicate IsRun(trace: seq<State>, steps: seq<Step>) {
    && |trace| == |steps| + 1
    && trace[0] == Init()
    && forall i :: 0 <= i < |steps| ==>
         Enabled(trace[i], steps[i]) && trace[i + 1] == Next(trace[i], steps[i])
  }

  // ---------- The invariant ----------

  /** The first slot that no fetch has been spawned for. */
  function Requested(s: State): nat {
    if s.adapter.phase.Spawning? then s.adapter.phase.next
    else if s.adapter.lastBlock.Some? then s.adapter.lastBlock.value else 0
  }

  function InChannel(channel: seq<BlockInfo>): set<nat> {
    set i | 0 <= i < |channel| && channel[i].ConfirmBlockWithSlot? :: channel[i].block.slot
  }

  /** The polling loop never runs ahead of the finalized root, and its arithmetic fits a u64. */
  ghost predicate Control(s: State) {
    var a := s.adapter;
    && MARGIN <= a.nodeSlot < TWO64
    && |a.fetching| <= PERMITS
    && (a.firstNotification <==> a.lastBlock.None?)
    && (a.lastBlock.None? ==>
          a.phase.Idle? && a.fetching == {} && a.sending == map[] && s.channel == [] &&
          s.history.timedOut == {} && s.history.fetched == map[] && !s.history.started)
    && (a.lastBlock.Some? ==> s.history.root <= a.lastBlock.value <= a.nodeSlot - MARGIN)
    && (a.phase.Spawning? ==>
          a.lastBlock.Some? && a.lastBlock.value <= a.phase.next <= a.phase.end <= a.nodeSlot - MARGIN)
  }

  /** The start slot is the first message, and it is still in the channel until the buffer has it. */
  ghost predicate Channel(ch: seq<BlockInfo>, waiting: bool, root: nat) {
    && |ch| <= CAPACITY
    && (waiting ==> ch != [])
    && (forall i :: 0 <= i < |ch| ==> (ch[i].BlockSlot? <==> i == 0 && waiting))
    && (waiting ==> ch[0] == BlockSlot(root))
    && (forall i, j :: 0 <= i < j < |ch| && ch[i].ConfirmBlockWithSlot? && ch[j].ConfirmBlockWithSlot? ==>
          ch[i].block.slot != ch[j].block.slot)
  }

  /** The slot below which everything requested has been released. */
  function Frontier(s: State): nat {
    if s.history.started then s.buffer.expected else s.history.root
  }

  /** The slots of [lo, hi) are split among five places. */
  ghost predicate Places(fetching: set<nat>, sending: set<nat>, ch: set<nat>, queue: set<nat>, timedOut: set<nat>,
                         lo: nat, hi: nat) {
    && (forall k :: k in fetching ==> lo <= k < hi && k !in sending && k !in ch && k !in queue && k !in timedOut)
    && (forall k :: k in sending ==> lo <= k < hi && k !in ch && k !in queue && k !in timedOut)
    && (forall k :: k in ch ==> lo <= k < hi && k !in queue && k !in timedOut)
    && (forall k :: k in queue ==> lo <= k < hi && k !in timedOut)
    && (forall k :: k in timedOut ==> lo <= k < hi)
    && (forall k :: lo <= k < hi ==> k in fetching || k in sending || k in ch || k in queue || k in timedOut)
  }

  ghost predicate Partition(s: State) {
    && s.history.root <= Frontier(s) <= Requested(s)
    && (!s.history.started ==> s.buffer == Buffer(map[], 0))
    && Places(s.adapter.fetching, s.adapter.sending.Keys, InChannel(s.channel), s.buffer.queue.Keys, s.history.timedOut,
              Frontier(s), Requested(s))
    && Frontier(s) !in s.buffer.queue
  }

  // Every copy of a slot carries what its fetch returned.

  ghost predicate SendingHolds(sending: map<nat, Option<ConfirmedBlock>>, f: map<nat, Option<ConfirmedBlock>>) {
    forall k :: k in sending ==> k in f && sending[k] == f[k]
  }

  ghost predicate ChannelHolds(ch: seq<BlockInfo>, f: map<nat, Option<ConfirmedBlock>>) {
    forall i :: 0 <= i < |ch| && ch[i].ConfirmBlockWithSlot? ==>
      ch[i].block.slot in f && ch[i].block.block == f[ch[i].block.slot]
  }

  ghost predicate QueueHolds(queue: map<nat, SlotBlock>, f: map<nat, Option<ConfirmedBlock>>) {
    forall k :: k in queue ==> k in f && queue[k] == SlotBlock(k, f[k])
  }

  ghost predicate FetchedOnce(f: map<nat, Option<ConfirmedBlock>>, fetching: set<nat>, timedOut: set<nat>, hi: nat) {
    forall k :: k in f ==> k < hi && k !in fetching && k !in timedOut
  }

  /** The released blocks are those of root, root + 1, ... with the fetched contents. */
  ghost predicate InOrder(released: seq<SlotBlock>, root: nat, f: map<nat, Option<ConfirmedBlock>>) {
    forall i :: 0 <= i < |released| ==>
      released[i].slot == root + i && released[i].slot in f && released[i].block == f[released[i].slot]
  }

  ghost predicate Payloads(s: State) {
    var f := s.history.fetched;
    && SendingHolds(s.adapter.sending, f)
    && ChannelHolds(s.channel, f)
    && QueueHolds(s.buffer.queue, f)
    && FetchedOnce(f, s.adapter.fetching, s.history.timedOut, Requested(s))
    && InOrder(s.history.released, s.history.root, f)
    && |s.history.released| == Frontier(s) - s.history.root
  }

  ghost predicate Inv(s: State) {
    && Control(s)
    && Channel(s.channel, s.adapter.lastBlock.Some? && !s.history.started, s.history.root)
    && Partition(s)
    && Payloads(s)
  }

  lemma PollKeeps(s: State, newSlot: nat)
    requires Inv(s) && Enabled(s, Poll(newSlot))
    ensures Inv(Next(s, Poll(newSlot)))
  {
    if s.adapter.firstNotification {
      FirstPollKeeps(s, newSlot);
    } else {
      LaterPollKeeps(s, newSlot);
    }
  }

  lemma FirstPollKeeps(s: State, newSlot: nat)
    requires Inv(s) && Enabled(s, Poll(newSlot)) && s.adapter.firstNotification
    ensures Inv(Next(s, Poll(newSlot)))
  {
    var s' := Next(s, Poll(newSlot));
    assert s'.channel == [BlockSlot(s'.history.root)];
    assert InChannel(s'.channel) == {};
  }

  lemma LaterPollKeeps(s: State, newSlot: nat)
    requires Inv(s) && Enabled(s, Poll(newSlot)) && !s.adapter.firstNotification
    ensures Inv(Next(s, Poll(newSlot)))
  {
    var s' := Next(s, Poll(newSlot));
    assert s'.channel == s.channel && s'.history == s.history && s'.buffer == s.buffer;
    assert Requested(s') == Requested(s);
  }

  lemma SpawnKeeps(s: State)
    requires Inv(s) && Enabled(s, Spawn)
    ensures Inv(Next(s, Spawn))
  {
  }

  lemma FetchDoneKeeps(s: State, slot: nat, block: Option<ConfirmedBlock>)
    requires Inv(s) && Enabled(s, FetchDone(slot, block))
    ensures Inv(Next(s, FetchDone(slot, block)))
  {
    FetchDonePartition(s, slot, block);
    FetchedGrows(s, slot, block);
  }

  lemma FetchDonePartition(s: State, slot: nat, block: Option<ConfirmedBlock>)
    requires Partition(s) && Enabled(s, FetchDone(slot, block))
    ensures Partition(Next(s, FetchDone(slot, block)))
  {
    var s' := Next(s, FetchDone(slot, block));
    assert s'.adapter.sending.Keys == s.adapter.sending.Keys + {slot};
  }

  lemma FetchedGrows(s: State, slot: nat, block: Option<ConfirmedBlock>)
    requires Payloads(s) && slot !in s.history.fetched
    ensures var f := s.history.fetched[slot := block];
            && SendingHolds(s.adapter.sending[slot := block], f)
            && ChannelHolds(s.channel, f)
            && QueueHolds(s.buffer.queue, f)
            && InOrder(s.history.released, s.history.root, f)
  {
  }

  lemma FetchTimesOutKeeps(s: State, slot: nat)
    requires Inv(s) && Enabled(s, FetchTimesOut(slot))
    ensures Inv(Next(s, FetchTimesOut(slot)))
  {
    var s', a := Next(s, FetchTimesOut(slot)), s.adapter;
    TimeOutPlaces(a.fetching, a.sending.Keys, InChannel(s.channel), s.buffer.queue.Keys, s.history.timedOut,
                  Frontier(s), Requested(s), slot);
    assert Partition(s');
    assert slot !in s.history.fetched;
  }

  lemma TimeOutPlaces(fetching: set<nat>, sending: set<nat>, ch: set<nat>, queue: set<nat>, timedOut: set<nat>,
                      lo: nat, hi: nat, slot: nat)
    requires Places(fetching, sending, ch, queue, timedOut, lo, hi) && slot in fetching
    ensures Places(fetching - {slot}, sending, ch, queue, timedOut + {slot}, lo, hi)
    ensures |fetching - {slot}| < |fetching|
  {
  }

  lemma InChannelSnoc(ch: seq<BlockInfo>, b: SlotBlock)
    ensures InChannel(ch + [ConfirmBlockWithSlot(b)]) == InChannel(ch) + {b.slot}
  {
    var ch' := ch + [ConfirmBlockWithSlot(b)];
    assert ch'[|ch|].block.slot in InChannel(ch');
    forall k | k in InChannel(ch) ensures k in InChannel(ch') {
      var i :| 0 <= i < |ch| && ch[i].ConfirmBlockWithSlot? && ch[i].block.slot == k;
      assert ch'[i].block.slot in InChannel(ch');
    }
  }

  lemma SendKeeps(s: State, slot: nat)
    requires Inv(s) && Enabled(s, Send(slot))
    ensures Inv(Next(s, Send(slot)))
  {
    var s', a := Next(s, Send(slot)), s.adapter;
    InChannelSnoc(s.channel, SlotBlock(slot, a.sending[slot]));
    forall i | 0 <= i < |s.channel| && s.channel[i].ConfirmBlockWithSlot? ensures s.channel[i].block.slot != slot {
      assert s.channel[i].block.slot in InChannel(s.channel);
    }
    SendPlaces(a.fetching, a.sending.Keys, InChannel(s.channel), s.buffer.queue.Keys, s.history.timedOut, Frontier(s),
               Requested(s), slot);
    assert s'.adapter.sending.Keys == a.sending.Keys - {slot};
    assert Partition(s');
  }

  lemma SendPlaces(fetching: set<nat>, sending: set<nat>, ch: set<nat>, queue: set<nat>, timedOut: set<nat>, lo: nat,
                   hi: nat, slot: nat)
    requires Places(fetching, sending, ch, queue, timedOut, lo, hi) && slot in sending
    ensures Places(fetching, sending - {slot}, ch + {slot}, queue, timedOut, lo, hi)
  {
  }

  lemma InChannelTail(ch: seq<BlockInfo>)
    requires ch != []
    requires forall i, j :: 0 <= i < j < |ch| && ch[i].ConfirmBlockWithSlot? && ch[j].ConfirmBlockWithSlot? ==>
               ch[i].block.slot != ch[j].block.slot
    ensures InChannel(ch[1..]) == InChannel(ch) - if ch[0].ConfirmBlockWithSlot? then {ch[0].block.slot} else {}
    ensures ch[0].ConfirmBlockWithSlot? ==> ch[0].block.slot in InChannel(ch)
  {
    var tail := ch[1..];
    forall k | k in InChannel(tail) ensures k in InChannel(ch) {
      var i :| 0 <= i < |tail| && tail[i].ConfirmBlockWithSlot? && tail[i].block.slot == k;
      assert ch[i + 1].block.slot in InChannel(ch);
    }
    forall k | k in InChannel(ch) && !(ch[0].ConfirmBlockWithSlot? && ch[0].block.slot == k)
           ensures k in InChannel(tail) {
      var i :| 0 <= i < |ch| && ch[i].ConfirmBlockWithSlot? && ch[i].block.slot == k;
      assert tail[i - 1].block.slot in InChannel(tail);
    }
  }

  /** The start slot arrives: nothing is queued or released yet. */
  lemma ReceiveStartKeeps(s: State)
    requires Inv(s) && Enabled(s, Receive) && s.channel[0].BlockSlot?
    ensures Inv(Next(s, Receive))
  {
    InChannelTail(s.channel);
  }

  /** A block that is not the expected one waits in the queue. */
  lemma ReceiveQueuedKeeps(s: State)
    requires Inv(s) && Enabled(s, Receive)
    requires s.channel[0].ConfirmBlockWithSlot? && s.channel[0].block.slot != s.buffer.expected
    ensures Inv(Next(s, Receive))
  {
    InChannelTail(s.channel);
    var s' := Next(s, Receive);
    assert s'.buffer.queue.Keys == s.buffer.queue.Keys + {s.channel[0].block.slot};
  }

  /** The expected block arrives: it is released with the run of queued slots behind it. */
  lemma ReceiveExpectedKeeps(s: State)
    requires Inv(s) && Enabled(s, Receive)
    requires s.channel[0].ConfirmBlockWithSlot? && s.channel[0].block.slot == s.buffer.expected
    ensures Inv(Next(s, Receive))
  {
    DrainPartition(s);
    DrainedInOrder(s, FirstAbsent(s.buffer.queue, s.buffer.expected + 1));
  }

  lemma DrainPartition(s: State)
    requires Channel(s.channel, s.adapter.lastBlock.Some? && !s.history.started, s.history.root)
    requires Partition(s) && Enabled(s, Receive) && s.history.started
    requires s.channel[0].ConfirmBlockWithSlot? && s.channel[0].block.slot == s.buffer.expected
    ensures Partition(Next(s, Receive))
  {
    InChannelTail(s.channel);
    var s', e := Next(s, Receive), s.buffer.expected;
    var end := FirstAbsent(s.buffer.queue, e + 1);
    var queue := set k | k in s.buffer.queue && !(e < k < end);
    assert s'.buffer.queue.Keys == queue;
    assert end <= Requested(s) by {
      assert end > e + 1 ==> end - 1 in s.buffer.queue;
    }
    DrainPlaces(s.adapter.fetching, s.adapter.sending.Keys, InChannel(s.channel), InChannel(s'.channel),
                s.buffer.queue.Keys, queue,
                s.history.timedOut, e, end, Requested(s));
  }

  lemma DrainPlaces(fetching: set<nat>, sending: set<nat>, ch: set<nat>, ch': set<nat>, queue: set<nat>,
                    queue': set<nat>,
                    timedOut: set<nat>, e: nat, end: nat, hi: nat)
    requires Places(fetching, sending, ch, queue, timedOut, e, hi) && e < end <= hi
    requires e in ch && ch' == ch - {e} && e !in queue
    requires (forall k :: e < k < end ==> k in queue) && queue' == set k | k in queue && !(e < k < end)
    ensures Places(fetching, sending, ch', queue', timedOut, end, hi)
  {
  }

  lemma DrainedInOrder(s: State, end: nat)
    requires Inv(s) && Enabled(s, Receive) && s.channel[0].ConfirmBlockWithSlot?
    requires s.history.started && s.channel[0].block.slot == s.buffer.expected < end
    requires forall k :: s.buffer.expected < k < end ==> k in s.buffer.queue
    ensures var out := s.history.released + ([s.channel[0].block] + Queued(s.buffer.queue, s.buffer.expected + 1, end));
            InOrder(out, s.history.root, s.history.fetched) && |out| == end - s.history.root
  {
    var e := s.buffer.expected;
    var out := [s.channel[0].block] + Queued(s.buffer.queue, e + 1, end);
    forall i | 0 <= i < |out|
      ensures out[i].slot == e + i && out[i].slot in s.history.fetched && out[i].block == s.history.fetched[out[i].slot]
    {
      if i > 0 {
        assert out[i] == s.buffer.queue[e + i];
      }
    }
  }

  lemma NextKeeps(s: State, step: Step)
    requires Inv(s) && Enabled(s, step)
    ensures Inv(Next(s, step))
  {
    match step
    case Poll(newSlot) => PollKeeps(s, newSlot);
    case Spawn => SpawnKeeps(s);
    case EndBatch =>
    case FetchDone(slot, block) => FetchDoneKeeps(s, slot, block);
    case FetchTimesOut(slot) => FetchTimesOutKeeps(s, slot);
    case Send(slot) => SendKeeps(s, slot);
    case Receive =>
      if s.channel[0].BlockSlot? {
        ReceiveStartKeeps(s);
      } else if s.channel[0].block.slot != s.buffer.expected {
        ReceiveQueuedKeeps(s);
      } else {
        ReceiveExpectedKeeps(s);
      }
  }

  // ---------- What holds in every run ----------

  lemma {:induction false} RunInvariant(trace: seq<State>, steps: seq<Step>, i: nat)
    requires IsRun(trace, steps) && i < |trace|
    ensures Inv(trace[i])
  {
    if i > 0 {
      RunInvariant(trace, steps, i - 1);
      NextKeeps(trace[i - 1], steps[i - 1]);
    }
  }

  /** In every interleaving the released blocks are root, root + 1, ..., each once, as fetched. */
  lemma ReleasedInSlotOrder(trace: seq<State>, steps: seq<Step>, i: nat)
    requires IsRun(trace, steps) && i < |trace|
    ensures var h := trace[i].history;
            && |h.released| == Frontier(trace[i]) - h.root
            && (forall n :: 0 <= n < |h.released| ==>
                  h.released[n].slot == h.root + n && h.released[n].slot in h.fetched &&
                  h.released[n].block == h.fetched[h.released[n].slot])
  {
    RunInvariant(trace, steps, i);
  }

  function One(b: bool): nat {
    if b then 1 else 0
  }

  ghost function PlacesOf(s: State, k: nat): nat {
    One(exists n :: 0 <= n < |s.history.released| && s.history.released[n].slot == k) +
    One(k in s.buffer.queue) + One(k in InChannel(s.channel)) + One(k in s.adapter.sending) +
    One(k in s.adapter.fetching) + One(k in s.history.timedOut)
  }

  /**
   Every slot a fetch was spawned for is released, queued, in the channel, being sent, being fetched
   or timed out, and only one of these; no other slot is anywhere.
   */
  lemma ExactlyOnePlace(trace: seq<State>, steps: seq<Step>, i: nat, k: nat)
    requires IsRun(trace, steps) && i < |trace|
    ensures PlacesOf(trace[i], k) == One(trace[i].history.root <= k < Requested(trace[i]))
  {
    RunInvariant(trace, steps, i);
    var s := trace[i];
    if s.history.root <= k < Frontier(s) {
      assert s.history.released[k - s.history.root].slot == k;
    }
  }

  /** No fetch runs, nothing waits to be sent or received, and the start slot has been reported. */
  predicate Quiet(s: State) {
    s.adapter.fetching == {} && s.adapter.sending == map[] && s.channel == [] && s.adapter.lastBlock.Some?
  }

  /**
   Once everything in flight has arrived, release has reached the first slot that timed out, or
   everything requested if none did; what is queued is exactly the rest.
   */
  lemma QuietFrontier(trace: seq<State>, steps: seq<Step>, i: nat)
    requires IsRun(trace, steps) && i < |trace| && Quiet(trace[i])
    ensures var s := trace[i];
            && s.history.started
            && (s.history.timedOut == {} ==> s.buffer == Buffer(map[], Requested(s)))
            && (s.history.timedOut != {} ==>
                  s.buffer.expected in s.history.timedOut && forall t :: t in s.history.timedOut ==>
                      s.buffer.expected <= t)
            && (forall k :: k in s.buffer.queue <==> s.buffer.expected < k < Requested(s) && k !in s.history.timedOut)
  {
    RunInvariant(trace, steps, i);
    var s := trace[i];
    assert InChannel(s.channel) == {};
    if s.history.timedOut == {} {
      assert s.buffer.expected == Requested(s);
      assert s.buffer.queue == map[];
    }
  }

  /** A slot that timed out is never released, and release never gets past it. */
  lemma TimeoutStallsForGood(trace: seq<State>, steps: seq<Step>, i: nat, j: nat, k: nat)
    requires IsRun(trace, steps) && i <= j < |trace| && k in trace[i].history.timedOut
    ensures k in trace[j].history.timedOut && Frontier(trace[j]) <= k
    ensures forall n :: 0 <= n < |trace[j].history.released| ==> trace[j].history.released[n].slot != k
  {
    TimedOutStays(trace, steps, i, j, k);
    RunInvariant(trace, steps, j);
  }

  lemma {:induction false} TimedOutStays(trace: seq<State>, steps: seq<Step>, i: nat, j: nat, k: nat)
    requires IsRun(trace, steps) && i <= j < |trace| && k in trace[i].history.timedOut
    ensures k in trace[j].history.timedOut
  {
    if i < j {
      TimedOutStays(trace, steps, i, j - 1, k);
      TimedOutStep(trace[j - 1], steps[j - 1]);
    }
  }

  lemma TimedOutStep(s: State, step: Step)
    requires Enabled(s, step)
    ensures s.history.timedOut <= Next(s, step).history.timedOut
  {
  }

  /** The u64 subtractions and additions of the polling loop and of the buffer stay in range. */
  lemma ArithmeticStaysInRange(trace: seq<State>, steps: seq<Step>, i: nat)
    requires IsRun(trace, steps) && i < |trace|
    ensures var a := trace[i].adapter;
            && (forall newSlot: nat :: Enabled(trace[i], Poll(newSlot)) && a.lastBlock.Some? ==>
                  a.lastBlock.value <= newSlot - MARGIN && a.lastBlock.value + BATCH < TWO64)
            && trace[i].buffer.expected + 1 < TWO64
            && |a.fetching| <= PERMITS
  {
    RunInvariant(trace, steps, i);
  }

  /** A continuation of a run from `s` to `t`. */
  ghost predicate Leads(s: State, steps: seq<Step>, t: State)
    decreases |steps|
  {
    if steps == [] then s == t
    else Enabled(s, steps[0]) && Leads(Next(s, steps[0]), steps[1..], t)
  }

  /** The steps that move on what is in flight, as opposed to those that request more. */
  predicate InFlight(step: Step) {
    step.FetchDone? || step.FetchTimesOut? || step.Send? || step.Receive?
  }

  function Remaining(s: State): nat {
    3 * |s.adapter.fetching| + 2 * |s.adapter.sending| + |s.channel|
  }

  lemma InFlightStep(s: State, step: Step)
    requires Enabled(s, step) && InFlight(step)
    ensures Remaining(Next(s, step)) < Remaining(s)
    ensures Next(s, step).adapter.lastBlock == s.adapter.lastBlock
  {
    var a, a' := s.adapter, Next(s, step).adapter;
    match step
    case FetchDone(slot, block) =>
      assert a'.sending.Keys == a.sending.Keys + {slot};
      assert |a'.sending.Keys| <= |a.sending.Keys| + 1;
    case FetchTimesOut(slot) =>
    case Send(slot) =>
      assert a.sending.Keys == a'.sending.Keys + {slot};
    case Receive =>
  }

  /** Where no step in flight is possible, everything has arrived. */
  lemma StuckIsQuiet(s: State)
    requires s.adapter.lastBlock.Some?
    ensures (forall step :: InFlight(step) ==> !Enabled(s, step)) <==> Quiet(s)
  {
    if forall step :: InFlight(step) ==> !Enabled(s, step) {
      assert !Enabled(s, Receive);
      if slot :| slot in s.adapter.sending {
        assert Enabled(s, Send(slot));
      }
      if slot :| slot in s.adapter.fetching {
        assert Enabled(s, FetchDone(slot, None));
      }
    }
  }

  /**
   However the steps in flight are ordered and whichever fetches time out, there are at most
   `Remaining` of them, and where they end everything has arrived.
   */
  lemma {:induction false} AlwaysBecomesQuiet(s: State, steps: seq<Step>, t: State)
    requires s.adapter.lastBlock.Some? && Leads(s, steps, t)
    requires forall i :: 0 <= i < |steps| ==> InFlight(steps[i])
    ensures |steps| + Remaining(t) <= Remaining(s)
    ensures (forall step :: InFlight(step) ==> !Enabled(t, step)) <==> Quiet(t)
    decreases |steps|
  {
    if steps == [] {
      StuckIsQuiet(t);
    } else {
      InFlightStep(s, steps[0]);
      AlwaysBecomesQuiet(Next(s, steps[0]), steps[1..], t);
    }
  }

  /**
   From every reachable state the fetches in flight can all finish, whatever the order so far: no
   state is stuck, and no new timeout is needed to get to a quiet one.
   */
  lemma {:induction false} CanBecomeQuiet(s: State) returns (steps: seq<Step>, t: State)
    requires Inv(s) && s.adapter.lastBlock.Some?
    ensures Leads(s, steps, t) && Inv(t) && Quiet(t)
    ensures t.history.timedOut == s.history.timedOut && Requested(t) == Requested(s)
    decreases Remaining(s)
  {
    if Quiet(s) {
      return [], s;
    }
    var step;
    if s.channel != [] {
      step := Receive;
    } else if s.adapter.sending != map[] {
      var slot :| slot in s.adapter.sending;
      step := Send(slot);
    } else {
      var slot :| slot in s.adapter.fetching;
      step := FetchDone(slot, None);
    }
    NextKeeps(s, step);
    InFlightStep(s, step);
    var rest;
    rest, t := CanBecomeQuiet(Next(s, step));
    steps := [step] + rest;
    assert steps[1..] == rest;
  }
}
