/**
 Messages on their way to the indexers: each indexer has its own bounded channel, and the
 broadcaster waits until it can put a message on it (`broadcast_blocks` in
 chain-reader/src/indexer_broadcast.rs, the channels in chain-reader/src/stream_service.rs). While it
 waits it holds its locks: it receives nothing and nobody can register.

 This refines `Pipeline`, where a release reaches all inboxes at once.
 */
module Delivery {
  import opened Common
  import opened SolanaTypes
  import opened BlockBuffers
  import opened Broadcast
  import opened FetchProtocol
  import opened Pipeline

  /** `inbox` of the pipe counts messages as soon as they are meant for an indexer. */
  datatype Flow = Flow(pipe: Pipe, pending: seq<Message>, queued: map<nat, nat>, read: map<nat, nat>)

  datatype FlowEvent = Outer(event: Event) | Deliver | Read(sender: nat)

  function AtStart(): Flow {
    Flow(Start(), [], map[], map[])
  }

  function At(m: map<nat, nat>, k: nat): nat {
    if k in m then m[k] else 0
  }

  /** The broadcaster waits for room on the channel of an indexer that still listens. */
  predicate Blocked(f: Flow) {
    f.pending != [] && f.pending[0].sender !in f.pipe.closed && At(f.queued, f.pending[0].sender) >= CAPACITY
  }

  ghost predicate Can(f: Flow, e: FlowEvent) {
    match e
    case Outer(event) => CanHappen(f.pipe, event) && (Exclusive(event) ==> f.pending == [])
    case Deliver => f.pending != [] && !Blocked(f)
    case Read(sender) => sender in f.pipe.inbox && sender !in f.pipe.closed && At(f.queued, sender) > 0
  }

  /** Receiving and registering need the broadcaster's locks. */
  predicate Exclusive(event: Event) {
    match event
    case Net(step) => step.Receive?
    case Register(_) => true
    case Close(_) => false
  }

  /** What an event puts up for delivery. */
  function Released(f: Flow, event: Event): seq<Message>
    requires event.Net? ==> Enabled(f.pipe.net, event.step)
  {
    if event.Net? && event.step.Receive? && Batch(f.pipe.net).Some? then
      var live := Live(f.pipe.indexers, f.pipe.closed);
      Messages(live, Batch(f.pipe.net).value, |live|)
    else []
  }

  function Move(f: Flow, e: FlowEvent): Flow
    requires e.Outer? && e.event.Net? ==> Enabled(f.pipe.net, e.event.step)
    requires e.Deliver? ==> f.pending != []
  {
    match e
    case Outer(event) => f.(pipe := After(f.pipe, event), pending := f.pending + Released(f, event))
    case Deliver =>
      var to := f.pending[0].sender;
      f.(pending := f.pending[1..], queued := if to in f.pipe.closed then f.queued
         else f.queued[to := At(f.queued, to) + 1])
    case Read(sender) =>
      f.(queued := f.queued[sender := if At(f.queued, sender) > 0 then At(f.queued, sender) - 1 else 0],
         read := f.read[sender := At(f.read, sender) + 1])
  }

  ghost predicate IsFlowRun(trace: seq<Flow>, events: seq<FlowEvent>) {
    && |trace| == |events| + 1
    && trace[0] == AtStart()
    && forall i :: 0 <= i < |events| ==> Can(trace[i], events[i]) && trace[i + 1] == Move(trace[i], events[i])
  }

  // ---------- Every message is read, on its channel or still pending ----------

  function Owed(ms: seq<Message>, sender: nat): nat {
    if ms == [] then 0 else (if ms[0].sender == sender then 1 else 0) + Owed(ms[1..], sender)
  }

  lemma {:induction false} OwedAppend(a: seq<Message>, b: seq<Message>, sender: nat)
    ensures Owed(a + b, sender) == Owed(a, sender) + Owed(b, sender)
  {
    if a == [] {
      assert a + b == b;
    } else {
      OwedAppend(a[1..], b, sender);
      assert (a + b)[1..] == a[1..] + b;
    }
  }

  lemma {:induction false} OwedIsReceived(ms: seq<Message>, sender: nat)
    ensures |Received(ms, sender)| == Owed(ms, sender)
  {
    if ms != [] {
      var rest, last := ms[..|ms| - 1], ms[|ms| - 1];
      OwedIsReceived(rest, sender);
      OwedAppend(rest, [last], sender);
      assert ms == rest + [last];
      assert [last][1..] == [];
    }
  }

  ghost predicate Accounted(f: Flow, sender: nat) {
    && At(f.queued, sender) <= CAPACITY
    && (if sender in f.pipe.inbox
        then |f.pipe.inbox[sender]| == At(f.read, sender) + At(f.queued, sender) + Owed(f.pending, sender)
        else At(f.read, sender) == 0 && At(f.queued, sender) == 0 && Owed(f.pending, sender) == 0)
  }

  ghost predicate FlowInv(f: Flow) {
    PipeInv(f.pipe) && forall sender :: sender !in f.pipe.closed ==> Accounted(f, sender)
  }

  lemma {:induction false} MessageSenders(ixs: seq<IndexerInfo>, blocks: seq<SlotBlock>, n: nat, sender: nat)
    requires n <= |ixs| && Owed(Messages(ixs, blocks, n), sender) > 0
    ensures exists i :: 0 <= i < n && ixs[i].sender == sender
  {
    if n > 0 {
      var rest, got := Messages(ixs, blocks, n - 1), Collected(ixs, ixs[n - 1].hash, blocks);
      var more := if FirstWithHash(ixs, n - 1) then Post(ixs[n - 1].sender, got) else [];
      OwedAppend(rest, more, sender);
      if Owed(rest, sender) > 0 {
        MessageSenders(ixs, blocks, n - 1, sender);
      } else {
        assert more != [] && more[0].sender == ixs[n - 1].sender && more[1..] == [];
      }
    }
  }

  /** The messages of a release are for indexers that have an inbox. */
  lemma ReleasedHasInbox(f: Flow, sender: nat)
    requires PipeInv(f.pipe) && Enabled(f.pipe.net, Receive) && Batch(f.pipe.net).Some?
    requires Owed(Released(f, Net(Receive)), sender) > 0
    ensures sender in f.pipe.inbox
  {
    var live := Live(f.pipe.indexers, f.pipe.closed);
    MessageSenders(live, Batch(f.pipe.net).value, |live|, sender);
    var i :| 0 <= i < |live| && live[i].sender == sender;
    LiveSenders(f.pipe.indexers, f.pipe.closed);
    var k :| 0 <= k < |f.pipe.indexers| && f.pipe.indexers[k] == live[i];
    assert Pipeline.Joined(f.pipe, f.pipe.indexers[k]);
  }

  lemma ReceiveAccounts(f: Flow, sender: nat)
    requires FlowInv(f) && Can(f, Outer(Net(Receive))) && Batch(f.pipe.net).Some? && sender !in f.pipe.closed
    ensures Accounted(Move(f, Outer(Net(Receive))), sender)
  {
    var f', sent := Move(f, Outer(Net(Receive))), Released(f, Net(Receive));
    assert Accounted(f, sender);
    assert f'.pending == [] + sent && [] + sent == sent;
    OwedIsReceived(sent, sender);
    if sender in f.pipe.inbox {
      BroadcastEffect(f.pipe, Live(f.pipe.indexers, f.pipe.closed), sender);
    } else if Owed(sent, sender) > 0 {
      ReleasedHasInbox(f, sender);
    }
  }

  lemma MoveKeeps(f: Flow, e: FlowEvent)
    requires FlowInv(f) && Can(f, e)
    ensures FlowInv(Move(f, e))
  {
    var f' := Move(f, e);
    match e
    case Outer(event) =>
      AfterKeeps(f.pipe, event);
      forall sender | sender !in f'.pipe.closed ensures Accounted(f', sender) {
        assert Accounted(f, sender);
        if event == Net(Receive) && Batch(f.pipe.net).Some? {
          ReceiveAccounts(f, sender);
        } else {
          assert f'.pending == f.pending + [] && f.pending + [] == f.pending;
        }
      }
    case Deliver => DeliverKeeps(f);
    case Read(s) =>
      forall sender | sender !in f'.pipe.closed ensures Accounted(f', sender) {
        assert Accounted(f, sender);
      }
  }

  lemma DeliverKeeps(f: Flow)
    requires FlowInv(f) && Can(f, Deliver)
    ensures FlowInv(Move(f, Deliver))
  {
    var f' := Move(f, Deliver);
    forall sender | sender !in f'.pipe.closed ensures Accounted(f', sender) {
      assert Accounted(f, sender);
    }
  }

  lemma {:induction false} RunKeepsFlowInv(trace: seq<Flow>, events: seq<FlowEvent>, i: nat)
    requires IsFlowRun(trace, events) && i < |trace|
    ensures FlowInv(trace[i])
  {
    if i > 0 {
      RunKeepsFlowInv(trace, events, i - 1);
      MoveKeeps(trace[i - 1], events[i - 1]);
    } else {
      StartKeeps();
    }
  }

  lemma StartKeeps()
    ensures FlowInv(AtStart())
  {
    RunKeepsPipeInv([Start()], [], 0);
  }

  // ---------- Every run is one of the pipeline ----------

  /** The states of the pipe up to `i`, without deliveries and reads; `at` says where they come from. */
  ghost predicate PipesUpTo(pipes: seq<Pipe>, at: seq<nat>, trace: seq<Flow>, i: nat) {
    && |at| == |pipes| > 0 && i < |trace| && pipes[|pipes| - 1] == trace[i].pipe
    && forall k :: 0 <= k < |at| ==> at[k] <= i && pipes[k] == trace[at[k]].pipe
  }

  /** The events of the pipeline among these, in order. */
  function OuterOf(events: seq<FlowEvent>): seq<Event> {
    if events == [] then []
    else
      var last := events[|events| - 1];
      OuterOf(events[..|events| - 1]) + if last.Outer? then [last.event] else []
  }

  lemma OuterNext(events: seq<FlowEvent>, i: nat)
    requires i < |events|
    ensures OuterOf(events[..i + 1]) == OuterOf(events[..i]) + if events[i].Outer? then [events[i].event] else []
  {
    assert events[..i + 1][..i] == events[..i];
  }

  /** A step is one of the pipeline, or leaves the pipe as it is. */
  ghost predicate PipeStep(p: Pipe, e: FlowEvent, p': Pipe) {
    if e.Outer? then CanHappen(p, e.event) && p' == After(p, e.event) else p' == p
  }

  lemma StepInRun(trace: seq<Flow>, events: seq<FlowEvent>, i: nat)
    requires IsFlowRun(trace, events) && i < |events|
    ensures PipeStep(trace[i].pipe, events[i], trace[i + 1].pipe)
  {
    assert Can(trace[i], events[i]) && trace[i + 1] == Move(trace[i], events[i]);
  }

  lemma RefinesNext(trace: seq<Flow>, events: seq<FlowEvent>, i: nat, pipes: seq<Pipe>, outer: seq<Event>, at: seq<nat>)
    returns (pipes': seq<Pipe>, outer': seq<Event>, at': seq<nat>)
    requires IsFlowRun(trace, events) && i < |events|
    requires Pipeline.IsRun(pipes, outer) && PipesUpTo(pipes, at, trace, i) && outer == OuterOf(events[..i])
    ensures Pipeline.IsRun(pipes', outer') && PipesUpTo(pipes', at', trace, i + 1) && outer' == OuterOf(events[..i + 1])
  {
    StepInRun(trace, events, i);
    OuterNext(events, i);
    var e := events[i];
    if e.Outer? {
      RunSnoc(pipes, outer, e.event);
      return pipes + [trace[i + 1].pipe], outer + [e.event], at + [i + 1];
    } else {
      return pipes, outer, at;
    }
  }

  lemma RefinesStart(trace: seq<Flow>) returns (pipes: seq<Pipe>, outer: seq<Event>, at: seq<nat>)
    requires trace != [] && trace[0] == AtStart()
    ensures Pipeline.IsRun(pipes, outer) && PipesUpTo(pipes, at, trace, 0) && outer == []
  {
    return [Start()], [], [0];
  }

  /** Leaving out deliveries and reads, a run is a run of the pipeline that ends in the same state. */
  lemma {:induction false} RefinesPipeline(trace: seq<Flow>, events: seq<FlowEvent>, i: nat)
    returns (pipes: seq<Pipe>, outer: seq<Event>, at: seq<nat>)
    requires IsFlowRun(trace, events) && i < |trace|
    ensures Pipeline.IsRun(pipes, outer) && PipesUpTo(pipes, at, trace, i) && outer == OuterOf(events[..i])
  {
    if i == 0 {
      pipes, outer, at := RefinesStart(trace);
    } else {
      var pipes0, outer0, at0 := RefinesPipeline(trace, events, i - 1);
      pipes, outer, at := RefinesNext(trace, events, i - 1, pipes0, outer0, at0);
    }
  }

  // ---------- What an indexer has read ----------

  lemma ConcatPrefix<T>(ss: seq<seq<T>>, n: nat)
    requires n <= |ss|
    ensures Concat(ss[..n]) <= Concat(ss)
  {
    ConcatAppend(ss[..n], ss[n..]);
    assert ss[..n] + ss[n..] == ss;
  }

  /** As long as it listens, no other listening indexer has its hash. */
  ghost predicate OwnHashSoFar(trace: seq<Flow>, i: nat, ix: IndexerInfo)
    requires i < |trace|
  {
    forall k :: 0 <= k <= i && ix in trace[k].pipe.indexers ==> Unshared(trace[k].pipe, ix)
  }

  /** In every run, what an indexer has read is a prefix of what its filter selects since it joined. */
  lemma ReadsInOrder(trace: seq<Flow>, events: seq<FlowEvent>, i: nat, ix: IndexerInfo)
    requires IsFlowRun(trace, events) && i < |trace| && OwnHashSoFar(trace, i, ix)
    requires ix in trace[i].pipe.indexers && ix.sender !in trace[i].pipe.closed
    ensures var p, n := trace[i].pipe, At(trace[i].read, ix.sender);
            && ix.sender in p.inbox && n <= |p.inbox[ix.sender]| && ix.sender in p.since
            && p.since[ix.sender] <= |p.net.history.released|
            && Concat(p.inbox[ix.sender][..n]) <=
               (if ix.filter.keys == [] then [] else Wanted(ix.filter, p.net.history.released[p.since[ix.sender]..]))
  {
    var pipes, outer, at := RefinesPipeline(trace, events, i);
    forall k | 0 <= k < |pipes| && ix in pipes[k].indexers ensures Unshared(pipes[k], ix) {
      assert pipes[k] == trace[at[k]].pipe;
    }
    GotInRun(pipes, outer, |pipes| - 1, ix);
    RunKeepsFlowInv(trace, events, i);
    assert Accounted(trace[i], ix.sender);
    ConcatPrefix(trace[i].pipe.inbox[ix.sender], At(trace[i].read, ix.sender));
  }

  // ---------- One indexer that does not read stops everyone ----------

  /** Nothing that others could see has changed; only fetching goes on, until the channel is full. */
  ghost predicate Stalled(f: Flow, f': Flow) {
    && f'.pending == f.pending && f'.pipe.inbox == f.pipe.inbox && f'.pipe.indexers == f.pipe.indexers
    && f'.pipe.net.history.released == f.pipe.net.history.released && f'.pipe.net.buffer == f.pipe.net.buffer
    && f.pipe.net.channel <= f'.pipe.net.channel
    && (forall sender :: At(f'.queued, sender) <= At(f.queued, sender))
  }

  lemma BlockedStep(f: Flow, e: FlowEvent)
    requires Blocked(f) && Can(f, e)
    requires var to := f.pending[0].sender; e != Read(to) && e != Outer(Close(to))
    ensures Blocked(Move(f, e)) && Stalled(f, Move(f, e))
  {
    if e.Outer? {
      assert f.pending + [] == f.pending;
    }
  }

  lemma StalledTransitive(f: Flow, g: Flow, h: Flow)
    requires Stalled(f, g) && Stalled(g, h)
    ensures Stalled(f, h)
  {
    forall sender ensures At(h.queued, sender) <= At(f.queued, sender) {
      assert At(g.queued, sender) <= At(f.queued, sender);
    }
  }

  /**
   As long as the indexer that the broadcaster waits for neither reads nor goes away, in every
   continuation no block is released, no message reaches any indexer and nobody can register.
   */
  lemma {:induction false} SlowIndexerStopsAll(trace: seq<Flow>, events: seq<FlowEvent>, i: nat, j: nat)
    requires IsFlowRun(trace, events) && i <= j < |trace| && Blocked(trace[i])
    requires forall k :: i <= k < j ==>
               events[k] != Read(trace[i].pending[0].sender) && events[k] != Outer(Close(trace[i].pending[0].sender))
    ensures Blocked(trace[j]) && Stalled(trace[i], trace[j])
    decreases j
  {
    if i < j {
      SlowIndexerStopsAll(trace, events, i, j - 1);
      StallGoesOn(trace[i], trace[j - 1], events[j - 1]);
    }
  }

  lemma StallGoesOn(f: Flow, g: Flow, e: FlowEvent)
    requires Blocked(f) && Blocked(g) && Stalled(f, g) && Can(g, e)
    requires e != Read(f.pending[0].sender) && e != Outer(Close(f.pending[0].sender))
    ensures Blocked(Move(g, e)) && Stalled(f, Move(g, e))
  {
    BlockedStep(g, e);
    StalledTransitive(f, g, Move(g, e));
  }

  // ---------- If the indexers read, nothing is stuck ----------

  ghost predicate Reaches<S(!new), E(!new)>(can: (S, E) -> bool, go: (S, E) -> S, s: S, events: seq<E>, t: S)
    decreases |events|
  {
    if events == [] then s == t
    else can(s, events[0]) && Reaches(can, go, go(s, events[0]), events[1..], t)
  }

  lemma {:induction false} ReachesAppend<S(!new), E(!new)>(can: (S, E) -> bool, go: (S, E) -> S, s: S, a: seq<E>,
                                           t: S, b: seq<E>, u: S)
    requires Reaches(can, go, s, a, t) && Reaches(can, go, t, b, u)
    ensures Reaches(can, go, s, a + b, u)
    decreases |a|
  {
    if a == [] {
      assert a + b == b;
    } else {
      ReachesAppend(can, go, go(s, a[0]), a[1..], t, b, u);
      assert (a + b)[0] == a[0] && (a + b)[1..] == a[1..] + b;
    }
  }

  ghost function Go(f: Flow, e: FlowEvent): Flow {
    if Can(f, e) then Move(f, e) else f
  }

  /** A continuation of a run from `f` to `g`. */
  ghost predicate FlowLeads(f: Flow, events: seq<FlowEvent>, g: Flow) {
    Reaches(Can, Go, f, events, g)
  }

  lemma LeadsAppend(f: Flow, a: seq<FlowEvent>, g: Flow, b: seq<FlowEvent>, h: Flow)
    requires FlowLeads(f, a, g) && FlowLeads(g, b, h)
    ensures FlowLeads(f, a + b, h)
  {
    ReachesAppend(Can, Go, f, a, g, b, h);
  }

  lemma OneEvent(f: Flow, e: FlowEvent)
    requires Can(f, e)
    ensures FlowLeads(f, [e], Move(f, e))
  {
    assert [e][1..] == [];
  }

  /** Reading where there is no room and delivering, all pending messages get onto their channels. */
  lemma {:induction false} CanDrain(f: Flow) returns (events: seq<FlowEvent>, g: Flow)
    requires FlowInv(f)
    ensures FlowLeads(f, events, g) && FlowInv(g) && g.pending == [] && g.pipe == f.pipe
    decreases |f.pending|
  {
    if f.pending == [] {
      return [], f;
    }
    var e, f1 := [], f;
    if Blocked(f) {
      var read := Read(f.pending[0].sender);
      assert Accounted(f, f.pending[0].sender);
      OneEvent(f, read);
      MoveKeeps(f, read);
      e, f1 := [read], Move(f, read);
    }
    OneEvent(f1, Deliver);
    MoveKeeps(f1, Deliver);
    LeadsAppend(f, e, f1, [Deliver], Move(f1, Deliver));
    var rest;
    rest, g := CanDrain(Move(f1, Deliver));
    LeadsAppend(f, e + [Deliver], Move(f1, Deliver), rest, g);
    events := e + [Deliver] + rest;
  }

  /** Every continuation of the fetch protocol is one with deliveries in between. */
  lemma {:induction false} CanFollow(f: Flow, steps: seq<Step>, t: State) returns (events: seq<FlowEvent>, g: Flow)
    requires FlowInv(f) && f.pending == [] && Leads(f.pipe.net, steps, t)
    ensures FlowLeads(f, events, g) && FlowInv(g) && g.pending == [] && g.pipe.net == t
    decreases |steps|
  {
    if steps == [] {
      return [], f;
    }
    var e := Outer(Net(steps[0]));
    OneEvent(f, e);
    MoveKeeps(f, e);
    var f1 := Move(f, e);
    var drain, f2 := CanDrain(f1);
    LeadsAppend(f, [e], f1, drain, f2);
    var rest;
    rest, g := CanFollow(f2, steps[1..], t);
    LeadsAppend(f, [e] + drain, f2, rest, g);
    events := [e] + drain + rest;
  }

  /**
   From every reachable state, if the indexers read, the fetches in flight can all finish and
   everything released be delivered.
   */
  lemma CanBecomeQuietWithReaders(f: Flow) returns (events: seq<FlowEvent>, g: Flow)
    requires FlowInv(f) && f.pipe.net.adapter.lastBlock.Some?
    ensures FlowLeads(f, events, g) && FlowInv(g) && g.pending == [] && Quiet(g.pipe.net)
    ensures Requested(g.pipe.net) == Requested(f.pipe.net) && g.pipe.net.history.timedOut == f.pipe.net.history.timedOut
  {
    var drain, f1 := CanDrain(f);
    var steps, t := CanBecomeQuiet(f1.pipe.net);
    var follow;
    follow, g := CanFollow(f1, steps, t);
    LeadsAppend(f, drain, f1, follow, g);
    events := drain + follow;
  }

  // ---------- An indexer that never reads does stop everyone ----------

  /** Everything up to slot `n` has been fetched and released, and nothing is in flight. */
  predicate CaughtUp(s: State, n: nat) {
    s.adapter == Adapter(MARGIN + n, false, Some(n), Idle, {}, map[]) && s.channel == [] && s.buffer == Buffer(map[], n)
  }

  /** The next slot is requested, fetched and put on the channel. */
  function FetchSteps(n: nat, block: Option<ConfirmedBlock>): seq<Step> {
    [Poll(MARGIN + n + 1), Spawn, EndBatch, FetchDone(n, block), Send(n)]
  }

  lemma FetchNext(s: State, n: nat, block: Option<ConfirmedBlock>) returns (t: State)
    requires CaughtUp(s, n) && MARGIN + n + 1 < TWO64
    ensures Leads(s, FetchSteps(n, block), t)
    ensures t.adapter == Adapter(MARGIN + n + 1, false, Some(n + 1), Idle, {}, map[])
    ensures t.channel == [ConfirmBlockWithSlot(SlotBlock(n, block))] && t.buffer == s.buffer
  {
    var s1 := Next(s, Poll(MARGIN + n + 1));
    var s2 := Next(s1, Spawn);
    var s3 := Next(s2, EndBatch);
    var s4 := Next(s3, FetchDone(n, block));
    t := Next(s4, Send(n));
    LeadsFive(s, s1, s2, s3, s4, t, FetchSteps(n, block));
  }

  lemma LeadsFive(s: State, s1: State, s2: State, s3: State, s4: State, t: State, steps: seq<Step>)
    requires |steps| == 5
    requires Enabled(s, steps[0]) && s1 == Next(s, steps[0]) && Enabled(s1, steps[1]) && s2 == Next(s1, steps[1])
    requires Enabled(s2, steps[2]) && s3 == Next(s2, steps[2]) && Enabled(s3, steps[3]) && s4 == Next(s3, steps[3])
    requires Enabled(s4, steps[4]) && t == Next(s4, steps[4])
    ensures Leads(s, steps, t)
  {
    assert Leads(t, steps[5..], t);
    assert steps[4..][1..] == steps[5..] && Leads(s4, steps[4..], t);
    assert steps[3..][1..] == steps[4..] && Leads(s3, steps[3..], t);
    assert steps[2..][1..] == steps[3..] && Leads(s2, steps[2..], t);
    assert steps[1..][1..] == steps[2..] && Leads(s1, steps[1..], t);
  }

  function AsEvents(steps: seq<Step>): seq<FlowEvent> {
    Map(steps, (step: Step) => Outer(Net(step)))
  }

  /** Steps other than receiving change nothing but the network. */
  lemma {:induction false} Undisturbed(f: Flow, steps: seq<Step>, t: State)
    requires Leads(f.pipe.net, steps, t) && forall i :: 0 <= i < |steps| ==> !steps[i].Receive?
    ensures FlowLeads(f, AsEvents(steps), f.(pipe := f.pipe.(net := t)))
    decreases |steps|
  {
    if steps != [] {
      var e := Outer(Net(steps[0]));
      assert f.pending + [] == f.pending;
      assert Go(f, e) == f.(pipe := f.pipe.(net := Next(f.pipe.net, steps[0])));
      Undisturbed(Go(f, e), steps[1..], t);
      assert AsEvents(steps)[0] == e && AsEvents(steps)[1..] == AsEvents(steps[1..]);
    }
  }

  /** The indexer is the only one and has `n` messages on its channel, of which it has read none. */
  ghost predicate Fed(f: Flow, ix: IndexerInfo, n: nat) {
    && CaughtUp(f.pipe.net, n) && f.pipe.indexers == [ix] && f.pipe.closed == {}
    && f.pending == [] && At(f.queued, ix.sender) == n
  }

  /** A block with one transaction that mentions the key. */
  function BlockFor(key: Pubkey): ConfirmedBlock {
    ConfirmedBlock("", "", 0, [Transaction("", [key], [])], [], None, None)
  }

  /** Such a block is sent to an indexer that filters by the key. */
  lemma SentToOne(ix: IndexerInfo, b: SlotBlock)
    requires ix.Valid() && ix.filter.keys != [] && b.block == Some(BlockFor(ix.filter.keys[0]))
    ensures |Messages([ix], [b], 1)| == 1 && Messages([ix], [b], 1)[0].sender == ix.sender
  {
    var ixs, tx := [ix], b.block.value.transactions[0];
    assert tx.accountKeys[0] in ix.filter.keys && ix.filter.IsMatch(tx);
    assert AloneIn(ixs, 0, [b]);
    CollectedIsWanted(ixs, 0, [b]);
    assert Holds([b], tx) by {
      assert [b][0].block.Some? && tx in [b][0].block.value.transactions;
    }
    WantsNothingMeaning(ix, [b]);
    assert !WantsNothing(ix, [b]);
    assert Messages(ixs, [b], 0) == [];
    assert FirstWithHash(ixs, 0);
  }

  lemma ReceiveNext(f: Flow, ix: IndexerInfo, n: nat, b: SlotBlock)
    requires f.pipe.indexers == [ix] && f.pipe.closed == {} && f.pending == []
    requires f.pipe.net.adapter == Adapter(MARGIN + n + 1, false, Some(n + 1), Idle, {}, map[])
    requires f.pipe.net.channel == [ConfirmBlockWithSlot(b)] && f.pipe.net.buffer == Buffer(map[], n) && b.slot == n
    ensures Can(f, Outer(Net(Receive)))
    ensures var g := Move(f, Outer(Net(Receive)));
            && CaughtUp(g.pipe.net, n + 1) && g.pipe.indexers == [ix] && g.pipe.closed == {} && g.queued == f.queued
            && g.pending == Messages([ix], [b], 1)
  {
    var s := f.pipe.net;
    assert FirstAbsent<SlotBlock>(map[], n + 1) == n + 1;
    assert Batch(s) == Some([b] + Queued(map[], n + 1, n + 1)) && [b] + Queued(map[], n + 1, n + 1) == [b];
    FilterOne(ix, (x: IndexerInfo) => x.sender !in f.pipe.closed);
    assert Live([ix], {}) == [ix];
    assert s.channel[1..] == [];
    assert [] + Messages([ix], [b], 1) == Messages([ix], [b], 1);
  }

  /** One more block for an indexer that does not read: one more message, or no room for it. */
  lemma FeedOne(f: Flow, ix: IndexerInfo, n: nat) returns (events: seq<FlowEvent>, g: Flow)
    requires Fed(f, ix, n) && n <= CAPACITY && ix.Valid() && ix.filter.keys != []
    ensures FlowLeads(f, events, g)
    ensures if n < CAPACITY then Fed(g, ix, n + 1) else Blocked(g) && g.pending[0].sender == ix.sender
  {
    var b := SlotBlock(n, Some(BlockFor(ix.filter.keys[0])));
    var t := FetchNext(f.pipe.net, n, b.block);
    Undisturbed(f, FetchSteps(n, b.block), t);
    var f1 := f.(pipe := f.pipe.(net := t));
    ReceiveNext(f1, ix, n, b);
    SentToOne(ix, b);
    OneEvent(f1, Outer(Net(Receive)));
    g := Move(f1, Outer(Net(Receive)));
    events := AsEvents(FetchSteps(n, b.block)) + [Outer(Net(Receive))];
    LeadsAppend(f, AsEvents(FetchSteps(n, b.block)), f1, [Outer(Net(Receive))], g);
    if n < CAPACITY {
      OneEvent(g, Deliver);
      LeadsAppend(f, events, g, [Deliver], Move(g, Deliver));
      events, g := events + [Deliver], Move(g, Deliver);
    }
  }

  lemma FeedNone(ix: IndexerInfo) returns (events: seq<FlowEvent>, g: Flow)
    requires ix.Valid()
    ensures FlowLeads(AtStart(), events, g) && Fed(g, ix, 0)
  {
    var f := AtStart();
    var register, poll, receive := Outer(Register(ix)), Outer(Net(Poll(MARGIN))), Outer(Net(Receive));
    var f1 := Move(f, register);
    OneEvent(f, register);
    var f2 := Move(f1, poll);
    OneEvent(f1, poll);
    LeadsAppend(f, [register], f1, [poll], f2);
    assert f2.pipe.net.channel == [BlockSlot(0)];
    OneEvent(f2, receive);
    g := Move(f2, receive);
    events := [register] + [poll] + [receive];
    LeadsAppend(f, [register] + [poll], f2, [receive], g);
  }

  /** The channel of an indexer that does not read can hold any number of messages up to its capacity. */
  lemma {:induction false} CanQueue(ix: IndexerInfo, n: nat) returns (events: seq<FlowEvent>, g: Flow)
    requires ix.Valid() && ix.filter.keys != [] && n <= CAPACITY
    ensures FlowLeads(AtStart(), events, g) && Fed(g, ix, n)
  {
    if n == 0 {
      events, g := FeedNone(ix);
    } else {
      var before, f := CanQueue(ix, n - 1);
      var more;
      more, g := FeedOne(f, ix, n - 1);
      events := before + more;
      LeadsAppend(AtStart(), before, f, more, g);
    }
  }

  lemma {:induction false} TraceOf(f: Flow, events: seq<FlowEvent>, g: Flow) returns (trace: seq<Flow>)
    requires FlowLeads(f, events, g)
    ensures |trace| == |events| + 1 && trace[0] == f && trace[|events|] == g
    ensures forall i :: 0 <= i < |events| ==> Can(trace[i], events[i]) && trace[i + 1] == Move(trace[i], events[i])
    decreases |events|
  {
    if events == [] {
      return [f];
    }
    var rest := TraceOf(Go(f, events[0]), events[1..], g);
    trace := [f] + rest;
    forall i | 0 <= i < |events| ensures Can(trace[i], events[i]) && trace[i + 1] == Move(trace[i], events[i]) {
      if i > 0 {
        assert events[i] == events[1..][i - 1];
      }
    }
  }

  /** For every indexer with a filter there is a run in which the broadcaster waits for that indexer. */
  lemma CanBlock(ix: IndexerInfo) returns (trace: seq<Flow>, events: seq<FlowEvent>)
    requires ix.Valid() && ix.filter.keys != []
    ensures IsFlowRun(trace, events)
    ensures Blocked(trace[|events|]) && trace[|events|].pending[0].sender == ix.sender
  {
    var before, f := CanQueue(ix, CAPACITY);
    var more, g := FeedOne(f, ix, CAPACITY);
    events := before + more;
    LeadsAppend(AtStart(), before, f, more, g);
    trace := TraceOf(AtStart(), events, g);
  }
}
