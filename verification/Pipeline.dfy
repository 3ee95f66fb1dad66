/**
 From the node to the indexers: the fetch protocol feeding the fan-out, while indexers register and
 go away at any time (`try_recv`, `register_indexer` and `broadcast_blocks` in
 chain-reader/src/indexer_broadcast.rs).
 */
module Pipeline {
  import opened Common
  import opened SolanaTypes
  import opened BlockBuffers
  import opened Broadcast
  import opened FetchProtocol

  /** `inbox` and `since` record, per sender, the messages so far and the releases before it joined. */
  datatype Pipe = Pipe(
    net: State,
    indexers: seq<IndexerInfo>,
    closed: set<nat>,
    inbox: map<nat, seq<seq<SlotBlock>>>,
    since: map<nat, nat>)

  datatype Event = Net(step: Step) | Register(ix: IndexerInfo) | Close(sender: nat)

  function Start(): Pipe {
    Pipe(Init(), [], {}, map[], map[])
  }

  /** Every registration has its own channel; hashes may be shared. */
  ghost predicate CanHappen(p: Pipe, e: Event) {
    match e
    case Net(step) => Enabled(p.net, step)
    case Register(ix) => ix.Valid() && ix.sender !in p.inbox
    case Close(sender) => true
  }

  /** The batch that the next message of the channel releases. */
  function Batch(s: State): Option<seq<SlotBlock>>
    requires Enabled(s, Receive)
  {
    Handle(s.buffer, s.channel[0]).1
  }

  function After(p: Pipe, e: Event): Pipe
    requires e.Net? ==> Enabled(p.net, e.step)
  {
    match e
    case Register(ix) =>
      p.(indexers := p.indexers + [ix], inbox := p.inbox[ix.sender := []],
         since := p.since[ix.sender := |p.net.history.released|])
    case Close(sender) => p.(closed := p.closed + {sender})
    case Net(step) =>
      var p1 := p.(net := Next(p.net, step));
      if step.Receive? && Batch(p.net).Some? then
        var live := Live(p.indexers, p.closed);
        var sent := Messages(live, Batch(p.net).value, |live|);
        p1.(indexers := live, inbox := map s | s in p.inbox :: p.inbox[s] + Received(sent, s))
      else p1
  }

  ghost predicate IsRun(trace: seq<Pipe>, events: seq<Event>) {
    && |trace| == |events| + 1
    && trace[0] == Start()
    && forall i :: 0 <= i < |events| ==> CanHappen(trace[i], events[i]) && trace[i + 1] == After(trace[i], events[i])
  }

  lemma RunSnoc(trace: seq<Pipe>, events: seq<Event>, e: Event)
    requires IsRun(trace, events) && CanHappen(trace[|events|], e)
    ensures IsRun(trace + [After(trace[|events|], e)], events + [e])
  {
    var trace', events' := trace + [After(trace[|events|], e)], events + [e];
    forall i | 0 <= i < |events'|
      ensures CanHappen(trace'[i], events'[i]) && trace'[i + 1] == After(trace'[i], events'[i])
    {
      assert trace'[i] == trace[i];
      assert i < |events| ==> trace'[i + 1] == trace[i + 1] && events'[i] == events[i];
    }
  }

  ghost predicate Joined(p: Pipe, ix: IndexerInfo) {
    ix.Valid() && ix.sender in p.inbox && ix.sender in p.since && p.since[ix.sender] <= |p.net.history.released|
  }

  ghost predicate PipeInv(p: Pipe) {
    && Inv(p.net)
    && p.inbox.Keys == p.since.Keys
    && DistinctSenders(p.indexers)
    && forall i :: 0 <= i < |p.indexers| ==> Joined(p, p.indexers[i])
  }

  lemma {:induction false} LiveSenders(ixs: seq<IndexerInfo>, closed: set<nat>)
    requires DistinctSenders(ixs)
    ensures DistinctSenders(Live(ixs, closed))
    ensures forall i :: 0 <= i < |Live(ixs, closed)| ==>
              Live(ixs, closed)[i] in ixs && Live(ixs, closed)[i].sender !in closed
  {
    if ixs != [] {
      LiveSenders(ixs[..|ixs| - 1], closed);
    }
  }

  lemma AfterKeeps(p: Pipe, e: Event)
    requires PipeInv(p) && CanHappen(p, e)
    ensures PipeInv(After(p, e))
  {
    var p' := After(p, e);
    if e.Net? {
      NextKeeps(p.net, e.step);
      assert |p.net.history.released| <= |p'.net.history.released|;
    }
    LiveSenders(p.indexers, p.closed);
    forall i | 0 <= i < |p'.indexers| ensures Joined(p', p'.indexers[i]) {
      assert e == Register(p'.indexers[i]) || Joined(p, p'.indexers[i]);
    }
  }

  lemma {:induction false} RunKeepsPipeInv(trace: seq<Pipe>, events: seq<Event>, i: nat)
    requires IsRun(trace, events) && i < |trace|
    ensures PipeInv(trace[i])
  {
    if i > 0 {
      RunKeepsPipeInv(trace, events, i - 1);
      AfterKeeps(trace[i - 1], events[i - 1]);
    }
  }

  // ---------- What an indexer with a hash of its own receives ----------

  /** The messages carry, in slot order, everything the filter selects from `blocks`, and nothing else. */
  ghost predicate Delivered(filter: SolanaFilter, msgs: seq<seq<SlotBlock>>, blocks: seq<SlotBlock>) {
    && (forall i :: 0 <= i < |msgs| ==> msgs[i] != [])
    && Concat(msgs) == if filter.keys == [] then [] else Wanted(filter, blocks)
  }

  ghost predicate Got(p: Pipe, ix: IndexerInfo) {
    && Joined(p, ix)
    && Delivered(ix.filter, p.inbox[ix.sender], p.net.history.released[p.since[ix.sender]..])
  }

  /** No other indexer that still listens has this hash. */
  ghost predicate Unshared(p: Pipe, ix: IndexerInfo) {
    forall i :: 0 <= i < |p.indexers| && p.indexers[i].sender !in p.closed && p.indexers[i].sender != ix.sender ==>
      p.indexers[i].hash != ix.hash
  }

  ghost predicate OwnHash(ixs: seq<IndexerInfo>, i: nat)
    requires i < |ixs|
  {
    forall j :: 0 <= j < |ixs| && j != i ==> ixs[j].hash != ixs[i].hash
  }

  lemma DeliveredMore(filter: SolanaFilter, msgs: seq<seq<SlotBlock>>, blocks: seq<SlotBlock>,
                      got: seq<SlotBlock>, batch: seq<SlotBlock>)
    requires Delivered(filter, msgs, blocks)
    requires got == if filter.keys == [] then [] else Wanted(filter, batch)
    ensures Delivered(filter, msgs + AtMostOne(got), blocks + batch)
  {
    WantedAppend(filter, blocks, batch);
    if got == [] {
      assert msgs + [] == msgs;
      assert Concat(msgs) + got == Concat(msgs);
    } else {
      var msgs' := msgs + [got];
      ConcatAppend(msgs, [got]);
      assert Concat([got]) == got by {
        assert [got][..0] == [];
      }
      assert forall i :: 0 <= i < |msgs'| ==> msgs'[i] != [];
    }
  }

  lemma DeliveredAfterBroadcast(live: seq<IndexerInfo>, filter: SolanaFilter, msgs: seq<seq<SlotBlock>>,
                                blocks: seq<SlotBlock>, batch: seq<SlotBlock>, i: nat,
                                msgs': seq<seq<SlotBlock>>, blocks': seq<SlotBlock>)
    requires i < |live| && live[i].filter == filter && live[i].Valid()
    requires DistinctSenders(live) && OwnHash(live, i) && Delivered(filter, msgs, blocks)
    requires msgs' == msgs + Received(Messages(live, batch, |live|), live[i].sender) && blocks' == blocks + batch
    ensures Delivered(filter, msgs', blocks')
  {
    assert AloneIn(live, i, batch);
    var got := Collected(live, live[i].hash, batch);
    ReceivedByOne(live, batch, |live|, i);
    if filter.keys == [] {
      WithoutKeys(live, i, batch);
    } else {
      CollectedIsWanted(live, i, batch);
    }
    DeliveredMore(filter, msgs, blocks, got, batch);
  }

  /** What a release does to the history and to the inbox of one channel. */
  ghost predicate Released(p: Pipe, p': Pipe, live: seq<IndexerInfo>, batch: seq<SlotBlock>, sender: nat) {
    && p'.net.history.released == p.net.history.released + batch
    && sender in p.inbox && sender in p'.inbox
    && p'.inbox[sender] == p.inbox[sender] + Received(Messages(live, batch, |live|), sender)
    && p'.since == p.since && p'.closed == p.closed
  }

  lemma BroadcastEffect(p: Pipe, live: seq<IndexerInfo>, sender: nat)
    requires Enabled(p.net, Receive) && Batch(p.net).Some? && live == Live(p.indexers, p.closed) && sender in p.inbox
    ensures Released(p, After(p, Net(Receive)), live, Batch(p.net).value, sender)
  {
  }

  lemma GotLater(p: Pipe, p': Pipe, live: seq<IndexerInfo>, batch: seq<SlotBlock>, i: nat)
    requires i < |live| && Got(p, live[i]) && DistinctSenders(live) && OwnHash(live, i)
    requires Released(p, p', live, batch, live[i].sender)
    ensures Got(p', live[i])
  {
    var sender, blocks, since := live[i].sender, p.net.history.released, p.since[live[i].sender];
    assert (blocks + batch)[since..] == blocks[since..] + batch;
    DeliveredAfterBroadcast(live, live[i].filter, p.inbox[sender], blocks[since..], batch, i,
                            p'.inbox[sender], p'.net.history.released[since..]);
  }

  /** Among those that listen, an indexer with an unshared hash is the only one with its hash. */
  lemma LiveAlone(p: Pipe, ix: IndexerInfo) returns (i: nat)
    requires DistinctSenders(p.indexers) && ix in p.indexers && ix.sender !in p.closed && Unshared(p, ix)
    ensures var live := Live(p.indexers, p.closed);
            i < |live| && live[i] == ix && DistinctSenders(live) && OwnHash(live, i)
  {
    var live := Live(p.indexers, p.closed);
    LiveSenders(p.indexers, p.closed);
    FilterIn(p.indexers, (x: IndexerInfo) => x.sender !in p.closed, ix);
    i :| 0 <= i < |live| && live[i] == ix;
    forall j | 0 <= j < |live| && j != i ensures live[j].hash != ix.hash {
      var k :| 0 <= k < |p.indexers| && p.indexers[k] == live[j];
      assert p.indexers[k].sender != ix.sender;
    }
  }

  /**
   Whatever happens, and whatever hashes the others share: an indexer that goes on listening under a
   hash of its own stays supplied with exactly what its filter selects.
   */
  lemma AfterDelivers(p: Pipe, e: Event, ix: IndexerInfo)
    requires PipeInv(p) && CanHappen(p, e)
    requires ix in p.indexers && ix.sender !in p.closed && Unshared(p, ix) && Got(p, ix)
    ensures Got(After(p, e), ix)
  {
    var p' := After(p, e);
    if e == Net(Receive) && Batch(p.net).Some? {
      var i := LiveAlone(p, ix);
      BroadcastEffect(p, Live(p.indexers, p.closed), ix.sender);
      GotLater(p, p', Live(p.indexers, p.closed), Batch(p.net).value, i);
    } else {
      assert p'.net.history.released == p.net.history.released;
    }
  }

  lemma RegisterDelivers(p: Pipe, ix: IndexerInfo)
    requires CanHappen(p, Register(ix))
    ensures Got(After(p, Register(ix)), ix)
  {
    var n := |p.net.history.released|;
    assert p.net.history.released[n..] == [];
    assert Delivered(ix.filter, [], []);
  }

  /** As long as it listens, no other listening indexer has its hash. */
  ghost predicate OwnHashUntil(trace: seq<Pipe>, i: nat, ix: IndexerInfo)
    requires i < |trace|
  {
    forall k :: 0 <= k <= i && ix in trace[k].indexers ==> Unshared(trace[k], ix)
  }

  lemma {:induction false} GotInRun(trace: seq<Pipe>, events: seq<Event>, i: nat, ix: IndexerInfo)
    requires IsRun(trace, events) && i < |trace| && OwnHashUntil(trace, i, ix)
    requires ix in trace[i].indexers && ix.sender !in trace[i].closed
    ensures Got(trace[i], ix)
  {
    if i > 0 {
      var p, e := trace[i - 1], events[i - 1];
      RunKeepsPipeInv(trace, events, i - 1);
      if ix in p.indexers {
        GotInRun(trace, events, i - 1, ix);
        AfterDelivers(p, e, ix);
      } else {
        OnlyRegisterAdds(p, e, ix);
        RegisterDelivers(p, ix);
      }
    }
  }

  lemma OnlyRegisterAdds(p: Pipe, e: Event, ix: IndexerInfo)
    requires CanHappen(p, e) && ix !in p.indexers && ix in After(p, e).indexers
    ensures e == Register(ix)
  {
    FilterIn(p.indexers, (x: IndexerInfo) => x.sender !in p.closed, ix);
  }

  /**
   Whatever the order in which blocks were fetched, timed out, sent and received, whoever else
   registered or left meanwhile and whatever hashes those share: the messages of an indexer that still
   listens, and has had its hash for itself, hold exactly what its filter selects from the blocks of
   the slots released since it joined, in slot order, and those blocks are the ones the node returned.
   Without keys it is sent nothing.
   */
  lemma IndexerSeesItsBlocksInOrder(trace: seq<Pipe>, events: seq<Event>, i: nat, ix: IndexerInfo)
    requires IsRun(trace, events) && i < |trace| && OwnHashUntil(trace, i, ix)
    requires ix in trace[i].indexers && ix.sender !in trace[i].closed
    ensures var p, h := trace[i], trace[i].net.history;
            && ix.sender in p.inbox && ix.sender in p.since && p.since[ix.sender] <= |h.released|
            && Concat(p.inbox[ix.sender]) ==
               (if ix.filter.keys == [] then [] else Wanted(ix.filter, h.released[p.since[ix.sender]..]))
            && (forall n :: 0 <= n < |p.inbox[ix.sender]| ==> p.inbox[ix.sender][n] != [])
            && (forall n :: 0 <= n < |h.released| ==>
                  h.released[n].slot == h.root + n && h.released[n].slot in h.fetched &&
                  h.released[n].block == h.fetched[h.released[n].slot])
  {
    RunKeepsPipeInv(trace, events, i);
    GotInRun(trace, events, i, ix);
  }
}
