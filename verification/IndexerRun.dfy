/**
 A whole run of an indexer (`run_indexer` in manager/src/indexer/instance_manager.rs): a block
 stream from the store's latest block with the filter of all hosts, a block at a time, and a new
 stream whenever processing a block asks for a restart.

 A run is as long as its list of inputs. A failed scan leaves the stream with a finished future;
 polling that again panics, so the run ends there.
 */
module IndexerRun {
  import opened Common
  import opened EthereumTypes
  import opened DataSources
  import opened TriggerFilters
  import opened EntityCaches
  import opened Handlers
  import opened IndexerRounds
  import opened IndexerStore
  import opened IndexerLoop
  import opened PollingStream
  import opened BlocksWithTriggers
  import opened TriggerScan
  import opened Decoding

  datatype Input = Input(answers: Answers, outside: Outside)

  datatype Outcome = Running | Stopped | FailedWith(error: BlockError) | Crashed

  /** What stays the same during a run; `rounds` are enough for every block, and no scan is longer than `maxRange`. */
  datatype World = World(rt: Runtime, hashes: Hashes, rounds: nat, chain: ChainData, maxRange: int)

  /** The block number that streams start behind. */
  function Position(store: StoreState): int {
    if store.ptr.None? then 0 else store.ptr.value.number
  }

  /** A block that was processed: the block number before it, and the hosts and entities it found. */
  datatype Visit = Visit(before: int, hosts: seq<DataSource>, entities: Store, block: BlockWithTriggers,
                         outside: Outside)

  function PtrOf(b: BlockWithTriggers): BlockPtr {
    BlockPtr(b.block.hash, b.block.number)
  }

  // ---------- One block ----------

  /**
   The block came with everything due for the hosts of that time, and nothing was due for them in a
   block between it and the one before.
   */
  ghost predicate VisitOk(w: World, v: Visit) {
    && v.before < v.block.block.number && Genuine(w.chain, FilterOf(v.hosts, w.hashes), v.block)
    && NoneBetween(w.chain, FilterOf(v.hosts, w.hashes), v.before, v.block.block.number)
  }

  function FirstPassOf(rt: Runtime, v: Visit): Result<BlockState, MappingError> {
    RunTriggers(rt, v.block.block.number, v.hosts, v.block.triggers, Fresh(v.entities))
  }

  function LastRound(w: World, v: Visit, first: BlockState): Result<Round, BlockError> {
    Rounds(StepOf(EnvOf(w.rt, w.hashes, v.outside), v.block.block.number), Round(v.hosts, first), w.rounds)
  }

  /** A handler of the first pass suspected a reorg. */
  predicate Suspected(rt: Runtime, v: Visit) {
    var first := FirstPassOf(rt, v);
    first.Err? && first.error.PossibleReorg?
  }

  /** The commit holds what the handlers of the hosts made of the triggers of the block. */
  ghost predicate CommitOf(w: World, v: Visit, commit: Commit) {
    var first := FirstPassOf(w.rt, v);
    && first.Ok?
    && var last := LastRound(w, v, first.value);
       last.Ok? && commit == Commit(PtrOf(v.block), last.value.state.writes, last.value.state.dataSources)
  }

  /** Processing the block ends with an error, and why. */
  ghost predicate Fails(w: World, v: Visit, store: StoreState, error: BlockError) {
    match FirstPassOf(w.rt, v)
    case Err(PossibleReorg(_)) => false
    case Err(Unknown(message)) => error == Failed(message)
    case Ok(first) => Finish(LastRound(w, v, first), PtrOf(v.block), v.outside, store) == Err(error)
  }

  /** One commit was added, of this visit. */
  ghost predicate CommittedOne(w: World, store: StoreState, store': StoreState, v: Visit) {
    && Position(store') == v.block.block.number
    && |store'.commits| == |store.commits| + 1 && store.commits <= store'.commits
    && var commit := store'.commits[|store.commits|];
       CommitOf(w, v, commit) && store'.entities == EntitiesAfter(store.entities, commit.writes)
  }

  /** After a suspected reorg everything is as it was; otherwise the block is committed and hosts only added. */
  ghost predicate Moves(w: World, store: StoreState, store': StoreState, hosts': seq<DataSource>, v: Visit) {
    if Suspected(w.rt, v) then store' == store && hosts' == v.hosts
    else CommittedOne(w, store, store', v) && v.hosts <= hosts'
  }

  lemma BlockInRun(w: World, v: Visit, store: StoreState, first: BlockState)
    requires FirstPassOf(w.rt, v) == Ok(first)
    requires Finish(LastRound(w, v, first), PtrOf(v.block), v.outside, store).Ok?
    ensures CommittedOne(w, store, Finish(LastRound(w, v, first), PtrOf(v.block), v.outside, store).value, v)
  {
    FinishWritesOnce(LastRound(w, v, first), PtrOf(v.block), v.outside, store);
  }

  /** Processing a block commits it, meets a suspected reorg, or fails and leaves the store as it was. */
  method ProcessFound(indexer: Indexer, block: BlockWithTriggers, outside: Outside, ghost v: Visit, ghost w: World,
                      ghost universe: set<Identity>)
    returns (r: Result<bool, BlockError>)
    requires indexer.Valid() && NamesWithin(indexer.rt, Any(universe))
    requires v.block == block && v.outside == outside && v.hosts == indexer.hosts &&
             v.entities == indexer.store.entities
    requires w.rt == indexer.rt && w.hashes == indexer.hashes && w.rounds == |universe| + 1
    modifies indexer
    ensures r.Ok? ==> indexer.Valid() && Moves(w, old(indexer.store), indexer.store, indexer.hosts, v)
    ensures r.Err? ==> indexer.store == old(indexer.store) && Fails(w, v, indexer.store, r.error)
    ensures r == Ok(false) ==> indexer.hosts == old(indexer.hosts) && Position(indexer.store) == block.block.number
  {
    ghost var store := indexer.store;
    r := indexer.ProcessBlock(PtrOf(block), block.triggers, outside, universe);
    ghost var first := FirstPassOf(w.rt, v);
    if r.Ok? && first.Ok? {
      BlockInRun(w, v, store, first.value);
    }
  }

  // ---------- The history of a run ----------

  ghost predicate VisitsOk(w: World, trail: seq<Visit>) {
    forall k :: 0 <= k < |trail| ==> VisitOk(w, trail[k])
  }

  /** Each visit starts where the one before ended, and hosts are only added. */
  ghost predicate Joined(start: int, trail: seq<Visit>) {
    && (forall k :: 0 < k < |trail| ==>
         trail[k].before == trail[k - 1].block.block.number && trail[k - 1].hosts <= trail[k].hosts)
    && (trail != [] ==> trail[0].before == start)
  }

  function EndOf(start: int, trail: seq<Visit>): int {
    if trail == [] then start else trail[|trail| - 1].block.block.number
  }

  ghost predicate TrailHosts(trail: seq<Visit>, hosts: seq<DataSource>) {
    trail != [] ==> trail[|trail| - 1].hosts <= hosts
  }

  /** The commits since the start are the visits, in order. */
  ghost predicate Logged(w: World, commits: seq<Commit>, trail: seq<Visit>) {
    |commits| == |trail| && forall k :: 0 <= k < |trail| ==> CommitOf(w, trail[k], commits[k])
  }

  /** Every block found the entities that the commits before it left. */
  ghost predicate Supplied(before: Store, commits: seq<Commit>, trail: seq<Visit>) {
    && |commits| == |trail|
    && forall k :: 0 <= k < |trail| ==> trail[k].entities == EntitiesOf(before, commits[..k])
  }

  lemma JoinedNext(start: int, trail: seq<Visit>, v: Visit)
    requires Joined(start, trail) && TrailHosts(trail, v.hosts) && v.before == EndOf(start, trail)
    ensures Joined(start, trail + [v])
  {
  }

  lemma VisitsNext(w: World, trail: seq<Visit>, v: Visit)
    requires VisitsOk(w, trail) && VisitOk(w, v)
    ensures VisitsOk(w, trail + [v])
  {
    var trail' := trail + [v];
    forall k | 0 <= k < |trail'| ensures VisitOk(w, trail'[k]) {
      assert trail'[k] == if k < |trail| then trail[k] else v;
    }
  }

  lemma LoggedNext(w: World, commits: seq<Commit>, trail: seq<Visit>, c: Commit, v: Visit)
    requires Logged(w, commits, trail) && CommitOf(w, v, c)
    ensures Logged(w, commits + [c], trail + [v])
  {
    var commits', trail' := commits + [c], trail + [v];
    forall k | 0 <= k < |trail'| ensures CommitOf(w, trail'[k], commits'[k]) {
      if k < |trail| {
        assert commits'[k] == commits[k] && trail'[k] == trail[k];
      }
    }
  }

  lemma SuppliedNext(before: Store, commits: seq<Commit>, trail: seq<Visit>, c: Commit, v: Visit)
    requires Supplied(before, commits, trail) && v.entities == EntitiesOf(before, commits)
    ensures Supplied(before, commits + [c], trail + [v])
  {
    var commits', trail' := commits + [c], trail + [v];
    forall k | 0 <= k < |trail'| ensures trail'[k].entities == EntitiesOf(before, commits'[..k]) {
      if k < |trail| {
        assert commits'[..k] == commits[..k];
      } else {
        assert commits'[..k] == commits;
      }
    }
  }

  /** The blocks visited between two positions, up to these hosts. */
  ghost predicate Path(w: World, from: int, to: int, hosts: seq<DataSource>, trail: seq<Visit>) {
    VisitsOk(w, trail) && Joined(from, trail) && TrailHosts(trail, hosts) && EndOf(from, trail) == to
  }

  lemma PathNext(w: World, from: int, to: int, trail: seq<Visit>, v: Visit, hosts': seq<DataSource>)
    requires Path(w, from, to, v.hosts, trail) && v.before == to && VisitOk(w, v) && v.hosts <= hosts'
    ensures Path(w, from, v.block.block.number, hosts', trail + [v])
  {
    VisitsNext(w, trail, v);
    JoinedNext(from, trail, v);
  }

  /** The commits of the visits, and the entities before and after them. */
  ghost predicate Ledger(w: World, before: Store, commits: seq<Commit>, after: Store, trail: seq<Visit>) {
    Logged(w, commits, trail) && Supplied(before, commits, trail) && after == EntitiesOf(before, commits)
  }

  lemma LedgerNext(w: World, before: Store, commits: seq<Commit>, after: Store, trail: seq<Visit>, c: Commit, v: Visit)
    requires Ledger(w, before, commits, after, trail) && v.entities == after && CommitOf(w, v, c)
    ensures Ledger(w, before, commits + [c], EntitiesAfter(after, c.writes), trail + [v])
  {
    LoggedNext(w, commits, trail, c, v);
    SuppliedNext(before, commits, trail, c, v);
    EntitiesNext(before, commits, c);
  }

  /** What was committed since `start`. */
  ghost function Since(start: StoreState, store: StoreState): seq<Commit>
    requires start.commits <= store.commits
  {
    store.commits[|start.commits|..]
  }

  /** What a run has committed so far, from its start to this store and these hosts. */
  ghost predicate History(w: World, start: StoreState, store: StoreState, hosts: seq<DataSource>, trail: seq<Visit>) {
    && Path(w, Position(start), Position(store), hosts, trail)
    && start.commits <= store.commits
    && Ledger(w, start.entities, Since(start, store), store.entities, trail)
  }

  lemma SinceNext(w: World, start: StoreState, store: StoreState, store': StoreState, v: Visit)
    requires start.commits <= store.commits && CommittedOne(w, store, store', v)
    ensures start.commits <= store'.commits &&
            Since(start, store') == Since(start, store) + [store'.commits[|store.commits|]]
  {
  }

  lemma HistoryNext(w: World, start: StoreState, store: StoreState, trail: seq<Visit>, v: Visit, store': StoreState,
                    hosts': seq<DataSource>)
    requires History(w, start, store, v.hosts, trail)
    requires v.before == Position(store) && v.entities == store.entities && VisitOk(w, v)
    requires CommittedOne(w, store, store', v) && v.hosts <= hosts'
    ensures History(w, start, store', hosts', trail + [v])
  {
    PathNext(w, Position(start), Position(store), trail, v, hosts');
    SinceNext(w, start, store, store', v);
    LedgerNext(w, start.entities, Since(start, store), store.entities, trail, store'.commits[|store.commits|], v);
  }

  // ---------- Every turn of a run ----------

  /** The visits that ended in a commit: all but those that met a suspected reorg. */
  ghost function Kept(rt: Runtime, turns: seq<Visit>): seq<Visit> {
    Filter(turns, (v: Visit) => !Suspected(rt, v))
  }

  lemma KeptSnoc(rt: Runtime, turns: seq<Visit>, v: Visit)
    ensures Suspected(rt, v) ==> Kept(rt, turns + [v]) == Kept(rt, turns)
    ensures !Suspected(rt, v) ==> Kept(rt, turns + [v]) == Kept(rt, turns) + [v]
  {
    assert (turns + [v])[..|turns|] == turns;
  }

  /** Every turn goes on from the last commit before it, also after a suspected reorg. */
  ghost predicate TurnsOk(w: World, start: int, turns: seq<Visit>) {
    forall k :: 0 <= k < |turns| ==>
      VisitOk(w, turns[k]) && turns[k].before == EndOf(start, Kept(w.rt, turns[..k]))
  }

  lemma TurnsNext(w: World, start: int, turns: seq<Visit>, v: Visit)
    requires TurnsOk(w, start, turns) && VisitOk(w, v) && v.before == EndOf(start, Kept(w.rt, turns))
    ensures TurnsOk(w, start, turns + [v])
  {
    var turns' := turns + [v];
    forall k | 0 <= k < |turns'|
      ensures VisitOk(w, turns'[k]) && turns'[k].before == EndOf(start, Kept(w.rt, turns'[..k]))
    {
      if k < |turns| {
        assert turns'[k] == turns[k] && turns'[..k] == turns[..k];
      } else {
        assert turns'[..k] == turns;
      }
    }
  }

  /** All turns so far, and what they have committed. */
  ghost predicate Story(w: World, start: StoreState, store: StoreState, hosts: seq<DataSource>, turns: seq<Visit>) {
    TurnsOk(w, Position(start), turns) && History(w, start, store, hosts, Kept(w.rt, turns))
  }

  lemma StoryStart(w: World, start: StoreState, hosts: seq<DataSource>)
    ensures Story(w, start, start, hosts, [])
  {
    assert Since(start, start) == [];
  }

  lemma StoryNext(w: World, start: StoreState, store: StoreState, turns: seq<Visit>, v: Visit, store': StoreState,
                  hosts': seq<DataSource>)
    requires Story(w, start, store, v.hosts, turns)
    requires v.before == Position(store) && v.entities == store.entities && VisitOk(w, v)
    requires Moves(w, store, store', hosts', v)
    ensures Story(w, start, store', hosts', turns + [v])
  {
    TurnsNext(w, Position(start), turns, v);
    KeptSnoc(w.rt, turns, v);
    if !Suspected(w.rt, v) {
      HistoryNext(w, start, store, Kept(w.rt, turns), v, store', hosts');
    }
  }

  lemma StoryReplayed(w: World, start: StoreState, store: StoreState, hosts: seq<DataSource>, turns: seq<Visit>)
    requires Story(w, start, store, hosts, turns)
    ensures start.commits <= store.commits && Replayed(start.entities, Since(start, store), store.entities)
  {
    EntitiesAreReplayed(start.entities, Since(start, store));
  }

  /** Each turn so far had one input. */
  ghost predicate OneEach(turns: seq<Visit>, inputs: seq<Input>) {
    |turns| <= |inputs| && forall k :: 0 <= k < |turns| ==> turns[k].outside == inputs[k].outside
  }

  lemma OneMore(turns: seq<Visit>, turns': seq<Visit>, inputs: seq<Input>)
    requires OneEach(turns, inputs) && |turns'| == |turns| + 1 <= |inputs| && turns <= turns'
    requires turns'[|turns|].outside == inputs[|turns|].outside
    ensures OneEach(turns', inputs)
  {
    forall k | 0 <= k < |turns'| ensures turns'[k].outside == inputs[k].outside {
      assert k < |turns| ==> turns'[k] == turns[k];
    }
  }

  /** Some block that the stream may yield next makes processing fail with this error. */
  ghost predicate FailsOn(w: World, hosts: seq<DataSource>, store: StoreState, outside: Outside, error: BlockError) {
    exists block: BlockWithTriggers ::
      var v := Visit(Position(store), hosts, store.entities, block, outside);
      VisitOk(w, v) && Fails(w, v, store, error)
  }

  /** Why a run ends in this state on this input. */
  ghost predicate EndsOn(w: World, hosts: seq<DataSource>, store: StoreState, input: Input, outcome: Outcome) {
    match outcome
    case Running => false
    case Stopped => input.outside.canceled && FailsOn(w, hosts, store, input.outside, Canceled)
    case FailedWith(error) => !error.Canceled? && FailsOn(w, hosts, store, input.outside, error)
    case Crashed =>
      !Answered(input.answers) ||
      !Loads(w.chain, input.answers.node, Position(store) + 1, Position(store) + w.maxRange)
  }

  /**
   For every run, whatever the answers of the node and the behaviour of the handlers: each input is
   one block that is processed, until the run ends, and it ends only for one of the reasons of
   `EndsOn`. Every processed block is committed unless a handler suspected a reorg, in which case the
   run goes on from the same position. The store agrees with the hosts of the last commit, so a start
   from it rebuilds exactly those hosts and their filter; every commit holds what the handlers made of
   the triggers of its block; no block in which something is due for the hosts known when it was
   reached is skipped; the stored entities are what replaying all writes gives, up to Nulls.
   */
  method RunIndexer(indexer: Indexer, chain: ChainData, inputs: seq<Input>, maxRange: int, target: nat, limits: Limits,
                    ghost universe: set<Identity>)
    returns (outcome: Outcome, ghost turns: seq<Visit>, ghost last: seq<DataSource>)
    requires indexer.Valid() && NamesWithin(indexer.rt, Any(universe))
    requires 1 <= maxRange && 1 <= limits.maxEventOnlyRange && 1 <= limits.traceStep
    requires OfOneChain(chain) && forall i :: 0 <= i < |inputs| ==> Honest(chain, inputs[i].answers.node)
    modifies indexer
    ensures Sound(indexer.manifest, indexer.rt.templates, indexer.store, last)
    ensures outcome.Running? ==> indexer.Valid() && indexer.hosts == last && |turns| == |inputs|
    ensures var w := World(indexer.rt, indexer.hashes, |universe| + 1, chain, maxRange);
            && Story(w, old(indexer.store), indexer.store, last, turns)
            && (!outcome.Running? ==>
                  |turns| < |inputs| && EndsOn(w, last, indexer.store, inputs[|turns|], outcome))
    ensures OneEach(turns, inputs)
    ensures old(indexer.store).commits <= indexer.store.commits &&
            Replayed(old(indexer.store).entities, Since(old(indexer.store), indexer.store), indexer.store.entities)
  {
    turns, last := [], indexer.hosts;
    ghost var start, w := indexer.store, World(indexer.rt, indexer.hashes, |universe| + 1, chain, maxRange);
    StoryStart(w, start, last);
    var stream := OpenStream(indexer, maxRange, target, limits, chain);
    for i := 0 to |inputs|
      invariant indexer.Valid() && indexer.hosts == last
      invariant fresh(stream) && InStep(indexer, stream, chain) && stream.maxRange == maxRange
      invariant Story(w, start, indexer.store, last, turns)
      invariant |turns| == i && OneEach(turns, inputs)
    {
      ghost var before := turns;
      var next;
      next, turns := Turn(indexer, stream, chain, inputs[i], universe, w, start, turns);
      if next.Err? {
        StoryReplayed(w, start, indexer.store, last, turns);
        return next.error, turns, last;
      }
      OneMore(before, turns, inputs);
      last := indexer.hosts;
      if next.value {
        stream := OpenStream(indexer, maxRange, target, limits, chain);
      }
    }
    StoryReplayed(w, start, indexer.store, last, turns);
    outcome := Running;
  }

  /** The stream filters by the hosts of the indexer and has skipped nothing since its last block. */
  ghost predicate InStep(indexer: Indexer, stream: PollingBlockStream, chain: ChainData)
    reads indexer, stream
  {
    && stream.Valid() && stream.filter == indexer.filter
    && Ahead(chain, stream.filter, Position(indexer.store), stream.streamPtr, stream.pending)
    && EndsAt(Position(indexer.store), stream.streamPtr, stream.pending)
  }

  method OpenStream(indexer: Indexer, maxRange: int, target: nat, limits: Limits, ghost chain: ChainData)
    returns (stream: PollingBlockStream)
    requires indexer.Valid() && 1 <= maxRange && 1 <= limits.maxEventOnlyRange && 1 <= limits.traceStep
    ensures fresh(stream) && InStep(indexer, stream, chain) && stream.maxRange == maxRange
  {
    stream := new PollingBlockStream(Position(indexer.store), indexer.filter, maxRange, target, limits);
  }

  /**
   One turn of the loop: a poll, and the block it yields. The result says whether to restart, or why
   to end. A turn that goes on has processed one more block.
   */
  method Turn(indexer: Indexer, stream: PollingBlockStream, chain: ChainData, input: Input,
              ghost universe: set<Identity>, ghost w: World, ghost start: StoreState, ghost turns: seq<Visit>)
    returns (r: Result<bool, Outcome>, ghost turns': seq<Visit>)
    requires indexer.Valid() && NamesWithin(indexer.rt, Any(universe))
    requires w == World(indexer.rt, indexer.hashes, |universe| + 1, chain, stream.maxRange)
    requires OfOneChain(chain) && Honest(chain, input.answers.node) && InStep(indexer, stream, chain)
    requires Story(w, start, indexer.store, indexer.hosts, turns)
    modifies indexer, stream
    ensures r.Ok? ==> indexer.Valid() && Story(w, start, indexer.store, indexer.hosts, turns')
    ensures r.Ok? ==> |turns'| == |turns| + 1 && turns <= turns' && turns'[|turns|].outside == input.outside
    ensures r == Ok(false) ==> InStep(indexer, stream, chain)
    ensures r.Err? ==> indexer.store == old(indexer.store) && turns' == turns &&
                       EndsOn(w, old(indexer.hosts), indexer.store, input, r.error)
  {
    turns' := turns;
    ghost var store, hosts := indexer.store, indexer.hosts;
    var polled := stream.Poll(chain, input.answers, Position(indexer.store));
    match polled {
      case ScanError(_) =>
        r := Err(Crashed);
      case Yield(block) =>
        var processed;
        processed, turns' := VisitBlock(indexer, block, input.outside, universe, w, start, turns);
        match processed {
          case Err(Canceled) =>
            CanceledOutside(w, hosts, store, input.outside);
            r := Err(Stopped);
          case Err(error) => r := Err(FailedWith(error));
          case Ok(needsRestart) => r := Ok(needsRestart);
        }
    }
  }

  /** Processing is canceled only from outside. */
  lemma CanceledOutside(w: World, hosts: seq<DataSource>, store: StoreState, outside: Outside)
    requires FailsOn(w, hosts, store, outside, Canceled)
    ensures outside.canceled
  {
    var block: BlockWithTriggers :|
      var v := Visit(Position(store), hosts, store.entities, block, outside);
      VisitOk(w, v) && Fails(w, v, store, Canceled);
    var v := Visit(Position(store), hosts, store.entities, block, outside);
    var first := FirstPassOf(w.rt, v);
    var env := EnvOf(w.rt, w.hashes, outside);
    forall r: Round { StepNotCanceled(env, block.block.number, r); }
    if first.Ok? {
      RoundsNotCanceled(StepOf(env, block.block.number), Round(hosts, first.value), w.rounds);
    }
  }

  /** One block of a run, with what it adds to the story. */
  method VisitBlock(indexer: Indexer, block: BlockWithTriggers, outside: Outside, ghost universe: set<Identity>,
                    ghost w: World, ghost start: StoreState, ghost turns: seq<Visit>)
    returns (r: Result<bool, BlockError>, ghost turns': seq<Visit>)
    requires indexer.Valid() && NamesWithin(indexer.rt, Any(universe))
    requires w.rt == indexer.rt && w.hashes == indexer.hashes && w.rounds == |universe| + 1
    requires Position(indexer.store) < block.block.number && Genuine(w.chain, indexer.filter, block)
    requires NoneBetween(w.chain, indexer.filter, Position(indexer.store), block.block.number)
    requires Story(w, start, indexer.store, indexer.hosts, turns)
    modifies indexer
    ensures r.Ok? ==> indexer.Valid() && Story(w, start, indexer.store, indexer.hosts, turns')
    ensures r.Ok? ==> |turns'| == |turns| + 1 && turns <= turns' && turns'[|turns|].outside == outside
    ensures r.Err? ==> indexer.store == old(indexer.store) && turns' == turns &&
                       FailsOn(w, old(indexer.hosts), indexer.store, outside, r.error)
    ensures r == Ok(false) ==> indexer.filter == old(indexer.filter) && Position(indexer.store) == block.block.number
  {
    ghost var store := indexer.store;
    ghost var v := Visit(Position(store), indexer.hosts, store.entities, block, outside);
    assert indexer.filter == FilterOf(v.hosts, indexer.hashes);
    assert VisitOk(w, v);
    r := ProcessFound(indexer, block, outside, v, w, universe);
    turns' := turns;
    if r.Ok? {
      assert indexer.filter == FilterOf(indexer.hosts, indexer.hashes);
      StoryNext(w, start, store, turns, v, indexer.store, indexer.hosts);
      turns' := turns + [v];
    }
  }

  /** Between two visits there is nothing on the chain that a valid host of that time decodes. */
  lemma NothingDecodedIsSkipped(d: Decoder, w: World, v: Visit, i: nat, t: Trigger)
    requires VisitOk(w, v) && d.hashes == w.hashes && i < |v.hosts| && Valid(v.hosts[i])
    requires OfChain(w.chain, t) && v.before < t.BlockNumber() < v.block.block.number
    ensures MatchAndDecode(d, v.hosts[i], t.BlockNumber(), t) != Ok(true)
  {
    if MatchAndDecode(d, v.hosts[i], t.BlockNumber(), t) == Ok(true) {
      DecodedIsDue(d, v.hosts, i, w.chain, t);
    }
  }
}
