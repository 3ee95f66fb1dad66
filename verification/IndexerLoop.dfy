/**
 The indexer's main loop (manager/src/indexer/instance_manager.rs and instance.rs): starting from
 the store, processing one block, and running over the events of its block streams.

 Canceling, the search for triggers, building hosts, reading back the entity changes and the
 database are inputs of each block.
 */
module IndexerLoop {
  import opened Common
  import opened EthereumTypes
  import opened DataSources
  import opened TriggerFilters
  import opened EntityCaches
  import opened Handlers
  import opened IndexerRounds
  import opened IndexerStore

  datatype Outside = Outside(
    rescan: TriggerFilter -> Result<seq<Trigger>, string>,
    canBuild: DataSource -> bool,
    canceled: bool,
    changesReadable: bool,
    databaseAccepts: bool)

  function EnvOf(rt: Runtime, hashes: Hashes, outside: Outside): Env {
    Env(rt, hashes, outside.rescan, outside.canBuild)
  }

  /** What happens after the rounds of a block: the store that is committed, or why none is. */
  function Finish(last: Result<Round, BlockError>, ptr: BlockPtr, outside: Outside, store: StoreState)
    : Result<StoreState, BlockError> {
    if last.Err? then Err(last.error)
    else
      var state := last.value.state;
      if state.errors != [] then Err(Deterministic(state.errors[0]))
      else if outside.canceled then Err(Canceled)
      else if !outside.changesReadable then Err(Failed("cannot read changes"))
      else
        var done := TransactBlockOperations(store, ptr, EntitiesAfter(store.entities, state.writes), state.writes,
            state.dataSources, outside.databaseAccepts);
        if done.Err? then Err(Failed(done.error)) else Ok(done.value)
  }

  /** Committing adds one entry for this block to the log and keeps the others. */
  lemma FinishWritesOnce(last: Result<Round, BlockError>, ptr: BlockPtr, outside: Outside, store: StoreState)
    requires Finish(last, ptr, outside, store).Ok?
    ensures last.Ok? && last.value.state.errors == [] && !outside.canceled
    ensures Finish(last, ptr, outside, store).value.commits ==
            store.commits + [Commit(ptr, last.value.state.writes, last.value.state.dataSources)]
    ensures Finish(last, ptr, outside, store).value.ptr == Some(ptr)
    ensures Finish(last, ptr, outside, store).value.entities ==
            EntitiesAfter(store.entities, last.value.state.writes)
    ensures store.ptr.Some? ==> store.ptr.value.number < ptr.number
  {
  }

  /** The state after the first pass over the block's triggers meets the invariant of the rounds. */
  lemma FirstPass(env: Env, universe: iset<Identity>, block: int, hosts: seq<DataSource>, base: nat,
                  triggers: seq<Trigger>, stored: Store)
    requires NamesWithin(env.rt, universe) && base <= |hosts| && FreshFrom(hosts, base)
    requires RunTriggers(env.rt, block, hosts, triggers, Fresh(stored)).Ok?
    ensures RoundInv(env, universe, block, hosts, base, Round(hosts,
            RunTriggers(env.rt, block, hosts, triggers, Fresh(stored)).value))
  {
    RunTriggersGrows(env.rt, universe, block, hosts, triggers, Fresh(stored));
    var st := RunTriggers(env.rt, block, hosts, triggers, Fresh(stored)).value;
    assert st.created[0..] == st.created;
    assert hosts[|hosts|..] == [];
    assert Map(hosts[|hosts|..], AsStored) == [];
  }

  /** The hosts and the filter that a start from this store gives. */
  method Rebuild(manifest: seq<DataSource>, templates: seq<Template>, hashes: Hashes, store: StoreState,
                 canBuild: DataSource -> bool)
    returns (r: Result<(seq<DataSource>, TriggerFilter), LoadError>)
    ensures var dynamic := RestoreAll(templates, LoadOrder(store.rows));
            && (r.Ok? <==> dynamic.Ok? && CanBuildAll(manifest + dynamic.value, canBuild))
            && (r.Ok? ==> r.value == (manifest + dynamic.value, FilterOf(manifest + dynamic.value, hashes)))
  {
    var dynamic := LoadDynamicDataSources(templates, store.rows);
    if dynamic.Err? {
      return Err(dynamic.error);
    }
    var all := manifest + dynamic.value;
    var filter := FromDataSources(all, hashes);
    var buildable := BuildAll(all, canBuild);
    if !buildable {
      return Err(CannotBuild);
    }
    return Ok((all, filter));
  }

  method BuildAll(dss: seq<DataSource>, canBuild: DataSource -> bool) returns (ok: bool)
    ensures ok <==> CanBuildAll(dss, canBuild)
  {
    for i := 0 to |dss|
      invariant CanBuildAll(dss[..i], canBuild)
    {
      if !canBuild(dss[i]) {
        return false;
      }
    }
    assert dss[..|dss|] == dss;
    return true;
  }

  predicate CanBuildAll(dss: seq<DataSource>, canBuild: DataSource -> bool) {
    forall i :: 0 <= i < |dss| ==> canBuild(dss[i])
  }

  class Indexer {
    const manifest: seq<DataSource>
    const rt: Runtime
    const hashes: Hashes
    var hosts: seq<DataSource>
    var filter: TriggerFilter
    var store: StoreState

    /** Rebuilding from the store would give these hosts, and the filter is theirs. */
    ghost predicate Valid()
      reads this
    {
      && TemplatesRestore(rt.templates)
      && Sound(manifest, rt.templates, store, hosts)
      && filter == FilterOf(hosts, hashes)
    }

    constructor (manifest: seq<DataSource>, rt: Runtime, hashes: Hashes, store: StoreState, hosts: seq<DataSource>,
                 filter: TriggerFilter)
      ensures this.manifest == manifest && this.rt == rt && this.hashes == hashes
      ensures this.store == store && this.hosts == hosts && this.filter == filter
    {
      this.manifest := manifest;
      this.rt := rt;
      this.hashes := hashes;
      this.store := store;
      this.hosts := hosts;
      this.filter := filter;
    }

    /** A store that agrees with some list of hosts gives back that list and its filter. */
    static method Start(manifest: seq<DataSource>, rt: Runtime, hashes: Hashes, store: StoreState,
                        canBuild: DataSource -> bool,
                        ghost last: seq<DataSource>)
      returns (r: Result<Indexer, LoadError>)
      ensures r.Ok? ==> fresh(r.value) && r.value.store == store && r.value.manifest == manifest &&
                        r.value.rt == rt && r.value.hashes == hashes
      ensures var dynamic := RestoreAll(rt.templates, LoadOrder(store.rows));
              r.Ok? <==> dynamic.Ok? && CanBuildAll(manifest + dynamic.value, canBuild)
      ensures Sound(manifest, rt.templates, store, last) ==> (r.Ok? <==> CanBuildAll(last, canBuild))
      ensures r.Ok? && Sound(manifest, rt.templates, store, last) ==> r.value.hosts == last
      ensures r.Ok? && Sound(manifest, rt.templates, store, last) && TemplatesRestore(rt.templates) ==> r.value.Valid()
    {
      var built := Rebuild(manifest, rt.templates, hashes, store, canBuild);
      if Sound(manifest, rt.templates, store, last) {
        RebuildIsExact(manifest, rt.templates, store, last);
        assert manifest + last[|manifest|..] == last;
      }
      if built.Err? {
        return Err(built.error);
      }
      var indexer := new Indexer(manifest, rt, hashes, store, built.value.0, built.value.1);
      return Ok(indexer);
    }

    method AddDynamicDataSource(ds: DataSource, canBuild: DataSource -> bool) returns (r: Result<bool, BlockError>)
      modifies this`hosts
      ensures r == Err(Panicked) <==> !NotAfter(LastBlock(old(hosts)), ds.creationBlock)
      ensures r == Err(Failed("cannot build host")) <==>
                NotAfter(LastBlock(old(hosts)), ds.creationBlock) && !canBuild(ds)
      ensures r.Ok? <==> NotAfter(LastBlock(old(hosts)), ds.creationBlock) && canBuild(ds)
      ensures r.Ok? ==> r.value == !Hosted(old(hosts), ds)
      ensures hosts == if r == Ok(true) then old(hosts) + [ds] else old(hosts)
    {
      if !NotAfter(LastBlock(hosts), ds.creationBlock) {
        return Err(Panicked);
      }
      if !canBuild(ds) {
        return Err(Failed("cannot build host"));
      }
      if Hosted(hosts, ds) {
        return Ok(false);
      }
      hosts := hosts + [ds];
      return Ok(true);
    }

    method CreateDynamicDataSources(infos: seq<TemplateInfo>, outside: Outside)
      returns (r: Result<seq<DataSource>, BlockError>)
      modifies this`hosts
      ensures r == Created(EnvOf(rt, hashes, outside), old(hosts), infos)
      ensures r.Ok? ==> hosts == old(hosts) + r.value
    {
      var dss: seq<DataSource> := [];
      ghost var env := EnvOf(rt, hashes, outside);
      ghost var start := hosts;
      for i := 0 to |infos|
        invariant Created(env, start, infos[..i]) == Ok(dss)
        invariant hosts == start + dss
      {
        CreatedNext(env, start, infos, i, dss);
        var ds := FromTemplate(infos[i], rt.parseAddress);
        if ds.Err? {
          return Err(Failed("cannot instantiate template"));
        }
        var added := AddDynamicDataSource(ds.value, outside.canBuild);
        if added.Err? {
          return Err(added.error);
        }
        if added.value {
          dss := dss + [ds.value];
        }
      }
      assert infos[..|infos|] == infos;
      return Ok(dss);
    }

    method PersistDynamicDataSources(dss: seq<DataSource>, state: BlockState, ghost before: seq<DataSource>)
      returns (r: BlockState)
      requires filter == FilterOf(before, hashes)
      modifies this`filter
      ensures r == state.(dataSources := state.dataSources + Map(dss, AsStored))
      ensures filter == FilterOf(before + dss, hashes)
    {
      var stored := state.dataSources;
      for i := 0 to |dss|
        invariant stored == state.dataSources + Map(dss, AsStored)[..i]
      {
        stored := stored + [AsStored(dss[i])];
      }
      r := state.(dataSources := stored);
      var f := Extend(filter, dss, hashes);
      ExtendIsAppend(before, dss, f, hashes);
      filter := f;
    }

    /** One round: new hosts, their triggers in this block, and their handlers. */
    method OneRound(block: int, state: BlockState, outside: Outside) returns (r: Result<BlockState, BlockError>)
      requires filter == FilterOf(hosts, hashes)
      modifies this`hosts, this`filter
      ensures var step := Step(EnvOf(rt, hashes, outside), block, Round(old(hosts), state));
              if r.Ok? then step == Ok(Round(hosts, r.value)) else step == Err(r.error)
      ensures r.Ok? ==> filter == FilterOf(hosts, hashes)
    {
      ghost var before := hosts;
      var added := CreateDynamicDataSources(state.created, outside);
      if added.Err? {
        return Err(added.error);
      }
      var wanted := FromDataSources(added.value, hashes);
      var triggers := outside.rescan(wanted);
      if triggers.Err? {
        return Err(Failed(triggers.error));
      }
      var drained := PersistDynamicDataSources(added.value, state.(created := []), before);
      var ran := ProcessTriggers(rt, block, added.value, triggers.value, drained);
      match ran {
        case Err(PossibleReorg(message)) => return Err(Failed(message));
        case Err(Unknown(message)) => return Err(Failed(message));
        case Ok(next) => return Ok(next);
      }
    }

    /** The rounds of a block end when the handlers can name only finitely many data sources. */
    method RunRounds(block: int, state: BlockState, outside: Outside, ghost universe: set<Identity>)
      returns (r: Result<BlockState, BlockError>)
      requires filter == FilterOf(hosts, hashes)
      requires TemplatesRestore(rt.templates) && NamesWithin(rt, Any(universe))
      requires |manifest| <= |hosts| && RoundInv(EnvOf(rt, hashes, outside), Any(universe), block, hosts, |manifest|,
               Round(hosts, state))
      modifies this`hosts, this`filter
      ensures Rounds(StepOf(EnvOf(rt, hashes, outside), block), Round(old(hosts), state), |universe| + 1) ==
              if r.Ok? then Ok(Round(hosts, r.value)) else Err(r.error)
      ensures r.Ok? ==> filter == FilterOf(hosts, hashes) && r.value.created == []
    {
      ghost var env, first, limit := EnvOf(rt, hashes, outside), Round(hosts, state), |universe| + 1;
      ghost var last := Rounds(StepOf(env, block), first, limit);
      RoundsEnd(env, universe, block, hosts, |manifest|, first);
      ghost var n := 0;
      var current := state;
      while current.created != []
        invariant n <= limit
        invariant Rounds(StepOf(env, block), first, n) == Ok(Round(hosts, current))
        invariant filter == FilterOf(hosts, hashes)
        decreases limit - n
      {
        RoundsNext(StepOf(env, block), first, n, limit, Round(hosts, current));
        var next := OneRound(block, current, outside);
        n := n + 1;
        if next.Err? {
          return Err(next.error);
        }
        current := next.value;
      }
      SettledStays(StepOf(env, block), first, n, limit);
      return Ok(current);
    }

    /**
     Processes a block. A suspected reorg in the first pass changes nothing and asks for a restart.
     Otherwise the store gets one commit at the end, or none at all, and after a commit it agrees
     with the hosts and the filter again.
     */
    method ProcessBlock(ptr: BlockPtr, triggers: seq<Trigger>, outside: Outside, ghost universe: set<Identity>)
      returns (r: Result<bool, BlockError>)
      requires Valid() && NamesWithin(rt, Any(universe))
      modifies this
      ensures r.Ok? ==> Valid() && old(hosts) <= hosts
      ensures r.Err? ==> store == old(store)
      ensures r == Ok(false) ==> hosts == old(hosts)
      ensures match RunTriggers(rt, ptr.number, old(hosts), triggers, Fresh(old(store).entities))
              case Err(PossibleReorg(_)) => r == Ok(true) && hosts == old(hosts) && filter == old(filter) &&
                store == old(store)
              case Err(Unknown(message)) => r == Err(Failed(message))
              case Ok(first) =>
                var last := Rounds(StepOf(EnvOf(rt, hashes, outside), ptr.number), Round(old(hosts), first),
                    |universe| + 1);
                match Finish(last, ptr, outside, old(store))
                case Err(error) => r == Err(error)
                case Ok(committed) => r == Ok(first.created != []) && store == committed && hosts == last.value.hosts
    {
      var first := ProcessTriggers(rt, ptr.number, hosts, triggers, Fresh(store.entities));
      match first {
        case Err(Unknown(message)) => return Err(Failed(message));
        case Err(PossibleReorg(_)) => return Ok(true);
        case Ok(state) =>
          FirstPass(EnvOf(rt, hashes, outside), Any(universe), ptr.number, hosts, |manifest|, triggers, store.entities);
          r := ProcessCreated(ptr, state, outside, universe);
      }
    }

    /** The part of processing a block that follows the first pass. */
    method ProcessCreated(ptr: BlockPtr, first: BlockState, outside: Outside, ghost universe: set<Identity>)
      returns (r: Result<bool, BlockError>)
      requires Valid() && NamesWithin(rt, Any(universe))
      requires RoundInv(EnvOf(rt, hashes, outside), Any(universe), ptr.number, hosts, |manifest|, Round(hosts, first))
      modifies this
      ensures r.Ok? ==> Valid() && old(hosts) <= hosts
      ensures r.Err? ==> store == old(store)
      ensures r == Ok(false) ==> hosts == old(hosts)
      ensures var last := Rounds(StepOf(EnvOf(rt, hashes, outside), ptr.number), Round(old(hosts), first),
              |universe| + 1);
              match Finish(last, ptr, outside, old(store))
              case Err(error) => r == Err(error)
              case Ok(committed) => r == Ok(first.created != []) && store == committed && hosts == last.value.hosts
    {
      ghost var env, before, start := EnvOf(rt, hashes, outside), hosts, store;
      var needsRestart := first.created != [];
      var ran := RunRounds(ptr.number, first, outside, universe);
      if ran.Err? {
        return Err(ran.error);
      }
      RoundsKeep(env, Any(universe), ptr.number, before, |manifest|, Round(before, first), |universe| + 1);
      if !needsRestart {
        SettledStays(StepOf(env, ptr.number), Round(before, first), 0, |universe| + 1);
      }
      r := CommitBlock(ptr, ran.value, outside, needsRestart);
      if r.Ok? {
        CommitKeepsSound(env, Any(universe), manifest, start, before, ptr, Round(hosts, ran.value),
                         EntitiesAfter(start.entities, ran.value.writes), outside.databaseAccepts);
      }
    }

    method CommitBlock(ptr: BlockPtr, state: BlockState, outside: Outside, needsRestart: bool)
      returns (r: Result<bool, BlockError>)
      modifies this`store
      ensures match Finish(Ok(Round(hosts, state)), ptr, outside, old(store))
              case Err(error) => r == Err(error) && store == old(store)
              case Ok(committed) => r == Ok(needsRestart) && store == committed
    {
      if state.errors != [] {
        return Err(Deterministic(state.errors[0]));
      }
      if outside.canceled {
        return Err(Canceled);
      }
      if !outside.changesReadable {
        return Err(Failed("cannot read changes"));
      }
      var entities := ApplyWrites(store.entities, state.writes);
      var done := TransactBlockOperations(store, ptr, entities, state.writes, state.dataSources,
                                          outside.databaseAccepts);
      if done.Err? {
        return Err(Failed(done.error));
      }
      store := done.value;
      return Ok(needsRestart);
    }
  }
}
