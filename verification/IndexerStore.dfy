/**
 What the store keeps of an indexer: its latest block, the rows of its dynamic data sources and
 the committed blocks (store/postgres/src/deployment_store.rs, deployment.rs and dynds.rs), and
 loading the data sources again (manager/src/indexer/loader.rs).

 A transaction happens as a whole or not at all. Rows are kept in the order of their ids.
 */
module IndexerStore {
  import opened Common
  import opened EthereumTypes
  import opened DataSources
  import opened EntityOps
  import opened EntityCaches
  import opened Handlers
  import opened IndexerRounds

  datatype Commit = Commit(ptr: BlockPtr, writes: seq<Write>, dataSources: seq<Stored>)

  /** `commits` is a record of what was committed; nothing reads it. */
  datatype StoreState = StoreState(ptr: Option<BlockPtr>, rows: seq<Stored>, entities: Store, commits: seq<Commit>)

  /** The block number of a row is that of the block that is committed. */
  function Insertable(dataSources: seq<Stored>, block: int): seq<Stored> {
    Map(dataSources, (s: Stored) => s.(creationBlock := Some(block)))
  }

  /** `entities` is what the modifications of the block make of the stored entities. */
  function TransactBlockOperations(store: StoreState, ptr: BlockPtr, entities: Store, writes: seq<Write>,
                                   dataSources: seq<Stored>, accepts: bool)
    : Result<StoreState, string>
  {
    if !accepts then Err("database error")
    else if exists i :: 0 <= i < |dataSources| && dataSources[i].source.address.None?
        then Err("dynamic data sources must have an address")
    else if store.ptr.Some? && store.ptr.value.number >= ptr.number then Err("duplicate block processing")
    else Ok(StoreState(Some(ptr), store.rows + Insertable(dataSources, ptr.number), entities,
        store.commits + [Commit(ptr, writes, dataSources)]))
  }

  // ---------- Stored entities ----------

  /** The operations on one entity, in the order they were written. */
  function OpsOn(writes: seq<Write>, k: EntityKey): seq<EntityOp> {
    if writes == [] then []
    else
      var last := writes[|writes| - 1];
      OpsOn(writes[..|writes| - 1], k) + if last.key == k then [last.op] else []
  }

  lemma {:induction false} OpsOnAppend(a: seq<Write>, b: seq<Write>, k: EntityKey)
    ensures OpsOn(a + b, k) == OpsOn(a, k) + OpsOn(b, k)
  {
    if b == [] {
      assert a + b == a;
    } else {
      OpsOnAppend(a, b[..|b| - 1], k);
      assert (a + b)[..|a + b| - 1] == a + b[..|b| - 1];
    }
  }

  /** The log of a cache that saw these writes. */
  function LogOfWrites(writes: seq<Write>): EntityCaches.Log {
    if writes == [] then map[]
    else
      var before, last := LogOfWrites(writes[..|writes| - 1]), writes[|writes| - 1];
      before[last.key := LogOf(before, last.key) + [last.op]]
  }

  lemma {:induction false} LogHoldsOps(writes: seq<Write>, k: EntityKey)
    ensures LogOf(LogOfWrites(writes), k) == OpsOn(writes, k)
  {
    if writes != [] {
      LogHoldsOps(writes[..|writes| - 1], k);
    }
  }

  /** The stored entities after a block with these writes. */
  function EntitiesAfter(entities: Store, writes: seq<Write>): Store {
    SavedAll(entities, LogOfWrites(writes))
  }

  /** The writes of a block go through its cache, and come out as modifications. */
  method ApplyWrites(entities: Store, writes: seq<Write>) returns (after: Store)
    ensures after == EntitiesAfter(entities, writes)
  {
    var cache := new EntityCache(entities);
    for i := 0 to |writes|
      invariant fresh(cache) && cache.Valid() && !cache.inHandler && cache.store == entities
      invariant cache.log == LogOfWrites(writes[..i])
    {
      assert writes[..i + 1][..i] == writes[..i];
      cache.Write(writes[i].key, writes[i].op);
    }
    assert writes[..|writes|] == writes;
    var mods := cache.AsModifications();
    after := ModifyAll(entities, mods);
  }

  function WritesOf(commits: seq<Commit>): seq<Write> {
    if commits == [] then [] else WritesOf(commits[..|commits| - 1]) + commits[|commits| - 1].writes
  }

  /** The entities are what replaying every write of the commits makes of them, up to Nulls. */
  ghost predicate Replayed(before: Store, commits: seq<Commit>, after: Store) {
    forall k :: StripOption(Lookup(after, k)) ==
                StripOption(Replay(OpsOn(WritesOf(commits), k), Lookup(before, k)))
  }

  /** The stored entities after these commits. */
  function EntitiesOf(before: Store, commits: seq<Commit>): Store {
    if commits == [] then before
    else EntitiesAfter(EntitiesOf(before, commits[..|commits| - 1]), commits[|commits| - 1].writes)
  }

  lemma EntitiesNext(before: Store, commits: seq<Commit>, c: Commit)
    ensures EntitiesOf(before, commits + [c]) == EntitiesAfter(EntitiesOf(before, commits), c.writes)
  {
    assert (commits + [c])[..|commits|] == commits;
  }

  lemma {:induction false} EntitiesAreReplayed(before: Store, commits: seq<Commit>)
    ensures Replayed(before, commits, EntitiesOf(before, commits))
  {
    if commits != [] {
      var rest, c := commits[..|commits| - 1], commits[|commits| - 1];
      EntitiesAreReplayed(before, rest);
      ReplayedNext(before, rest, EntitiesOf(before, rest), c);
      assert commits == rest + [c];
    }
  }

  lemma ReplayedNext(before: Store, commits: seq<Commit>, entities: Store, c: Commit)
    requires Replayed(before, commits, entities)
    ensures Replayed(before, commits + [c], EntitiesAfter(entities, c.writes))
  {
    assert (commits + [c])[..|commits|] == commits;
    forall k
      ensures StripOption(Lookup(EntitiesAfter(entities, c.writes), k)) ==
              StripOption(Replay(OpsOn(WritesOf(commits + [c]), k), Lookup(before, k)))
    {
      EntityNext(before, WritesOf(commits), entities, c.writes, k);
    }
  }

  lemma EntityNext(before: Store, done: seq<Write>, entities: Store, writes: seq<Write>, k: EntityKey)
    requires StripOption(Lookup(entities, k)) == StripOption(Replay(OpsOn(done, k), Lookup(before, k)))
    ensures StripOption(Lookup(EntitiesAfter(entities, writes), k)) ==
            StripOption(Replay(OpsOn(done + writes, k), Lookup(before, k)))
  {
    SavedAt(entities, LogOfWrites(writes), k);
    LogHoldsOps(writes, k);
    SavedAgreesUpToNulls(OpsOn(writes, k), Lookup(entities, k));
    ReplayUpToNulls(OpsOn(writes, k), Lookup(entities, k), Replay(OpsOn(done, k), Lookup(before, k)));
    OpsOnAppend(done, writes, k);
    ReplayAppend(OpsOn(done, k), OpsOn(writes, k), Lookup(before, k));
  }

  /** No commit leaves a Null behind in an entity it creates or replaces. */
  ghost predicate AllNullSafe(commits: seq<Commit>) {
    forall i, k :: 0 <= i < |commits| && OpsOn(commits[i].writes, k) != [] ==> NullSafe(OpsOn(commits[i].writes, k))
  }

  /** Then the stored entities are the replay of all writes exactly. */
  lemma {:induction false} EntitiesExact(before: Store, commits: seq<Commit>, k: EntityKey)
    requires AllNullSafe(commits)
    ensures Lookup(EntitiesOf(before, commits), k) == Replay(OpsOn(WritesOf(commits), k), Lookup(before, k))
  {
    if commits != [] {
      var rest, c := commits[..|commits| - 1], commits[|commits| - 1];
      EntitiesExact(before, rest, k);
      var entities, ops := EntitiesOf(before, rest), OpsOn(c.writes, k);
      SavedAt(entities, LogOfWrites(c.writes), k);
      LogHoldsOps(c.writes, k);
      if ops != [] {
        SavedExactIff(ops);
      }
      OpsOnAppend(WritesOf(rest), c.writes, k);
      ReplayAppend(OpsOn(WritesOf(rest), k), ops, Lookup(before, k));
    }
  }

  // ---------- Loading ----------

  ghost predicate InOrder(rows: seq<Stored>) {
    forall i, j :: 0 <= i < j < |rows| ==> NotAfter(rows[i].creationBlock, rows[j].creationBlock)
  }

  /** Puts a row behind all rows of its block and of earlier ones. */
  function Place(rows: seq<Stored>, row: Stored): (r: seq<Stored>)
    requires InOrder(rows)
    ensures InOrder(r)
    ensures forall i :: 0 <= i < |r| ==> r[i] == row || r[i] in rows
  {
    if rows == [] then [row]
    else if NotAfter(rows[|rows| - 1].creationBlock, row.creationBlock) then
      assert forall i :: 0 <= i < |rows| ==> NotAfter(rows[i].creationBlock, rows[|rows| - 1].creationBlock);
      rows + [row]
    else Place(rows[..|rows| - 1], row) + [rows[|rows| - 1]]
  }

  /** The rows ordered by block number and id. */
  function LoadOrder(rows: seq<Stored>): (r: seq<Stored>)
    ensures InOrder(r)
  {
    if rows == [] then [] else Place(LoadOrder(rows[..|rows| - 1]), rows[|rows| - 1])
  }

  lemma {:induction false} InOrderLoads(rows: seq<Stored>)
    requires InOrder(rows)
    ensures LoadOrder(rows) == rows
  {
    if rows != [] {
      InOrderLoads(rows[..|rows| - 1]);
    }
  }

  datatype LoadError = CannotRestore(error: DataSourceError) | OutOfOrder | CannotBuild

  function RestoreAll(templates: seq<Template>, rows: seq<Stored>): Result<seq<DataSource>, LoadError> {
    if rows == [] then Ok([])
    else
      var before := RestoreAll(templates, rows[..|rows| - 1]);
      if before.Err? then before
      else
        var ds := FromStored(templates, rows[|rows| - 1]);
        if ds.Err? then Err(CannotRestore(ds.error)) else Ok(before.value + [ds.value])
  }

  lemma {:induction false} RestoreAllAt(templates: seq<Template>, rows: seq<Stored>)
    requires RestoreAll(templates, rows).Ok?
    ensures |RestoreAll(templates, rows).value| == |rows|
    ensures forall i :: 0 <= i < |rows| ==> FromStored(templates, rows[i]) == Ok(RestoreAll(templates, rows).value[i])
  {
    if rows != [] {
      RestoreAllAt(templates, rows[..|rows| - 1]);
    }
  }

  lemma {:induction false} RestoreFailureSticks(templates: seq<Template>, rows: seq<Stored>, i: nat)
    requires i <= |rows| && RestoreAll(templates, rows[..i]).Err?
    ensures RestoreAll(templates, rows) == RestoreAll(templates, rows[..i])
  {
    if i < |rows| {
      assert rows[..|rows| - 1][..i] == rows[..i];
      RestoreFailureSticks(templates, rows[..|rows| - 1], i);
    } else {
      assert rows[..i] == rows;
    }
  }

  /** The next row fails to restore, or follows the ones before it. */
  lemma RestoreNext(templates: seq<Template>, rows: seq<Stored>, i: nat, dss: seq<DataSource>)
    requires InOrder(rows) && i < |rows| && RestoreAll(templates, rows[..i]) == Ok(dss)
    ensures var ds := FromStored(templates, rows[i]);
            && RestoreAll(templates, rows[..i + 1]) ==
               (if ds.Err? then Err(CannotRestore(ds.error)) else Ok(dss + [ds.value]))
            && (ds.Ok? ==> NotAfter(LastBlock(dss), ds.value.creationBlock))
  {
    assert rows[..i + 1][..i] == rows[..i];
    RestoreAllAt(templates, rows[..i]);
    if i > 0 {
      assert FromStored(templates, rows[i - 1]) == Ok(dss[i - 1]);
    }
  }

  /** The check that creation blocks do not fall never fails, because the rows come in order. */
  method LoadDynamicDataSources(templates: seq<Template>, rows: seq<Stored>)
    returns (r: Result<seq<DataSource>, LoadError>)
    ensures r == RestoreAll(templates, LoadOrder(rows))
    ensures r.Err? ==> r.error.CannotRestore?
  {
    var loaded := LoadOrder(rows);
    var dss: seq<DataSource> := [];
    for i := 0 to |loaded|
      invariant RestoreAll(templates, loaded[..i]) == Ok(dss)
    {
      RestoreNext(templates, loaded, i, dss);
      var ds := FromStored(templates, loaded[i]);
      if ds.Err? {
        RestoreFailureSticks(templates, loaded, i + 1);
        return Err(CannotRestore(ds.error));
      }
      if !NotAfter(LastBlock(dss), ds.value.creationBlock) {
        return Err(OutOfOrder);
      }
      dss := dss + [ds.value];
    }
    assert loaded[..|loaded|] == loaded;
    return Ok(dss);
  }

  // ---------- The store agrees with the hosts ----------

  ghost predicate Advancing(commits: seq<Commit>) {
    forall i, j :: 0 <= i < j < |commits| ==> commits[i].ptr.number < commits[j].ptr.number
  }

  ghost predicate NotBeyond(rows: seq<Stored>, ptr: Option<BlockPtr>) {
    forall i :: 0 <= i < |rows| ==>
             rows[i].creationBlock.Some? && ptr.Some? && rows[i].creationBlock.value <= ptr.value.number
  }

  ghost predicate HistorySound(store: StoreState) {
    && InOrder(store.rows) && NotBeyond(store.rows, store.ptr)
    && Advancing(store.commits)
    && (store.commits != [] ==> store.ptr == Some(store.commits[|store.commits| - 1].ptr))
  }

  /** The hosts are those of the manifest and then exactly the stored ones, none a duplicate. */
  ghost predicate Sound(manifest: seq<DataSource>, templates: seq<Template>, store: StoreState,
                        hosts: seq<DataSource>) {
    && manifest <= hosts
    && HistorySound(store)
    && store.rows == Map(hosts[|manifest|..], AsStored)
    && (forall i :: |manifest| <= i < |hosts| ==> Restorable(templates, hosts[i]))
    && FreshFrom(hosts, |manifest|)
  }

  /** Loading gives exactly the dynamic hosts, in the order they have. */
  lemma RebuildIsExact(manifest: seq<DataSource>, templates: seq<Template>, store: StoreState, hosts: seq<DataSource>)
    requires Sound(manifest, templates, store, hosts)
    ensures RestoreAll(templates, LoadOrder(store.rows)) == Ok(hosts[|manifest|..])
  {
    InOrderLoads(store.rows);
    RestoreStored(templates, hosts[|manifest|..]);
  }

  lemma {:induction false} RestoreStored(templates: seq<Template>, dss: seq<DataSource>)
    requires forall i :: 0 <= i < |dss| ==> Restorable(templates, dss[i])
    ensures RestoreAll(templates, Map(dss, AsStored)) == Ok(dss)
  {
    if dss != [] {
      var rest := dss[..|dss| - 1];
      RestoreStored(templates, rest);
      assert Map(dss, AsStored)[..|dss| - 1] == Map(rest, AsStored);
      assert dss == rest + [dss[|dss| - 1]];
    } else {
      assert Map(dss, AsStored) == [];
    }
  }

  lemma CommitKeepsHistory(store: StoreState, ptr: BlockPtr, entities: Store, writes: seq<Write>,
                           dataSources: seq<Stored>, accepts: bool)
    requires HistorySound(store) && TransactBlockOperations(store, ptr, entities, writes, dataSources, accepts).Ok?
    ensures HistorySound(TransactBlockOperations(store, ptr, entities, writes, dataSources, accepts).value)
  {
  }

  /** A committed block leaves the store in agreement with the hosts after its rounds. */
  lemma CommitKeepsSound(env: Env, universe: iset<Identity>, manifest: seq<DataSource>, store: StoreState,
                         hosts: seq<DataSource>,
                         ptr: BlockPtr, r: Round, entities: Store, accepts: bool)
    requires Sound(manifest, env.rt.templates, store, hosts)
    requires RoundInv(env, universe, ptr.number, hosts, |manifest|, r)
    requires TransactBlockOperations(store, ptr, entities, r.state.writes, r.state.dataSources, accepts).Ok?
    ensures var done := TransactBlockOperations(store, ptr, entities, r.state.writes, r.state.dataSources, accepts);
            Sound(manifest, env.rt.templates, done.value, r.hosts)
  {
    CommitKeepsHistory(store, ptr, entities, r.state.writes, r.state.dataSources, accepts);
    RowsOfHosts(env, universe, ptr.number, manifest, store.rows, hosts, r);
  }

  /** The rows of a block follow those before, and all dynamic hosts stay restorable. */
  lemma RowsOfHosts(env: Env, universe: iset<Identity>, block: int, manifest: seq<DataSource>, rows: seq<Stored>,
                    hosts: seq<DataSource>, r: Round)
    requires manifest <= hosts && rows == Map(hosts[|manifest|..], AsStored)
    requires forall i :: |manifest| <= i < |hosts| ==> Restorable(env.rt.templates, hosts[i])
    requires RoundInv(env, universe, block, hosts, |manifest|, r)
    ensures rows + Insertable(r.state.dataSources, block) == Map(r.hosts[|manifest|..], AsStored)
    ensures forall i :: |manifest| <= i < |r.hosts| ==> Restorable(env.rt.templates, r.hosts[i])
  {
    var added := r.hosts[|hosts|..];
    assert Insertable(r.state.dataSources, block) == Map(added, AsStored);
    assert r.hosts[|manifest|..] == hosts[|manifest|..] + added;
    forall i | |manifest| <= i < |r.hosts| ensures Restorable(env.rt.templates, r.hosts[i]) {
      assert i >= |hosts| ==> r.hosts[i] == added[i - |hosts|];
    }
  }
}
