/**
 The entity cache of one block (`EntityCache` in massbit/src/components/store.rs): handlers write
 operations, a failed handler's writes are discarded, and at the end of the block at most one
 modification per entity goes to the store.
 */
module EntityCaches {
  import opened Common
  import opened EntityOps

  datatype EntityKey = EntityKey(indexerId: string, entityType: string, entityId: string)

  datatype Modification =
    | InsertEntity(key: EntityKey, data: Entity)
    | OverwriteEntity(key: EntityKey, data: Entity)
    | RemoveEntity(key: EntityKey)

  type Ops = map<EntityKey, EntityOp>
  type Log = map<EntityKey, seq<EntityOp>>
  type Store = map<EntityKey, Entity>

  function Lookup(store: Store, k: EntityKey): Option<Entity> {
    if k in store then Some(store[k]) else None
  }

  function LogOf(log: Log, k: EntityKey): seq<EntityOp> {
    if k in log then log[k] else []
  }

  /** `ops` holds the compaction of what was written to each key. */
  ghost predicate Compacts(ops: Ops, log: Log) {
    && ops.Keys == log.Keys
    && forall k :: k in log ==> log[k] != [] && ops[k] == Compact(log[k])
  }

  function Written(ops: Ops, k: EntityKey, op: EntityOp): Ops {
    ops[k := if k in ops then Accumulated(ops[k], op) else op]
  }

  function ApplyPending(ops: Ops, k: EntityKey, e: Option<Entity>): Option<Entity> {
    if k in ops then ApplyTo(ops[k], e) else e
  }

  /** Writing one compacted log after another compacts their concatenation. */
  lemma WrittenCompacts(ops: Ops, log: Log, k: EntityKey, more: seq<EntityOp>)
    requires Compacts(ops, log) && more != []
    ensures Compacts(Written(ops, k, Compact(more)), log[k := LogOf(log, k) + more])
  {
    if k in log {
      CompactAppend(log[k], more);
    } else {
      assert [] + more == more;
    }
  }

  function ModificationFor(k: EntityKey, current: Option<Entity>, op: EntityOp): Option<Modification> {
    match (current, op)
    case (None, Remove) => None
    case (None, _) => Some(InsertEntity(k, MergedRemovingNulls(map[], op.data)))
    case (Some(e), Update(data)) =>
      var merged := MergedRemovingNulls(e, data);
      if e == merged then None else Some(OverwriteEntity(k, merged))
    case (Some(e), Overwrite(data)) => if e == data then None else Some(OverwriteEntity(k, data))
    case (Some(_), Remove) => Some(RemoveEntity(k))
  }

  function Modify(store: Store, m: Modification): Store {
    match m
    case InsertEntity(k, data) => store[k := data]
    case OverwriteEntity(k, data) => store[k := data]
    case RemoveEntity(k) => store - {k}
  }

  function ModifyAll(store: Store, mods: seq<Modification>): Store {
    if mods == [] then store else Modify(ModifyAll(store, mods[..|mods| - 1]), mods[|mods| - 1])
  }

  /** What the store holds after an operation: a new entity is stored without its Nulls. */
  function Outcome(e: Option<Entity>, op: EntityOp): Option<Entity> {
    if e.None? then StripOption(ApplyTo(op, e)) else ApplyTo(op, e)
  }

  /** What the store holds after all operations on an entity. */
  function Saved(ops: seq<EntityOp>, e: Option<Entity>): Option<Entity> {
    if ops == [] then e else Outcome(e, Compact(ops))
  }

  function SavedAll(store: Store, log: Log): Store {
    map k | k in store.Keys + log.Keys && Saved(LogOf(log, k), Lookup(store, k)).Some? ::
      Saved(LogOf(log, k), Lookup(store, k)).value
  }

  lemma SavedAt(store: Store, log: Log, k: EntityKey)
    ensures Lookup(SavedAll(store, log), k) == Saved(LogOf(log, k), Lookup(store, k))
  {
  }

  lemma SavedAgreesUpToNulls(ops: seq<EntityOp>, e: Option<Entity>)
    ensures StripOption(Saved(ops, e)) == StripOption(Replay(ops, e))
  {
    if ops != [] {
      var after := ApplyTo(Compact(ops), e);
      CompactAgreesUpToNulls(ops, e);
      if after.Some? {
        assert Strip(Strip(after.value)) == Strip(after.value);
      }
    }
  }

  /** An entity that these operations create has no attribute set to Null in the end. */
  predicate CreatesNoNull(ops: seq<EntityOp>) {
    var created := Replay(ops, None);
    created.Some? ==> Nulls(created.value) == {}
  }

  predicate NullSafe(ops: seq<EntityOp>) {
    CreatesNoNull(ops) && (OnlyUpdates(ops) || Lingering(ops) == {})
  }

  /** A new entity is stored as replayed exactly if it is created without Nulls. */
  lemma SavedNew(ops: seq<EntityOp>)
    requires ops != []
    ensures Saved(ops, None) == Replay(ops, None) <==> CreatesNoNull(ops)
  {
    CompactAgreesUpToNulls(ops, None);
    var r := Replay(ops, None);
    if r.Some? {
      assert Strip(r.value) == r.value <==> Nulls(r.value) == {};
    }
  }

  /** An existing entity is stored as replayed if nothing lingers, or if it is only updated. */
  lemma SavedExisting(ops: seq<EntityOp>, e: Entity)
    requires ops != []
    ensures Saved(ops, Some(e)) == Replay(ops, Some(e)) <==> OnlyUpdates(ops) || Lingering(ops) == {}
  {
    CompactKind(ops);
    if OnlyUpdates(ops) {
      UpdatesOnEntity(ops, e);
    } else {
      ReplayIsCompactWithoutLingering(ops, Some(e));
      if !Compact(ops).Remove? {
        var m, gone := Compact(ops).data, Lingering(ops);
        assert m - gone == m <==> gone == {};
      }
    }
  }

  /**
   What is stored is exactly the replay, whatever was stored before, if and only if an entity that the
   operations create ends without Nulls, and they are all updates or no Null lingers.
   */
  lemma SavedExactIff(ops: seq<EntityOp>)
    requires ops != []
    ensures (forall e :: Saved(ops, e) == Replay(ops, e)) <==> NullSafe(ops)
  {
    SavedNew(ops);
    SavedExisting(ops, map[]);
    forall e: Option<Entity> | NullSafe(ops) ensures Saved(ops, e) == Replay(ops, e) {
      if e.Some? {
        SavedExisting(ops, e.value);
      }
    }
  }

  lemma SameStore(a: Store, b: Store)
    requires forall k :: Lookup(a, k) == Lookup(b, k)
    ensures a == b
  {
    forall k ensures k in a <==> k in b {
      assert Lookup(a, k) == Lookup(b, k);
    }
    forall k | k in a ensures a[k] == b[k] {
      assert Lookup(a, k) == Lookup(b, k);
    }
  }

  lemma ModificationAgrees(store: Store, k: EntityKey, op: EntityOp)
    ensures var m, after := ModificationFor(k, Lookup(store, k), op), Outcome(Lookup(store, k), op);
            && (m.None? ==> Lookup(store, k) == after)
            && (m.Some? ==> m.value.key == k && Lookup(Modify(store, m.value), k) == after != Lookup(store, k))
  {
    if k !in store && !op.Remove? {
      assert MergedRemovingNulls(map[], op.data) == Strip(op.data);
    }
  }

  /** The keys of `updates` outside `todo` have been turned into modifications. */
  ghost predicate Progress(store: Store, updates: Ops, todo: set<EntityKey>, mods: seq<Modification>, now: Store) {
    && (forall i :: 0 <= i < |mods| ==> mods[i].key in updates && mods[i].key !in todo)
    && (forall i, j :: 0 <= i < j < |mods| ==> mods[i].key != mods[j].key)
    && (forall k :: k in todo || k !in updates ==> Lookup(now, k) == Lookup(store, k))
    && (forall i :: 0 <= i < |mods| ==> Lookup(now, mods[i].key) != Lookup(store, mods[i].key))
    && (forall k :: k in updates && k !in todo ==>
          Lookup(now, k) == Outcome(Lookup(store, k), updates[k]))
  }

  lemma ProgressStep(store: Store, updates: Ops, todo: set<EntityKey>, mods: seq<Modification>, now: Store,
                     k: EntityKey)
    requires Progress(store, updates, todo, mods, now) && k in todo && k in updates
    ensures var m := ModificationFor(k, Lookup(store, k), updates[k]);
            if m.None? then Progress(store, updates, todo - {k}, mods, now)
            else Progress(store, updates, todo - {k}, mods + [m.value], Modify(now, m.value))
  {
    ModificationAgrees(store, k, updates[k]);
    var m := ModificationFor(k, Lookup(store, k), updates[k]);
    if m.Some? {
      assert Lookup(Modify(now, m.value), k) == Lookup(Modify(store, m.value), k);
      forall j | j != k ensures Lookup(Modify(now, m.value), j) == Lookup(now, j) {
      }
    }
  }

  /** What was written to `k`, in the block's log and then in the handler's. */
  function Total(log: Log, handlerLog: Log, k: EntityKey): seq<EntityOp> {
    LogOf(log, k) + LogOf(handlerLog, k)
  }

  lemma MoveKeepsTotal(log: Log, handlerLog: Log, k: EntityKey, j: EntityKey)
    requires k in handlerLog
    ensures Total(log[k := LogOf(log, k) + handlerLog[k]], handlerLog - {k}, j) == Total(log, handlerLog, j)
  {
  }

  class EntityCache {
    const store: Store
    var updates: Ops
    var handlerUpdates: Ops
    var inHandler: bool
    /** Every operation written outside a handler or by a handler that succeeded. */
    ghost var log: Log
    /** The operations of the running handler. */
    ghost var handlerLog: Log

    ghost predicate Valid()
      reads this
    {
      && Compacts(updates, log)
      && Compacts(handlerUpdates, handlerLog)
      && (!inHandler ==> handlerUpdates == map[])
    }

    constructor (store: Store)
      ensures Valid() && this.store == store && !inHandler && log == map[]
    {
      this.store := store;
      updates, handlerUpdates, inHandler := map[], map[], false;
      log, handlerLog := map[], map[];
    }

    method EnterHandler()
      requires Valid() && !inHandler
      modifies this`inHandler
      ensures Valid() && inHandler && handlerLog == map[]
    {
      inHandler := true;
    }

    /**
     Reads through the pending operations: what the compaction of each layer makes of the stored
     entity. That is what replaying every write would show, up to Nulls, and exactly if none lingers.
     */
    method Get(k: EntityKey) returns (r: Option<Entity>)
      requires Valid()
      ensures r == Folded(LogOf(handlerLog, k), Folded(LogOf(log, k), Lookup(store, k)))
      ensures StripOption(r) == StripOption(Replay(Total(log, handlerLog, k), Lookup(store, k)))
      ensures Lingering(LogOf(log, k)) == {} && Lingering(LogOf(handlerLog, k)) == {} ==>
                r == Replay(Total(log, handlerLog, k), Lookup(store, k))
    {
      r := Lookup(store, k);
      if k in updates {
        r := ApplyTo(updates[k], r);
      }
      if k in handlerUpdates {
        r := ApplyTo(handlerUpdates[k], r);
      }
      LayersAgree(updates, log, handlerUpdates, handlerLog, k, Lookup(store, k));
      LayersExact(LogOf(log, k), LogOf(handlerLog, k), Lookup(store, k));
    }

    method Write(k: EntityKey, op: EntityOp)
      requires Valid()
      modifies this`updates, this`handlerUpdates, this`log, this`handlerLog
      ensures Valid()
      ensures inHandler ==> log == old(log) && handlerLog == old(handlerLog)[k := LogOf(old(handlerLog), k) + [op]]
      ensures !inHandler ==> handlerLog == old(handlerLog) && log == old(log)[k := LogOf(old(log), k) + [op]]
    {
      assert Compact([op]) == op;
      if inHandler {
        WrittenCompacts(handlerUpdates, handlerLog, k, [op]);
        handlerUpdates := Written(handlerUpdates, k, op);
        handlerLog := handlerLog[k := LogOf(handlerLog, k) + [op]];
      } else {
        WrittenCompacts(updates, log, k, [op]);
        updates := Written(updates, k, op);
        log := log[k := LogOf(log, k) + [op]];
      }
    }

    /** Moves the handler's operations to the block's, in the arbitrary order of a hash map. */
    method ExitHandler()
      requires Valid() && inHandler
      modifies this
      ensures Valid() && !inHandler
      ensures forall k :: LogOf(log, k) == Total(old(log), old(handlerLog), k)
    {
      inHandler := false;
      ghost var log0, moved := log, handlerLog;
      while handlerUpdates != map[]
        invariant !inHandler && Compacts(updates, log) && Compacts(handlerUpdates, handlerLog)
        invariant forall k :: Total(log, handlerLog, k) == Total(log0, moved, k)
        decreases handlerUpdates.Keys
      {
        var k :| k in handlerUpdates;
        WrittenCompacts(updates, log, k, handlerLog[k]);
        forall j { MoveKeepsTotal(log, handlerLog, k, j); }
        updates := Written(updates, k, handlerUpdates[k]);
        log := log[k := LogOf(log, k) + handlerLog[k]];
        handlerUpdates, handlerLog := handlerUpdates - {k}, handlerLog - {k};
      }
      assert forall k :: LogOf(log, k) == Total(log, handlerLog, k);
    }

    /** A failed handler leaves no trace. */
    method ExitHandlerAndDiscardChanges()
      requires Valid() && inHandler
      modifies this
      ensures Valid() && !inHandler && log == old(log) && updates == old(updates) && handlerLog == map[]
    {
      inHandler := false;
      handlerUpdates := map[];
      handlerLog := map[];
    }

    /**
     At most one modification per entity, each of which really changes it; applied to the store they
     give what the compaction of the kept writes makes of each entity, new ones without Nulls. That
     is what replaying every kept write would give, up to Nulls.
     */
    method AsModifications() returns (mods: seq<Modification>)
      requires Valid() && !inHandler
      ensures forall i, j :: 0 <= i < j < |mods| ==> mods[i].key != mods[j].key
      ensures forall i :: 0 <= i < |mods| ==>
                Lookup(ModifyAll(store, mods), mods[i].key) != Lookup(store, mods[i].key)
      ensures forall k :: Lookup(ModifyAll(store, mods), k) ==
                          if k in log then Outcome(Lookup(store, k), Compact(log[k])) else Lookup(store, k)
      ensures forall k :: StripOption(Lookup(ModifyAll(store, mods), k)) ==
                          StripOption(Replay(LogOf(log, k), Lookup(store, k)))
      ensures ModifyAll(store, mods) == SavedAll(store, log)
    {
      mods := [];
      var todo := updates.Keys;
      while todo != {}
        invariant todo <= updates.Keys
        invariant Progress(store, updates, todo, mods, ModifyAll(store, mods))
        decreases todo
      {
        var k :| k in todo;
        ProgressStep(store, updates, todo, mods, ModifyAll(store, mods), k);
        var m := ModificationFor(k, Lookup(store, k), updates[k]);
        if m.Some? {
          assert (mods + [m.value])[..|mods|] == mods;
          mods := mods + [m.value];
        }
        todo := todo - {k};
      }
      forall k
        ensures Lookup(ModifyAll(store, mods), k) ==
                if k in log then Outcome(Lookup(store, k), Compact(log[k])) else Lookup(store, k)
        ensures StripOption(Lookup(ModifyAll(store, mods), k)) == StripOption(Replay(LogOf(log, k), Lookup(store, k)))
      {
        ModifiedAsReplayed(store, updates, log, mods, ModifyAll(store, mods), k);
      }
      ModifiedAsSaved(store, updates, log, mods, ModifyAll(store, mods));
    }
  }

  lemma ModifiedAsReplayed(store: Store, updates: Ops, log: Log, mods: seq<Modification>, now: Store, k: EntityKey)
    requires Compacts(updates, log) && Progress(store, updates, {}, mods, now)
    ensures Lookup(now, k) == if k in log then Outcome(Lookup(store, k), Compact(log[k])) else Lookup(store, k)
    ensures StripOption(Lookup(now, k)) == StripOption(Replay(LogOf(log, k), Lookup(store, k)))
  {
    SavedAgreesUpToNulls(LogOf(log, k), Lookup(store, k));
  }

  lemma ModifiedAsSaved(store: Store, updates: Ops, log: Log, mods: seq<Modification>, now: Store)
    requires Compacts(updates, log) && Progress(store, updates, {}, mods, now)
    ensures now == SavedAll(store, log)
  {
    forall k ensures Lookup(now, k) == Lookup(SavedAll(store, log), k) {
      ModifiedAsReplayed(store, updates, log, mods, now, k);
      SavedAt(store, log, k);
    }
    SameStore(now, SavedAll(store, log));
  }

  /** One compacted operation for the whole log. */
  function Folded(ops: seq<EntityOp>, e: Option<Entity>): Option<Entity> {
    if ops == [] then e else ApplyTo(Compact(ops), e)
  }

  lemma LayersExact(a: seq<EntityOp>, b: seq<EntityOp>, e: Option<Entity>)
    ensures Lingering(a) == {} && Lingering(b) == {} ==> Folded(b, Folded(a, e)) == Replay(a + b, e)
  {
    if Lingering(a) == {} && Lingering(b) == {} {
      ReplayAppend(a, b, e);
      FoldedExact(a, e);
      FoldedExact(b, Folded(a, e));
    }
  }

  lemma FoldedExact(ops: seq<EntityOp>, e: Option<Entity>)
    requires Lingering(ops) == {}
    ensures Folded(ops, e) == Replay(ops, e)
  {
    if ops != [] {
      CompactExactIffNothingLingers(ops);
    }
  }

  lemma LayersAgree(updates: Ops, log: Log, handlerUpdates: Ops, handlerLog: Log, k: EntityKey, e: Option<Entity>)
    requires Compacts(updates, log) && Compacts(handlerUpdates, handlerLog)
    ensures StripOption(ApplyPending(handlerUpdates, k, ApplyPending(updates, k, e))) ==
            StripOption(Replay(Total(log, handlerLog, k), e))
  {
    var mid := ApplyPending(updates, k, e);
    ReplayAppend(LogOf(log, k), LogOf(handlerLog, k), e);
    if k in log {
      CompactAgreesUpToNulls(log[k], e);
    }
    if k in handlerLog {
      CompactAgreesUpToNulls(handlerLog[k], mid);
    }
    ReplayUpToNulls(LogOf(handlerLog, k), mid, Replay(LogOf(log, k), e));
  }

  /** Replaying does not look at Null attributes. */
  lemma {:induction false} ReplayUpToNulls(ops: seq<EntityOp>, a: Option<Entity>, b: Option<Entity>)
    requires StripOption(a) == StripOption(b)
    ensures StripOption(Replay(ops, a)) == StripOption(Replay(ops, b))
  {
    if ops != [] {
      var rest, last := ops[..|ops| - 1], ops[|ops| - 1];
      ReplayUpToNulls(rest, a, b);
      if last.Update? && Replay(rest, a).Some? {
        UpdateUpToNulls(Replay(rest, a).value, Replay(rest, b).value, last.data);
      }
    }
  }

  lemma UpdateUpToNulls(a: Entity, b: Entity, u: Entity)
    requires Strip(a) == Strip(b)
    ensures Strip(MergedRemovingNulls(a, u)) == Strip(MergedRemovingNulls(b, u))
  {
    forall k ensures k in Strip(MergedRemovingNulls(a, u)) <==> k in Strip(MergedRemovingNulls(b, u)) {
      assert k in Strip(a) <==> k in Strip(b);
    }
    forall k | k in Strip(MergedRemovingNulls(a, u))
      ensures Strip(MergedRemovingNulls(a, u))[k] == Strip(MergedRemovingNulls(b, u))[k]
    {
      if k !in u {
        assert k in Strip(a) && Strip(a)[k] == Strip(b)[k];
      }
    }
  }
}
