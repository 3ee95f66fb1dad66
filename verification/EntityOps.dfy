/**
 Entity operations that can be accumulated (`EntityOp` in chain/solana-sdk/src/model.rs, the same
 type as in massbit/src/components/store.rs) over the merges of chain/solana-sdk/src/entity.rs.
 */
module EntityOps {
  import opened Common

  datatype Attribute = Attribute(name: string)

  datatype Value =
    | String(s: string)
    | Int(i: int)
    | BigDecimal(digits: int, exp: int)
    | Bool(b: bool)
    | List(values: seq<Value>)
    | Null
    | Bytes(bytes: seq<nat>)
    | BigInt(n: int)

  type Entity = map<Attribute, Value>

  datatype EntityOp = Remove | Update(data: Entity) | Overwrite(data: Entity)

  function Nulls(e: Entity): set<Attribute> {
    set k | k in e && e[k] == Null
  }

  /** The entity without its Null attributes. */
  function Strip(e: Entity): Entity {
    e - Nulls(e)
  }

  function StripOption(e: Option<Entity>): Option<Entity> {
    if e.None? then None else Some(Strip(e.value))
  }

  function Merged(e: Entity, update: Entity): Entity {
    e + update
  }

  function MergedRemovingNulls(e: Entity, update: Entity): Entity {
    (e + update) - Nulls(update)
  }

  /** Inserts the attributes of `update` one by one, in the arbitrary order of a hash map. */
  method Merge(entity: Entity, update: Entity) returns (r: Entity)
    ensures r == Merged(entity, update)
  {
    r := entity;
    var todo := update.Keys;
    while todo != {}
      invariant todo <= update.Keys
      invariant r == entity + (update - todo)
      decreases todo
    {
      var key :| key in todo;
      r := r[key := update[key]];
      todo := todo - {key};
    }
  }

  method MergeRemoveNullFields(entity: Entity, update: Entity) returns (r: Entity)
    ensures r == MergedRemovingNulls(entity, update)
  {
    r := entity;
    var todo := update.Keys;
    while todo != {}
      invariant todo <= update.Keys
      invariant r == (entity + (update - todo)) - (Nulls(update) - todo)
      decreases todo
    {
      var key :| key in todo;
      if update[key] == Null {
        r := r - {key};
      } else {
        r := r[key := update[key]];
      }
      todo := todo - {key};
    }
  }

  function ApplyTo(op: EntityOp, entity: Option<Entity>): Option<Entity> {
    match op
    case Remove => None
    case Overwrite(data) => Some(data)
    case Update(data) => if entity.None? then Some(data) else Some(MergedRemovingNulls(entity.value, data))
  }

  function Accumulated(op: EntityOp, next: EntityOp): EntityOp {
    if !next.Update? then next
    else if op.Remove? then Overwrite(next.data)
    else if op.Update? then Update(Merged(op.data, next.data))
    else Overwrite(Merged(op.data, next.data))
  }

  /** An operation that is overwritten in place while further ones accumulate onto it. */
  class PendingOp {
    var op: EntityOp

    constructor (first: EntityOp)
      ensures op == first
    {
      op := first;
    }

    method Accumulate(next: EntityOp)
      modifies this
      ensures op == Accumulated(old(op), next)
    {
      if !next.Update? {
        op := next;
        return;
      }
      match op {
        case Remove => op := Overwrite(next.data);
        case Update(current) =>
          var merged := Merge(current, next.data);
          op := Update(merged);
        case Overwrite(current) =>
          var merged := Merge(current, next.data);
          op := Overwrite(merged);
      }
    }
  }

  // ---------- Compacting a log agrees with replaying it ----------

  /** Applies the operations one at a time. */
  function Replay(ops: seq<EntityOp>, entity: Option<Entity>): Option<Entity> {
    if ops == [] then entity else ApplyTo(ops[|ops| - 1], Replay(ops[..|ops| - 1], entity))
  }

  /** Folds the operations into one. */
  function Compact(ops: seq<EntityOp>): EntityOp
    requires ops != []
  {
    if |ops| == 1 then ops[0] else Accumulated(Compact(ops[..|ops| - 1]), ops[|ops| - 1])
  }

  lemma AccumulateAssociative(a: EntityOp, b: EntityOp, c: EntityOp)
    ensures Accumulated(Accumulated(a, b), c) == Accumulated(a, Accumulated(b, c))
  {
    if !a.Remove? && b.Update? && c.Update? {
      assert a.data + b.data + c.data == a.data + (b.data + c.data);
    }
  }

  lemma {:induction false} CompactAppend(a: seq<EntityOp>, b: seq<EntityOp>)
    requires a != [] && b != []
    ensures Compact(a + b) == Accumulated(Compact(a), Compact(b))
  {
    var last := b[|b| - 1];
    assert (a + b)[..|a + b| - 1] == a + b[..|b| - 1];
    if |b| == 1 {
      assert a + b[..0] == a;
    } else {
      CompactAppend(a, b[..|b| - 1]);
      AccumulateAssociative(Compact(a), Compact(b[..|b| - 1]), last);
    }
  }

  lemma {:induction false} ReplayAppend(a: seq<EntityOp>, b: seq<EntityOp>, e: Option<Entity>)
    ensures Replay(a + b, e) == Replay(b, Replay(a, e))
  {
    if b == [] {
      assert a + b == a;
    } else {
      assert (a + b)[..|a + b| - 1] == a + b[..|b| - 1];
      ReplayAppend(a, b[..|b| - 1], e);
    }
  }

  /** The last operation left the entity absent, whatever it was before. */
  predicate EndsAbsent(ops: seq<EntityOp>) {
    ops == [] || ops[|ops| - 1].Remove?
  }

  /**
   The attributes whose last write is a Null in an update that met an entity created by the log
   itself. Replaying removes them; compacting keeps them, set to Null.
   */
  function Lingering(ops: seq<EntityOp>): set<Attribute> {
    if ops == [] then {}
    else
      var last, rest := ops[|ops| - 1], ops[..|ops| - 1];
      if !last.Update? || EndsAbsent(rest) then {}
      else (Lingering(rest) - last.data.Keys) + Nulls(last.data)
  }

  function Without(e: Option<Entity>, gone: set<Attribute>): Option<Entity> {
    if e.None? then None else Some(e.value - gone)
  }

  /** Only updates: the compacted log is one update too, and no lingering attribute is left on an entity. */
  predicate OnlyUpdates(ops: seq<EntityOp>) {
    forall i :: 0 <= i < |ops| ==> ops[i].Update?
  }

  lemma {:induction false} CompactKind(ops: seq<EntityOp>)
    requires ops != []
    ensures Compact(ops).Update? <==> OnlyUpdates(ops)
    ensures Compact(ops).Remove? <==> EndsAbsent(ops)
  {
    if |ops| > 1 {
      CompactKind(ops[..|ops| - 1]);
    }
  }

  /** On an existing entity, a log of updates compacts without any difference. */
  lemma {:induction false} UpdatesOnEntity(ops: seq<EntityOp>, e: Entity)
    requires ops != [] && OnlyUpdates(ops)
    ensures Compact(ops).Update?
    ensures Replay(ops, Some(e)) == Some(MergedRemovingNulls(e, Compact(ops).data))
  {
    var last, rest := ops[|ops| - 1], ops[..|ops| - 1];
    if |ops| == 1 {
      assert Replay(rest, Some(e)) == Some(e);
    } else {
      UpdatesOnEntity(rest, e);
      UpdateTwice(e, Compact(rest).data, last.data);
    }
  }

  lemma UpdateTwice(e: Entity, u: Entity, v: Entity)
    ensures MergedRemovingNulls(MergedRemovingNulls(e, u), v) == MergedRemovingNulls(e, Merged(u, v))
  {
  }

  /** In all other cases replaying is compacting minus the lingering attributes, which are Null. */
  lemma {:induction false} ReplayIsCompactWithoutLingering(ops: seq<EntityOp>, e: Option<Entity>)
    requires ops != [] && (e.Some? ==> !OnlyUpdates(ops))
    ensures Replay(ops, e) == Without(ApplyTo(Compact(ops), e), Lingering(ops))
    ensures !Compact(ops).Remove? ==> Lingering(ops) <= Nulls(Compact(ops).data)
    ensures !Compact(ops).Remove? ==> ApplyTo(Compact(ops), e) == Some(Compact(ops).data)
  {
    CompactKind(ops);
    var last, rest := ops[|ops| - 1], ops[..|ops| - 1];
    if last.Update? && rest != [] {
      CompactKind(rest);
      assert e.Some? ==> !OnlyUpdates(rest);
      ReplayIsCompactWithoutLingering(rest, e);
      if !rest[|rest| - 1].Remove? {
        MergeAfterLingering(Compact(rest).data, Lingering(rest), last.data);
      } else {
        assert last.data - {} == last.data;
      }
    } else {
      assert last.Update? ==> OnlyUpdates(ops);
      assert Lingering(ops) == {};
      assert !last.Remove? ==> last.data - {} == last.data;
    }
  }

  lemma MergeAfterLingering(m: Entity, gone: set<Attribute>, u: Entity)
    requires gone <= Nulls(m)
    ensures MergedRemovingNulls(m - gone, u) == Merged(m, u) - ((gone - u.Keys) + Nulls(u))
    ensures (gone - u.Keys) + Nulls(u) <= Nulls(Merged(m, u))
  {
  }

  /**
   For every log and every starting entity, folding with `accumulate` and applying once gives what
   applying one at a time gives, up to Null attributes.
   */
  lemma CompactAgreesUpToNulls(ops: seq<EntityOp>, e: Option<Entity>)
    requires ops != []
    ensures StripOption(ApplyTo(Compact(ops), e)) == StripOption(Replay(ops, e))
  {
    if e.Some? && OnlyUpdates(ops) {
      UpdatesOnEntity(ops, e.value);
    } else {
      ReplayIsCompactWithoutLingering(ops, e);
      if !Compact(ops).Remove? {
        var m, gone := Compact(ops).data, Lingering(ops);
        assert Strip(m - gone) == Strip(m);
      }
    }
  }

  /** It gives exactly the same for every starting entity if and only if no Null lingers. */
  lemma CompactExactIffNothingLingers(ops: seq<EntityOp>)
    requires ops != []
    ensures (forall e :: ApplyTo(Compact(ops), e) == Replay(ops, e)) <==> Lingering(ops) == {}
  {
    CompactKind(ops);
    ReplayIsCompactWithoutLingering(ops, None);
    if Lingering(ops) == {} {
      forall e ensures ApplyTo(Compact(ops), e) == Replay(ops, e) {
        if e.Some? && OnlyUpdates(ops) {
          UpdatesOnEntity(ops, e.value);
        } else {
          ReplayIsCompactWithoutLingering(ops, e);
          assert !Compact(ops).Remove? ==> Compact(ops).data - {} == Compact(ops).data;
        }
      }
    } else {
      var k :| k in Lingering(ops);
      assert !EndsAbsent(ops);
      assert k in ApplyTo(Compact(ops), None).value && k !in Replay(ops, None).value;
      assert ApplyTo(Compact(ops), None) != Replay(ops, None);
    }
  }

  /** The index of the update that leaves `k` behind. */
  ghost predicate LeavesNull(ops: seq<EntityOp>, i: nat, k: Attribute) {
    && 0 < i < |ops| && !ops[i - 1].Remove?
    && ops[i].Update? && k in Nulls(ops[i].data)
    && forall j :: i < j < |ops| ==> ops[j].Update? && k !in ops[j].data
  }

  /** What lingers, read off the log: a Null update of a live entity that nothing later touches. */
  lemma {:induction false} LingeringMeaning(ops: seq<EntityOp>, k: Attribute)
    ensures k in Lingering(ops) <==> exists i :: LeavesNull(ops, i, k)
  {
    if ops != [] {
      var n := |ops| - 1;
      var rest := ops[..n];
      LingeringMeaning(rest, k);
      if k in Lingering(ops) {
        if k in Nulls(ops[n].data) {
          assert LeavesNull(ops, n, k);
        } else {
          var i :| LeavesNull(rest, i, k);
          assert LeavesNull(ops, i, k);
        }
      }
      if i: nat :| LeavesNull(ops, i, k) {
        if i < n {
          assert LeavesNull(rest, i, k);
        }
      }
    }
  }

  /** In particular it is exact when no update of the log sets an attribute to Null. */
  lemma WithoutNullsCompactIsExact(ops: seq<EntityOp>, e: Option<Entity>)
    requires ops != []
    requires forall i :: 0 <= i < |ops| && ops[i].Update? ==> Nulls(ops[i].data) == {}
    ensures ApplyTo(Compact(ops), e) == Replay(ops, e)
  {
    forall k ensures k !in Lingering(ops) {
      LingeringMeaning(ops, k);
    }
    CompactExactIffNothingLingers(ops);
  }
}
