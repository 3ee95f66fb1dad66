/**
 The order in which the triggers of one block are processed (`Ord for EthereumTrigger` in
 chain/ethereum/src/trigger.rs, used by the sort in massbit/src/blockchain/block_stream.rs).
 */
module TriggerOrder {
  import opened Common
  import opened EthereumTypes

  datatype Ordering = Less | Equal | Greater {
    function Reverse(): Ordering {
      match this
      case Less => Greater
      case Equal => Equal
      case Greater => Less
    }
  }

  function CmpNat(a: nat, b: nat): Ordering {
    if a < b then Less else if a == b then Equal else Greater
  }

  /** An absent index comes before every index. */
  function CmpOption(a: Option<nat>, b: Option<nat>): Ordering {
    match (a, b)
    case (None, None) => Equal
    case (None, Some(_)) => Less
    case (Some(_), None) => Greater
    case (Some(x), Some(y)) => CmpNat(x, y)
  }

  /** A call and a log can be compared only if the log knows its transaction. */
  predicate Comparable(a: Trigger, b: Trigger) {
    && (a.CallTrigger? && b.LogTrigger? ==> b.log.transactionIndex.Some?)
    && (a.LogTrigger? && b.CallTrigger? ==> a.log.transactionIndex.Some?)
  }

  function Cmp(a: Trigger, b: Trigger): Ordering
    requires Comparable(a, b)
  {
    match (a, b)
    case (BlockTrigger(_, _), BlockTrigger(_, _)) => Equal
    case (BlockTrigger(_, _), _) => Greater
    case (_, BlockTrigger(_, _)) => Less
    case (CallTrigger(x), CallTrigger(y)) => CmpNat(x.transactionIndex, y.transactionIndex)
    case (LogTrigger(x), LogTrigger(y)) => CmpOption(x.logIndex, y.logIndex)
    case (CallTrigger(x), LogTrigger(y)) =>
      if x.transactionIndex == y.transactionIndex.value then Greater
      else CmpNat(x.transactionIndex, y.transactionIndex.value)
    case (LogTrigger(x), CallTrigger(y)) =>
      if x.transactionIndex.value == y.transactionIndex then Less
      else CmpNat(x.transactionIndex.value, y.transactionIndex)
  }

  /** Every log of the block knows its transaction. */
  predicate Indexed(ts: seq<Trigger>) {
    forall i :: 0 <= i < |ts| && ts[i].LogTrigger? ==> ts[i].log.transactionIndex.Some?
  }

  predicate AtMost(a: Trigger, b: Trigger)
    requires Comparable(a, b)
  {
    Cmp(a, b) != Greater
  }

  lemma CmpReverses(a: Trigger, b: Trigger)
    requires Comparable(a, b)
    ensures Cmp(b, a) == Cmp(a, b).Reverse()
  {
  }

  ghost predicate Transitive(ts: seq<Trigger>)
    requires Indexed(ts)
  {
    forall i, j, k :: 0 <= i < |ts| && 0 <= j < |ts| && 0 <= k < |ts| && AtMost(ts[i], ts[j]) &&
                      AtMost(ts[j], ts[k]) ==>
      AtMost(ts[i], ts[k])
  }

  /** Of two logs on either side of a call, the one before the call has the lower log index. */
  predicate SplitByCall(a: Trigger, c: Trigger, b: Trigger)
    requires Comparable(a, c) && Comparable(c, b)
  {
    a.LogTrigger? && b.LogTrigger? && c.CallTrigger? &&
    a.log.transactionIndex.value <= c.call.transactionIndex < b.log.transactionIndex.value ==>
      CmpOption(a.log.logIndex, b.log.logIndex) == Less
  }

  ghost predicate NoInversionAcrossCalls(ts: seq<Trigger>)
    requires Indexed(ts)
  {
    forall i, j, k :: 0 <= i < |ts| && 0 <= j < |ts| && 0 <= k < |ts| ==> SplitByCall(ts[i], ts[k], ts[j])
  }

  /** Log indices rise with transaction indices, as they do in a real block. */
  ghost predicate Rising(ts: seq<Trigger>)
    requires Indexed(ts)
  {
    forall i, j :: 0 <= i < |ts| && 0 <= j < |ts| && ts[i].LogTrigger? && ts[j].LogTrigger? &&
                   ts[i].log.transactionIndex.value < ts[j].log.transactionIndex.value ==>
      CmpOption(ts[i].log.logIndex, ts[j].log.logIndex) == Less
  }

  lemma OrderedTriple(a: Trigger, b: Trigger, c: Trigger)
    requires Comparable(a, b) && Comparable(b, c) && Comparable(a, c)
    requires AtMost(a, b) && AtMost(b, c)
    requires SplitByCall(a, b, c) && SplitByCall(b, c, a) && SplitByCall(c, a, b)
    ensures AtMost(a, c)
  {
  }

  /** The order of a block's triggers is transitive if and only if no call separates two inverted logs. */
  lemma TransitiveIffNoInversion(ts: seq<Trigger>)
    requires Indexed(ts)
    ensures Transitive(ts) <==> NoInversionAcrossCalls(ts)
  {
    if NoInversionAcrossCalls(ts) {
      forall i, j, k | 0 <= i < |ts| && 0 <= j < |ts| && 0 <= k < |ts| && AtMost(ts[i], ts[j]) && AtMost(ts[j], ts[k])
        ensures AtMost(ts[i], ts[k])
      {
        OrderedTriple(ts[i], ts[j], ts[k]);
      }
    }
    if Transitive(ts) {
      forall i, j, k | 0 <= i < |ts| && 0 <= j < |ts| && 0 <= k < |ts| ensures SplitByCall(ts[i], ts[k], ts[j]) {
        var a, b, c := ts[i], ts[j], ts[k];
        if a.LogTrigger? && b.LogTrigger? && c.CallTrigger? && TransactionOf(a) <= TransactionOf(c) < TransactionOf(b) {
          assert AtMost(a, c) && AtMost(c, b) && !AtMost(b, c);
          assert AtMost(a, b) && !AtMost(b, a);
        }
      }
    }
  }

  lemma RisingIsTransitive(ts: seq<Trigger>)
    requires Indexed(ts) && Rising(ts)
    ensures Transitive(ts)
  {
    TransitiveIffNoInversion(ts);
  }

  /** Without rising log indices three triggers can each come strictly before the next. */
  lemma Cycle(first: Log, second: Log, call: EthereumCall)
    requires first.transactionIndex == Some(1) && second.transactionIndex == Some(2) && call.transactionIndex == 1
    requires first.logIndex == Some(5) && second.logIndex == Some(3)
    ensures var a, b, c := LogTrigger(first), CallTrigger(call), LogTrigger(second);
            Cmp(a, b) == Less && Cmp(b, c) == Less && Cmp(c, a) == Less
  {
  }

  // ---------- Sorting the triggers of a block ----------

  ghost predicate Sorted(ts: seq<Trigger>)
    requires Indexed(ts)
  {
    forall i :: 0 <= i < |ts| - 1 ==> AtMost(ts[i], ts[i + 1])
  }

  lemma {:induction false} SortedPairwise(ts: seq<Trigger>, i: nat, j: nat)
    requires Indexed(ts) && Transitive(ts) && Sorted(ts) && i <= j < |ts|
    ensures AtMost(ts[i], ts[j])
    decreases j - i
  {
    if i < j {
      SortedPairwise(ts, i, j - 1);
      assert AtMost(ts[j - 1], ts[j]);
    }
  }

  function TransactionOf(t: Trigger): nat
    requires !t.BlockTrigger? && (t.LogTrigger? ==> t.log.transactionIndex.Some?)
  {
    if t.CallTrigger? then t.call.transactionIndex else t.log.transactionIndex.value
  }

  /** Block triggers last; otherwise by transaction, and within a transaction logs before calls. */
  ghost predicate ByTransaction(ts: seq<Trigger>)
    requires Indexed(ts)
  {
    forall i, j :: 0 <= i < j < |ts| && !ts[j].BlockTrigger? ==>
      && !ts[i].BlockTrigger?
      && TransactionOf(ts[i]) <= TransactionOf(ts[j])
      && (TransactionOf(ts[i]) == TransactionOf(ts[j]) ==> !(ts[i].CallTrigger? && ts[j].LogTrigger?))
      && (ts[i].LogTrigger? && ts[j].LogTrigger? ==> CmpOption(ts[i].log.logIndex, ts[j].log.logIndex) != Greater)
  }

  /** Whatever sort is used, its result for a real block is in transaction order. */
  lemma SortIsByTransaction(ts: seq<Trigger>, sorted: seq<Trigger>)
    requires Indexed(ts) && Rising(ts)
    requires multiset(sorted) == multiset(ts) && Indexed(sorted) && Sorted(sorted)
    ensures ByTransaction(sorted)
  {
    RisingPermutation(ts, sorted);
    RisingIsTransitive(sorted);
    forall i, j | 0 <= i < j < |sorted| ensures AtMost(sorted[i], sorted[j]) {
      SortedPairwise(sorted, i, j);
    }
  }

  lemma RisingPermutation(ts: seq<Trigger>, sorted: seq<Trigger>)
    requires Indexed(ts) && Rising(ts)
    requires multiset(sorted) == multiset(ts) && Indexed(sorted)
    ensures Rising(sorted)
  {
    forall i | 0 <= i < |sorted| ensures sorted[i] in ts {
      assert sorted[i] in multiset(sorted);
    }
  }

  /** Insertion after every trigger that is not greater, as a stable sort does. */
  function Insert(t: Trigger, ts: seq<Trigger>): (r: seq<Trigger>)
    requires Indexed(ts) && Indexed([t])
    ensures multiset(r) == multiset(ts) + multiset{t} && Indexed(r)
  {
    if ts == [] then [t]
    else
      var last, rest := ts[|ts| - 1], ts[..|ts| - 1];
      assert ts == rest + [last];
      assert [t][0] == t;
      if AtMost(last, t) then ts + [t]
      else
        assert Indexed([last]);
        Insert(t, rest) + [last]
  }

  function Sort(ts: seq<Trigger>): (r: seq<Trigger>)
    requires Indexed(ts)
    ensures multiset(r) == multiset(ts) && Indexed(r)
  {
    if ts == [] then []
    else
      assert ts == ts[..|ts| - 1] + [ts[|ts| - 1]];
      Insert(ts[|ts| - 1], Sort(ts[..|ts| - 1]))
  }

  lemma {:induction false} InsertSorted(t: Trigger, ts: seq<Trigger>)
    requires Indexed(ts) && Indexed([t]) && Sorted(ts)
    ensures Sorted(Insert(t, ts))
    ensures forall i :: 0 <= i < |Insert(t, ts)| ==> Insert(t, ts)[i] == t || Insert(t, ts)[i] in ts
  {
    assert [t][0] == t;
    if ts != [] {
      var last, rest := ts[|ts| - 1], ts[..|ts| - 1];
      if !AtMost(last, t) {
        InsertSorted(t, rest);
        CmpReverses(last, t);
        InsertEnd(t, rest);
        assert Insert(t, ts) == Insert(t, rest) + [last];
      } else {
        assert Insert(t, ts) == ts + [t];
      }
    }
  }

  /** The last element after an insertion is the old last element or the new one. */
  lemma InsertEnd(t: Trigger, ts: seq<Trigger>)
    requires Indexed(ts) && Indexed([t])
    ensures Insert(t, ts) != []
    ensures var r := Insert(t, ts); r[|r| - 1] == t || (ts != [] && r[|r| - 1] == ts[|ts| - 1])
  {
  }

  lemma {:induction false} SortSorts(ts: seq<Trigger>)
    requires Indexed(ts)
    ensures Sorted(Sort(ts))
  {
    if ts != [] {
      SortSorts(ts[..|ts| - 1]);
      InsertSorted(ts[|ts| - 1], Sort(ts[..|ts| - 1]));
    }
  }
}
