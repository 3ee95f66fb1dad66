/**
 Reading an address's history page by page and regrouping its transactions by slot
 (`get_signatures_for_address` and `get_confirmed_blocks` in chain/solana/src/adapter.rs).

 The node keeps the history newest first. It answers each request with a non-empty page of at most
 `LIMIT_FILTER_RESULT` entries, with an empty one at the end, or with an error.
 */
module SignaturePaging {
  import opened Common
  import opened SolanaTypes

  const LIMIT_FILTER_RESULT: nat := 1000
  const TRANSACTION_BATCH_SIZE: nat := 100

  datatype Signature = Signature(text: string)

  datatype Entry = Entry(signature: Signature, slot: nat)

  /** The node's answer to one request: a page, or an error. */
  datatype Reply = Page(txs: seq<Entry>) | Fails

  /** Answers depend on the signature to look before and may differ from call to call. */
  type HistoryNode = (nat, Option<Signature>) -> Reply

  ghost predicate NewestFirst(history: seq<Entry>) {
    && (forall i, j :: 0 <= i < j < |history| ==> history[i].slot >= history[j].slot)
    && (forall i, j :: 0 <= i < j < |history| ==> history[i].signature != history[j].signature)
  }

  /** The position after the entry with this signature. */
  ghost predicate Reached(history: seq<Entry>, before: Option<Signature>, at: nat) {
    match before
    case None => at == 0
    case Some(signature) => 0 < at <= |history| && history[at - 1].signature == signature
  }

  ghost predicate PageAt(history: seq<Entry>, at: nat, txs: seq<Entry>) {
    at + |txs| <= |history| && forall i :: 0 <= i < |txs| ==> txs[i] == history[at + i]
  }

  ghost predicate Known(history: seq<Entry>, before: Option<Signature>) {
    exists at: nat :: Reached(history, before, at)
  }

  /** A page continues right after the given signature, which is a known one; it is empty only at the end. */
  ghost predicate Answers(history: seq<Entry>, node: HistoryNode) {
    && (forall call, before :: node(call, before).Page? ==> Known(history, before))
    && (forall call, before, at :: Reached(history, before, at) && node(call, before).Page? ==>
          var txs := node(call, before).txs;
          PageAt(history, at, txs) && |txs| <= LIMIT_FILTER_RESULT && (txs == [] <==> at == |history|))
  }

  /** Every request that looks before a known signature is answered with a page. */
  ghost predicate NeverFails(history: seq<Entry>, node: HistoryNode) {
    forall call, before :: Known(history, before) ==> node(call, before).Page?
  }

  /** The signatures of history[from..to] with slot at or above `first`, oldest first. */
  function Wanted(history: seq<Entry>, first: nat, from: nat, to: nat): seq<Signature>
    requires from <= to <= |history|
  {
    if from == to then []
    else
      (if history[to - 1].slot >= first then [history[to - 1].signature] else []) +
      Wanted(history, first, from, to - 1)
  }

  /** An interrupted reading: what is wanted of the newest entries up to some point. */
  ghost predicate Newest(history: seq<Entry>, first: nat, start: nat, res: seq<Signature>) {
    exists k :: start <= k <= |history| && res == Wanted(history, first, start, k)
  }

  /** Prepends the wanted signatures of a page. */
  method AddPage(history: seq<Entry>, first: nat, txs: seq<Entry>, before: seq<Signature>, ghost start: nat,
                 ghost at: nat)
    returns (res: seq<Signature>)
    requires start <= at && PageAt(history, at, txs)
    requires before == Wanted(history, first, start, at)
    ensures res == Wanted(history, first, start, at + |txs|)
  {
    res := before;
    for i := 0 to |txs|
      invariant res == Wanted(history, first, start, at + i)
    {
      if first <= txs[i].slot {
        res := [txs[i].signature] + res;
      }
    }
  }

  /**
   Reads backwards from the end signature, or from the newest entry, down to the first slot. An
   error ends the reading early, with the newest part; without errors everything wanted is read.
   An unknown end signature gives nothing.
   */
  method GetSignaturesForAddress(history: seq<Entry>, firstSlot: Option<nat>, endSignature: Option<Signature>,
                                 node: HistoryNode)
    returns (res: seq<Signature>)
    requires NewestFirst(history) && Answers(history, node)
    ensures var first := if firstSlot.Some? then firstSlot.value else 0;
            forall start :: Reached(history, endSignature, start) ==>
              && Newest(history, first, start, res)
              && (NeverFails(history, node) ==> res == Wanted(history, first, start, |history|))
    ensures !Known(history, endSignature) ==> res == []
  {
    var before, calls := endSignature, 0;
    res := [];
    var first := if firstSlot.Some? then firstSlot.value else 0;
    ghost var known := Known(history, endSignature);
    ghost var start: nat := 0;
    if known {
      start :| Reached(history, endSignature, start);
      StartIsUnique(history, endSignature, start);
    }
    ghost var at := start;
    while true
      invariant !known ==> before == endSignature && res == []
      invariant start <= at <= |history|
      invariant known ==> Reached(history, before, at) && res == Wanted(history, first, start, at)
      decreases |history| - at
    {
      NewestAt(history, first, start, at);
      var reply := node(calls, before);
      if reply.Fails? {
        return;
      }
      assert known;
      calls := calls + 1;
      var txs := reply.txs;
      if txs == [] {
        return;
      }
      res := AddPage(history, first, txs, res, start, at);
      var last := txs[|txs| - 1];
      before, at := Some(last.signature), at + |txs|;
      if last.slot < first {
        NewestAt(history, first, start, at);
        OldEntriesNotWanted(history, first, start, at, |history|);
        return;
      }
    }
  }

  /** The node that answers with one entry at a time meets every condition above and never fails. */
  lemma OneAtATime(history: seq<Entry>)
    requires NewestFirst(history)
    ensures exists node: HistoryNode :: Answers(history, node) && NeverFails(history, node)
  {
    var node: HistoryNode := (call: nat, before: Option<Signature>) => NextEntry(history, before);
    forall call, before, at | Reached(history, before, at)
      ensures var txs := EntryAt(history, at);
              node(call, before) == Page(txs) && PageAt(history, at, txs) && |txs| <= 1 && (txs == [] <==>
                     at == |history|)
    {
      NextEntryIsNext(history, before, at);
    }
    forall call, before | node(call, before).Page? ensures Known(history, before) {
      NextEntryKnown(history, before);
    }
    forall call, before | Known(history, before) ensures node(call, before).Page? {
      var at: nat :| Reached(history, before, at);
      NextEntryIsNext(history, before, at);
    }
    assert Answers(history, node) && NeverFails(history, node);
  }

  function EntryAt(history: seq<Entry>, at: nat): seq<Entry> {
    if at < |history| then [history[at]] else []
  }

  /** The entry right after the given signature, if the signature is known. */
  function NextEntry(history: seq<Entry>, before: Option<Signature>): Reply {
    if before.None? then Page(EntryAt(history, 0)) else NextAfter(history, before.value, 0)
  }

  function NextAfter(history: seq<Entry>, signature: Signature, i: nat): Reply
    decreases |history| - i
  {
    if i >= |history| then Fails
    else if history[i].signature == signature then Page(EntryAt(history, i + 1))
    else NextAfter(history, signature, i + 1)
  }

  lemma {:induction false} NextAfterFinds(history: seq<Entry>, signature: Signature, i: nat, at: nat)
    requires NewestFirst(history) && i < at <= |history| && history[at - 1].signature == signature
    ensures NextAfter(history, signature, i) == Page(EntryAt(history, at))
    decreases at - i
  {
    if i < at - 1 {
      NextAfterFinds(history, signature, i + 1, at);
    }
  }

  lemma NextEntryIsNext(history: seq<Entry>, before: Option<Signature>, at: nat)
    requires NewestFirst(history) && Reached(history, before, at)
    ensures NextEntry(history, before) == Page(EntryAt(history, at))
  {
    if before.Some? {
      NextAfterFinds(history, before.value, 0, at);
    }
  }

  lemma {:induction false} NextAfterKnown(history: seq<Entry>, signature: Signature, i: nat) returns (at: nat)
    requires NextAfter(history, signature, i).Page?
    ensures Reached(history, Some(signature), at)
    decreases |history| - i
  {
    if history[i].signature == signature {
      at := i + 1;
    } else {
      at := NextAfterKnown(history, signature, i + 1);
    }
  }

  lemma NextEntryKnown(history: seq<Entry>, before: Option<Signature>)
    requires NextEntry(history, before).Page?
    ensures Known(history, before)
  {
    if before.Some? {
      var at := NextAfterKnown(history, before.value, 0);
    } else {
      assert Reached(history, before, 0);
    }
  }

  lemma StartIsUnique(history: seq<Entry>, before: Option<Signature>, start: nat)
    requires NewestFirst(history) && Reached(history, before, start)
    ensures forall at :: Reached(history, before, at) ==> at == start
  {
  }

  lemma NewestAt(history: seq<Entry>, first: nat, start: nat, at: nat)
    requires start <= at <= |history|
    ensures Newest(history, first, start, Wanted(history, first, start, at))
  {
  }

  /** Behind an entry that is too old there are only older ones. */
  lemma {:induction false} OldEntriesNotWanted(history: seq<Entry>, first: nat, from: nat, k: nat, to: nat)
    requires NewestFirst(history) && from <= k <= to <= |history| && 0 < k && history[k - 1].slot < first
    ensures Wanted(history, first, from, to) == Wanted(history, first, from, k)
    decreases |history|, to - k
  {
    if k < to {
      OldEntriesNotWanted(history, first, from, k, to - 1);
    }
  }

  /** The result, read as a list: the entries at or above the first slot, in reverse. */
  lemma {:induction false} WantedIsReversedSelection(history: seq<Entry>, first: nat, from: nat, to: nat)
    requires from <= to <= |history|
    ensures var selected := Filter(history[from..to], (e: Entry) => e.slot >= first);
            && |Wanted(history, first, from, to)| == |selected|
            && forall i :: 0 <= i < |selected| ==>
                 Wanted(history, first, from, to)[i] == selected[|selected| - 1 - i].signature
  {
    if from < to {
      WantedIsReversedSelection(history, first, from, to - 1);
      assert history[from..to][..to - from - 1] == history[from..to - 1];
    }
  }

  // ---------- Regrouping by slot ----------

  /** A fetched transaction: its slot, and its contents if they can be decoded. */
  datatype Fetched = Fetched(slot: nat, transaction: Option<Transaction>)

  /** What the node answers: which batches succeed, and the result for each signature in them. */
  datatype Node = Node(batchOk: nat -> bool, fetch: Signature -> Option<Fetched>)

  datatype Obtained = Obtained(slot: nat, transaction: Transaction)

  /** What a signature in the given batch contributes. */
  function ObtainedFor(node: Node, batch: nat, signature: Signature): Option<Obtained> {
    var f := node.fetch(signature);
    if node.batchOk(batch) && f.Some? && f.value.transaction.Some?
    then Some(Obtained(f.value.slot, f.value.transaction.value)) else None
  }

  function AsSeq<T>(x: Option<T>): seq<T> {
    if x.Some? then [x.value] else []
  }

  /** Every transaction that was fetched and decoded, in the order of the signatures. */
  function AllObtained(node: Node, signatures: seq<Signature>, n: nat): seq<Obtained>
    requires n <= |signatures|
  {
    if n == 0 then []
    else AllObtained(node, signatures, n - 1) + AsSeq(ObtainedFor(node, (n - 1) / TRANSACTION_BATCH_SIZE,
        signatures[n - 1]))
  }

  function InSlot(got: seq<Obtained>, slot: nat): seq<Transaction> {
    if got == [] then []
    else InSlot(got[..|got| - 1], slot) + if got[|got| - 1].slot == slot then [got[|got| - 1].transaction] else []
  }

  function EmptyBlock(transactions: seq<Transaction>): ConfirmedBlock {
    ConfirmedBlock("", "", 0, transactions, [], None, None)
  }

  /** `groups` holds, for each slot, its transactions in order. */
  ghost predicate Grouped(groups: map<nat, seq<Transaction>>, got: seq<Obtained>) {
    forall slot :: InSlot(got, slot) == (if slot in groups then groups[slot] else []) && (slot in groups ==>
             groups[slot] != [])
  }

  function AddTo(groups: map<nat, seq<Transaction>>, o: Option<Obtained>): map<nat, seq<Transaction>> {
    if o.None? then groups
    else groups[o.value.slot := (if o.value.slot in groups then groups[o.value.slot] else []) + [o.value.transaction]]
  }

  /** The groups after the first n signatures. */
  function GroupsUpTo(node: Node, signatures: seq<Signature>, n: nat): map<nat, seq<Transaction>>
    requires n <= |signatures|
  {
    if n == 0 then map[]
    else AddTo(GroupsUpTo(node, signatures, n - 1), ObtainedFor(node, (n - 1) / TRANSACTION_BATCH_SIZE,
        signatures[n - 1]))
  }

  lemma InSlotSnoc(got: seq<Obtained>, o: Obtained, slot: nat)
    ensures InSlot(got + [o], slot) == InSlot(got, slot) + if o.slot == slot then [o.transaction] else []
  {
    assert (got + [o])[..|got|] == got;
  }

  lemma GroupedSnoc(groups: map<nat, seq<Transaction>>, got: seq<Obtained>, o: Option<Obtained>)
    requires Grouped(groups, got)
    ensures Grouped(AddTo(groups, o), got + AsSeq(o))
  {
    if o.None? {
      assert got + [] == got;
    } else {
      forall slot {
        InSlotSnoc(got, o.value, slot);
      }
    }
  }

  lemma {:induction false} GroupsUpToGrouped(node: Node, signatures: seq<Signature>, n: nat)
    requires n <= |signatures|
    ensures Grouped(GroupsUpTo(node, signatures, n), AllObtained(node, signatures, n))
  {
    if n > 0 {
      GroupsUpToGrouped(node, signatures, n - 1);
      GroupedSnoc(GroupsUpTo(node, signatures, n - 1), AllObtained(node, signatures, n - 1),
                  ObtainedFor(node, (n - 1) / TRANSACTION_BATCH_SIZE, signatures[n - 1]));
    }
  }

  method GetConfirmedBlocks(node: Node, signatures: seq<Signature>) returns (blocks: seq<SlotBlock>)
    ensures forall i, j :: 0 <= i < j < |blocks| ==> blocks[i].slot != blocks[j].slot
    ensures forall i :: 0 <= i < |blocks| ==>
              var txs := InSlot(AllObtained(node, signatures, |signatures|), blocks[i].slot);
              txs != [] && blocks[i].block == Some(EmptyBlock(txs))
    ensures forall slot :: InSlot(AllObtained(node, signatures, |signatures|), slot) != [] ==>
              exists i :: 0 <= i < |blocks| && blocks[i].slot == slot
  {
    var startTx, batch := 0, 0;
    var groups: map<nat, seq<Transaction>> := map[];
    while startTx < |signatures|
      invariant startTx == TRANSACTION_BATCH_SIZE * batch
      invariant groups == GroupsUpTo(node, signatures, Min(startTx, |signatures|))
      decreases |signatures| - startTx
    {
      var last := Min(|signatures|, startTx + TRANSACTION_BATCH_SIZE);
      groups := AddBatch(node, batch, signatures, startTx, last, groups);
      startTx, batch := startTx + TRANSACTION_BATCH_SIZE, batch + 1;
    }
    blocks := ToBlocks(groups);
    GroupsUpToGrouped(node, signatures, |signatures|);
    GroupsAreSlots(groups, AllObtained(node, signatures, |signatures|));
  }

  lemma GroupsAreSlots(groups: map<nat, seq<Transaction>>, got: seq<Obtained>)
    requires Grouped(groups, got)
    ensures forall slot :: slot in groups <==> InSlot(got, slot) != []
    ensures forall slot :: slot in groups ==> groups[slot] == InSlot(got, slot)
  {
  }

  method AddBatch(node: Node, batch: nat, signatures: seq<Signature>, from: nat, last: nat, before: map<nat,
                  seq<Transaction>>)
    returns (groups: map<nat, seq<Transaction>>)
    requires from == TRANSACTION_BATCH_SIZE * batch && from <= last <= |signatures| &&
             last <= from + TRANSACTION_BATCH_SIZE
    requires before == GroupsUpTo(node, signatures, from)
    ensures groups == GroupsUpTo(node, signatures, last)
  {
    groups := before;
    for i := from to last
      invariant groups == GroupsUpTo(node, signatures, i)
    {
      GroupsNext(node, signatures, batch, i);
      if node.batchOk(batch) {
        var f := node.fetch(signatures[i]);
        if f.Some? && f.value.transaction.Some? {
          groups := AddTo(groups, Some(Obtained(f.value.slot, f.value.transaction.value)));
        }
      }
    }
  }

  lemma GroupsNext(node: Node, signatures: seq<Signature>, batch: nat, i: nat)
    requires TRANSACTION_BATCH_SIZE * batch <= i < TRANSACTION_BATCH_SIZE * (batch + 1) && i < |signatures|
    ensures GroupsUpTo(node, signatures, i + 1) == AddTo(GroupsUpTo(node, signatures, i),
            ObtainedFor(node, batch, signatures[i]))
  {
    InBatch(batch, i);
  }

  lemma InBatch(batch: nat, i: nat)
    requires TRANSACTION_BATCH_SIZE * batch <= i < TRANSACTION_BATCH_SIZE * (batch + 1)
    ensures i / TRANSACTION_BATCH_SIZE == batch
  {
  }

  /** One block per slot, in the arbitrary order of a hash map. */
  method ToBlocks(groups: map<nat, seq<Transaction>>) returns (blocks: seq<SlotBlock>)
    ensures forall i, j :: 0 <= i < j < |blocks| ==> blocks[i].slot != blocks[j].slot
    ensures forall i :: 0 <= i < |blocks| ==>
              blocks[i].slot in groups && blocks[i].block == Some(EmptyBlock(groups[blocks[i].slot]))
    ensures forall slot :: slot in groups ==> exists i :: 0 <= i < |blocks| && blocks[i].slot == slot
  {
    blocks := [];
    var todo := groups.Keys;
    while todo != {}
      invariant todo <= groups.Keys
      invariant forall i, j :: 0 <= i < j < |blocks| ==> blocks[i].slot != blocks[j].slot
      invariant forall i :: 0 <= i < |blocks| ==>
                  blocks[i].slot in groups && blocks[i].slot !in todo &&
                    blocks[i].block == Some(EmptyBlock(groups[blocks[i].slot]))
      invariant forall slot :: slot in groups && slot !in todo ==>
                  exists i :: 0 <= i < |blocks| && blocks[i].slot == slot
      decreases todo
    {
      var slot :| slot in todo;
      ghost var before := blocks;
      blocks := blocks + [SlotBlock(slot, Some(EmptyBlock(groups[slot])))];
      assert blocks[|before|].slot == slot;
      assert forall i :: 0 <= i < |before| ==> blocks[i] == before[i];
      todo := todo - {slot};
    }
  }

  /** No transaction is lost or duplicated: the slots' transactions together are all that were obtained. */
  lemma {:induction false} EveryTransactionOnce(got: seq<Obtained>, slot: nat, tx: Transaction)
    ensures multiset(InSlot(got, slot))[tx] == multiset(got)[Obtained(slot, tx)]
  {
    if got != [] {
      EveryTransactionOnce(got[..|got| - 1], slot, tx);
      assert got == got[..|got| - 1] + [got[|got| - 1]];
    }
  }
}
