/**
 The filter that decides what is requested from the Ethereum node (chain/ethereum/src/adapter.rs):
 built from data sources, extended when new ones are created.
 */
module TriggerFilters {
  import opened Common
  import opened EthereumTypes
  import opened EventSignatures
  import opened DataSources

  /** One `eth_getLogs` query; no contracts means any contract. */
  datatype EthGetLogsFilter = EthGetLogsFilter(contracts: seq<Address>, eventSignatures: seq<H256>)

  type LogFilter = seq<EthGetLogsFilter>

  /** The lowest start block and the selectors wanted at an address. */
  datatype CallEntry = CallEntry(startBlock: int, selectors: set<Selector>)

  type CallFilter = map<Address, CallEntry>

  datatype BlockFilter = BlockFilter(contractAddresses: set<(int, Address)>, triggerEveryBlock: bool)

  datatype TriggerFilter = TriggerFilter(log: LogFilter, call: CallFilter, block: BlockFilter)

  /** The hash functions the filters use. */
  datatype Hashes = Hashes(topic: string -> H256, selector: string -> Selector)

  // ---------- What the filter of a list of data sources is ----------

  function LogEntries(ds: DataSource, hs: seq<EventHandler>, hashes: Hashes): LogFilter {
    var contracts := if ds.source.address.Some? then [ds.source.address.value] else [];
    Map(hs, (h: EventHandler) => EthGetLogsFilter(contracts, [Topic0(h, hashes.topic)]))
  }

  function LogFilterOf(dss: seq<DataSource>, hashes: Hashes): LogFilter {
    FlatMap(dss, (ds: DataSource) => LogEntries(ds, ds.mapping.eventHandlers, hashes))
  }

  datatype Wish = Wish(startBlock: int, address: Address, selector: Selector)

  /** One wish per call handler of a data source with an address. */
  function WishesOf(ds: DataSource, hashes: Hashes): seq<Wish> {
    if ds.source.address.None? then []
    else Map(ds.mapping.callHandlers,
             (h: CallHandler) => Wish(ds.source.startBlock, ds.source.address.value, hashes.selector(h.function_)))
  }

  function AllWishes(dss: seq<DataSource>, hashes: Hashes): seq<Wish> {
    FlatMap(dss, (ds: DataSource) => WishesOf(ds, hashes))
  }

  function AddWish(f: CallFilter, w: Wish): CallFilter {
    f[w.address := if w.address in f
                   then CallEntry(Min(w.startBlock, f[w.address].startBlock), f[w.address].selectors + {w.selector})
                   else CallEntry(w.startBlock, {w.selector})]
  }

  function CallFilterOf(wishes: seq<Wish>): CallFilter {
    if wishes == [] then map[] else AddWish(CallFilterOf(wishes[..|wishes| - 1]), wishes[|wishes| - 1])
  }

  /** Some data source with an address has a block handler without a filter. */
  predicate EveryBlockWanted(dss: seq<DataSource>) {
    exists i :: 0 <= i < |dss| && dss[i].source.address.Some? && HasUnfilteredHandler(dss[i])
  }

  predicate HasUnfilteredHandler(ds: DataSource) {
    exists j :: 0 <= j < |ds.mapping.blockHandlers| && ds.mapping.blockHandlers[j].filter.None?
  }

  predicate HasCallFilteredHandler(ds: DataSource) {
    exists j :: 0 <= j < |ds.mapping.blockHandlers| && ds.mapping.blockHandlers[j].filter == Some(ByCall)
  }

  function FilterOf(dss: seq<DataSource>, hashes: Hashes): TriggerFilter {
    TriggerFilter(LogFilterOf(dss, hashes), CallFilterOf(AllWishes(dss, hashes)),
                  BlockFilter({}, EveryBlockWanted(dss)))
  }

  // ---------- Building ----------

  method LogFilterFromDataSources(dss: seq<DataSource>, hashes: Hashes) returns (f: LogFilter)
    ensures f == LogFilterOf(dss, hashes)
  {
    f := [];
    for i := 0 to |dss|
      invariant f == LogFilterOf(dss[..i], hashes)
    {
      assert dss[..i + 1][..i] == dss[..i];
      var ds, hs := dss[i], dss[i].mapping.eventHandlers;
      ghost var before := f;
      for j := 0 to |hs|
        invariant f == before + LogEntries(ds, hs[..j], hashes)
      {
        assert LogEntries(ds, hs[..j + 1], hashes) == LogEntries(ds, hs[..j], hashes) + LogEntries(ds, [hs[j]], hashes);
        var topic0 := Topic0(hs[j], hashes.topic);
        match ds.source.address {
          case Some(contract) => f := f + [EthGetLogsFilter([contract], [topic0])];
          case None => f := f + [EthGetLogsFilter([], [topic0])];
        }
      }
      assert hs[..|hs|] == hs;
    }
    assert dss[..|dss|] == dss;
  }

  method LogFilterExtend(f: LogFilter, other: LogFilter) returns (r: LogFilter)
    ensures r == f + other
  {
    r := f;
    for i := 0 to |other|
      invariant r == f + other[..i]
    {
      r := r + [other[i]];
    }
  }

  method CallFilterFromWishes(wishes: seq<Wish>) returns (f: CallFilter)
    ensures f == CallFilterOf(wishes)
  {
    f := map[];
    for i := 0 to |wishes|
      invariant f == CallFilterOf(wishes[..i])
    {
      assert wishes[..i + 1][..i] == wishes[..i];
      var w := wishes[i];
      ghost var before := f;
      if w.address !in f {
        f := f[w.address := CallEntry(w.startBlock, {})];
      }
      var entry := f[w.address];
      if entry.startBlock > w.startBlock {
        entry := entry.(startBlock := w.startBlock);
      }
      f := f[w.address := entry.(selectors := entry.selectors + {w.selector})];
      assert {} + {w.selector} == {w.selector};
      assert f == AddWish(before, w);
    }
    assert wishes[..|wishes|] == wishes;
  }

  function CombinedEntry(f: CallFilter, other: CallFilter, a: Address): CallEntry
    requires a in f || a in other
  {
    if a !in other then f[a]
    else if a !in f then other[a]
    else CallEntry(Min(other[a].startBlock, f[a].startBlock), f[a].selectors + other[a].selectors)
  }

  function Combined(f: CallFilter, other: CallFilter): CallFilter {
    map a | a in f.Keys + other.Keys :: CombinedEntry(f, other, a)
  }

  method CallFilterExtend(f: CallFilter, other: CallFilter) returns (r: CallFilter)
    ensures r == Combined(f, other)
  {
    r := f;
    var todo := other.Keys;
    while todo != {}
      invariant todo <= other.Keys
      invariant r == Combined(f, other - todo)
      decreases todo
    {
      var address :| address in todo;
      if address in r {
        r := r[address := CallEntry(Min(other[address].startBlock, r[address].startBlock),
          r[address].selectors + other[address].selectors)];
      } else {
        r := r[address := other[address]];
      }
      todo := todo - {address};
    }
    assert other - {} == other;
  }

  /** A pair keeps its address; a pair of `other` with that address may lower its start block. */
  predicate Lowered(p: (int, Address), kept: (int, Address), other: set<(int, Address)>) {
    && kept.1 == p.1
    && (kept == p || exists q :: q in other && q.1 == p.1 && kept.0 == Min(q.0, p.0))
    && ((exists q :: q in other && q.1 == p.1) ==> exists q :: q in other && q.1 == p.1 && kept.0 == Min(q.0, p.0))
  }

  lemma OneLess<T>(all: set<T>, todo: set<T>, x: T)
    requires x in todo && todo <= all
    ensures all - (todo - {x}) == (all - todo) + {x}
  {
  }

  method Lower(p: (int, Address), other: set<(int, Address)>) returns (kept: (int, Address))
    ensures Lowered(p, kept, other)
  {
    kept := p;
    if q :| q in other && q.1 == p.1 {
      kept := (Min(q.0, p.0), p.1);
    }
  }

  /**
   The source walks its own addresses only: it may lower their start blocks, but an address that is
   only in `other` is never added.
   */
  method BlockFilterExtend(f: BlockFilter, other: BlockFilter) returns (r: BlockFilter)
    ensures r.triggerEveryBlock == (f.triggerEveryBlock || other.triggerEveryBlock)
    ensures Extended(f.contractAddresses, other.contractAddresses, r.contractAddresses)
  {
    var addresses: set<(int, Address)> := {};
    var todo := f.contractAddresses;
    while todo != {}
      invariant todo <= f.contractAddresses
      invariant Extended(f.contractAddresses - todo, other.contractAddresses, addresses)
      decreases todo
    {
      var p :| p in todo;
      var kept := Lower(p, other.contractAddresses);
      ExtendedInsert(f.contractAddresses - todo, other.contractAddresses, addresses, p, kept);
      OneLess(f.contractAddresses, todo, p);
      addresses := addresses + {kept};
      todo := todo - {p};
    }
    r := BlockFilter(addresses, f.triggerEveryBlock || other.triggerEveryBlock);
  }

  ghost predicate Extended(before: set<(int, Address)>, other: set<(int, Address)>, after: set<(int, Address)>) {
    && (forall p :: p in before ==> KeptAs(p, other, after))
    && (forall kept :: kept in after ==> KeptFrom(before, other, kept))
  }

  predicate KeptAs(p: (int, Address), other: set<(int, Address)>, after: set<(int, Address)>) {
    exists kept :: kept in after && Lowered(p, kept, other)
  }

  predicate KeptFrom(before: set<(int, Address)>, other: set<(int, Address)>, kept: (int, Address)) {
    exists p :: p in before && Lowered(p, kept, other)
  }

  lemma ExtendedInsert(before: set<(int, Address)>, other: set<(int, Address)>, after: set<(int, Address)>,
                       p: (int, Address), kept: (int, Address))
    requires Extended(before, other, after) && Lowered(p, kept, other)
    ensures Extended(before + {p}, other, after + {kept})
  {
    forall p' | p' in before + {p} ensures KeptAs(p', other, after + {kept}) {
      if p' != p {
        var k :| k in after && Lowered(p', k, other);
        assert k in after + {kept};
      } else {
        assert kept in after + {kept};
      }
    }
    forall k | k in after + {kept} ensures KeptFrom(before + {p}, other, k) {
      if k != kept {
        var p' :| p' in before && Lowered(p', k, other);
        assert p' in before + {p};
      } else {
        assert p in before + {p};
      }
    }
  }

  lemma FromNoAddresses(other: set<(int, Address)>, after: set<(int, Address)>)
    requires Extended({}, other, after)
    ensures after == {}
  {
  }

  lemma ByNoAddresses(before: set<(int, Address)>, after: set<(int, Address)>)
    requires Extended(before, {}, after)
    ensures after == before
  {
    forall kept | kept in after ensures kept in before {
      var p :| p in before && Lowered(p, kept, {});
      assert kept == p;
    }
    forall p | p in before ensures p in after {
      assert KeptAs(p, {}, after);
      var kept :| kept in after && Lowered(p, kept, {});
      assert kept == p;
    }
  }

  method BlockFilterFromDataSources(dss: seq<DataSource>) returns (f: BlockFilter)
    ensures f == BlockFilter({}, EveryBlockWanted(dss))
  {
    f := BlockFilter({}, false);
    for i := 0 to |dss|
      invariant f == BlockFilter({}, EveryBlockWanted(dss[..i]))
    {
      EveryBlockSnoc(dss[..i], dss[i]);
      assert dss[..i + 1] == dss[..i] + [dss[i]];
      var ds := dss[i];
      if ds.source.address.Some? {
        var pairs := if HasCallFilteredHandler(ds) then {(ds.source.startBlock, ds.source.address.value)} else {};
        var extended := BlockFilterExtend(f, BlockFilter(pairs, HasUnfilteredHandler(ds)));
        FromNoAddresses(pairs, extended.contractAddresses);
        f := extended;
      }
    }
    assert dss[..|dss|] == dss;
  }

  lemma EveryBlockSnoc(dss: seq<DataSource>, ds: DataSource)
    ensures EveryBlockWanted(dss + [ds]) <==>
              EveryBlockWanted(dss) || (ds.source.address.Some? && HasUnfilteredHandler(ds))
  {
    EveryBlockAppend(dss, [ds]);
    assert [ds][0] == ds;
  }

  lemma EveryBlockAppend(a: seq<DataSource>, b: seq<DataSource>)
    ensures EveryBlockWanted(a + b) <==> EveryBlockWanted(a) || EveryBlockWanted(b)
  {
    if EveryBlockWanted(a) {
      var i :| 0 <= i < |a| && a[i].source.address.Some? && HasUnfilteredHandler(a[i]);
      assert (a + b)[i] == a[i];
    }
    if EveryBlockWanted(b) {
      var i :| 0 <= i < |b| && b[i].source.address.Some? && HasUnfilteredHandler(b[i]);
      assert (a + b)[|a| + i] == b[i];
    }
  }

  /** Extends a filter in place with the filter of more data sources. */
  method Extend(f: TriggerFilter, dss: seq<DataSource>, hashes: Hashes) returns (r: TriggerFilter)
    ensures r.log == f.log + LogFilterOf(dss, hashes)
    ensures r.call == Combined(f.call, CallFilterOf(AllWishes(dss, hashes)))
    ensures r.block.triggerEveryBlock == (f.block.triggerEveryBlock || EveryBlockWanted(dss))
    ensures r.block.contractAddresses == f.block.contractAddresses
  {
    var logs := LogFilterFromDataSources(dss, hashes);
    logs := LogFilterExtend(f.log, logs);
    var calls := CallFilterFromWishes(AllWishes(dss, hashes));
    calls := CallFilterExtend(f.call, calls);
    var blocks := BlockFilterFromDataSources(dss);
    var extended := BlockFilterExtend(f.block, blocks);
    ByNoAddresses(f.block.contractAddresses, extended.contractAddresses);
    r := TriggerFilter(logs, calls, extended);
  }

  method FromDataSources(dss: seq<DataSource>, hashes: Hashes) returns (f: TriggerFilter)
    ensures f == FilterOf(dss, hashes)
  {
    f := Extend(TriggerFilter([], map[], BlockFilter({}, false)), dss, hashes);
    assert Combined(map[], CallFilterOf(AllWishes(dss, hashes))) == CallFilterOf(AllWishes(dss, hashes));
  }

  // ---------- Extending is building from the longer list ----------

  lemma {:induction false} CallFilterAppend(a: seq<Wish>, b: seq<Wish>)
    ensures CallFilterOf(a + b) == Combined(CallFilterOf(a), CallFilterOf(b))
  {
    if b == [] {
      assert a + b == a;
      assert Combined(CallFilterOf(a), map[]) == CallFilterOf(a);
    } else {
      var rest, w := b[..|b| - 1], b[|b| - 1];
      CallFilterAppend(a, rest);
      assert (a + b)[..|a + b| - 1] == a + rest;
      CombinedAddWish(CallFilterOf(a), CallFilterOf(rest), w);
    }
  }

  lemma CombinedAddWish(f: CallFilter, g: CallFilter, w: Wish)
    ensures Combined(f, AddWish(g, w)) == AddWish(Combined(f, g), w)
  {
    var l, r := Combined(f, AddWish(g, w)), AddWish(Combined(f, g), w);
    assert l.Keys == r.Keys;
    forall a | a in l ensures l[a] == r[a] {
      if a == w.address && a in f && a in g {
        assert f[a].selectors + (g[a].selectors + {w.selector}) == (f[a].selectors + g[a].selectors) + {w.selector};
      }
    }
  }

  /** Extending the filter of A by B gives the filter of A followed by B, in all three parts. */
  lemma ExtendIsAppend(a: seq<DataSource>, b: seq<DataSource>, r: TriggerFilter, hashes: Hashes)
    requires var f := FilterOf(a, hashes);
             && r.log == f.log + LogFilterOf(b, hashes)
             && r.call == Combined(f.call, CallFilterOf(AllWishes(b, hashes)))
             && r.block.triggerEveryBlock == (f.block.triggerEveryBlock || EveryBlockWanted(b))
             && r.block.contractAddresses == f.block.contractAddresses
    ensures r == FilterOf(a + b, hashes)
  {
    FlatMapAppend(a, b, (ds: DataSource) => LogEntries(ds, ds.mapping.eventHandlers, hashes));
    FlatMapAppend(a, b, (ds: DataSource) => WishesOf(ds, hashes));
    CallFilterAppend(AllWishes(a, hashes), AllWishes(b, hashes));
    EveryBlockAppend(a, b);
  }

  // ---------- What the call filter matches ----------

  predicate MatchesCall(f: CallFilter, call: EthereumCall)
    requires |call.input| >= 4
  {
    call.to in f && (f[call.to].selectors == {} || SelectorOf(call) in f[call.to].selectors)
  }

  ghost predicate Wished(wishes: seq<Wish>, address: Address, selector: Selector) {
    exists i :: 0 <= i < |wishes| && wishes[i].address == address && wishes[i].selector == selector
  }

  /** The map holds exactly the wished selectors, and the lowest of their start blocks. */
  lemma {:induction false} CallFilterMeaning(wishes: seq<Wish>, address: Address)
    ensures var f := CallFilterOf(wishes);
            && (address in f <==> exists i :: 0 <= i < |wishes| && wishes[i].address == address)
            && (address in f ==>
                  && f[address].selectors != {}
                  && (forall s :: s in f[address].selectors <==> Wished(wishes, address, s))
                  && (forall i :: 0 <= i < |wishes| && wishes[i].address == address ==>
                       f[address].startBlock <= wishes[i].startBlock)
                  && (exists i :: 0 <= i < |wishes| && wishes[i].address == address &&
                                 f[address].startBlock == wishes[i].startBlock))
  {
    if wishes != [] {
      var n := |wishes| - 1;
      var rest, w := wishes[..n], wishes[n];
      CallFilterMeaning(rest, address);
      forall s ensures Wished(wishes, address, s) <==>
               Wished(rest, address, s) || (w.address == address && w.selector == s) {
        WishedSnoc(wishes, address, s);
      }
      if address in CallFilterOf(rest) {
        var i :| 0 <= i < |rest| && rest[i].address == address &&
            CallFilterOf(rest)[address].startBlock == rest[i].startBlock;
        assert wishes[i] == rest[i];
      }
    }
  }

  lemma WishedSnoc(wishes: seq<Wish>, address: Address, s: Selector)
    requires wishes != []
    ensures Wished(wishes, address, s) <==>
            Wished(wishes[..|wishes| - 1], address, s) ||
            (wishes[|wishes| - 1].address == address && wishes[|wishes| - 1].selector == s)
  {
    var n := |wishes| - 1;
    var rest := wishes[..n];
    if Wished(rest, address, s) {
      var i :| 0 <= i < n && rest[i].address == address && rest[i].selector == s;
      assert wishes[i] == rest[i];
    }
    if Wished(wishes, address, s) {
      var i :| 0 <= i < |wishes| && wishes[i].address == address && wishes[i].selector == s;
      assert i < n ==> rest[i] == wishes[i];
    }
  }
}
