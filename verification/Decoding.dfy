/**
 Which triggers a data source decodes (`match_and_decode` in chain/ethereum/src/data_source.rs), and
 what that means for the scan: everything that some host decodes is due, so no scan misses it; and
 how often its handler runs.

 Parsing a log or a call with the contract's ABI and finding its transaction are parameters.
 */
module Decoding {
  import opened Common
  import opened EthereumTypes
  import opened EventSignatures
  import opened DataSources
  import opened TriggerFilters
  import opened ChainScan
  import opened BlocksWithTriggers
  import opened TriggerScan
  import opened Handlers

  datatype Decoder = Decoder(
    hashes: Hashes,
    parsesLog: (Event, Log) -> bool,
    parsesCall: (DataSource, CallHandler, EthereumCall) -> bool,
    hasTransaction: Trigger -> bool)

  predicate HasBlockHandler(ds: DataSource, kind: BlockTriggerType) {
    match kind
    case Every => HasUnfilteredHandler(ds)
    case WithCallTo(_) => HasCallFilteredHandler(ds)
  }

  function EventOf(ds: DataSource, h: EventHandler): Option<Event> {
    ContractEventWithSignature(ds.contractAbi.events, h.event)
  }

  /** The handlers for the log whose event parses it. */
  function Parsing(d: Decoder, ds: DataSource, handlers: seq<EventHandler>, log: Log): seq<EventHandler> {
    Filter(handlers, (h: EventHandler) => EventOf(ds, h).Some? && d.parsesLog(EventOf(ds, h).value, log))
  }

  function DecodeLog(d: Decoder, ds: DataSource, log: Log): Result<bool, string> {
    var handlers := HandlersForLog(ds, log, d.hashes.topic);
    if handlers.Err? then Err(handlers.error)
    else if exists i :: 0 <= i < |handlers.value| && EventOf(ds, handlers.value[i]).None?
        then Err("event not found in contract")
    else
      var parsing := Parsing(d, ds, handlers.value, log);
      if parsing == [] then Ok(false)
      else if |parsing| > 1 then Err("multiple handlers defined for event")
      else if !d.hasTransaction(LogTrigger(log)) then Err("found no transaction for event")
      else Ok(true)
  }

  function DecodeCall(d: Decoder, ds: DataSource, call: EthereumCall): Result<bool, string> {
    if |call.input| < 4 then Err("call has input with less than 4 bytes")
    else
      var handler := HandlerForCall(ds, call, d.hashes.selector);
      if handler.None? then Ok(false)
      else if !d.parsesCall(ds, handler.value, call) then Err("cannot decode call")
      else if !d.hasTransaction(CallTrigger(call)) then Err("found no transaction for call")
      else Ok(true)
  }

  function MatchAndDecode(d: Decoder, ds: DataSource, block: int, t: Trigger): Result<bool, string> {
    if !MatchesAddress(ds, t) || ds.source.startBlock > block then Ok(false)
    else
      match t
      case BlockTrigger(_, kind) => Ok(HasBlockHandler(ds, kind))
      case LogTrigger(log) => DecodeLog(d, ds, log)
      case CallTrigger(call) => DecodeCall(d, ds, call)
  }

  // ---------- What is decoded is due ----------

  /** The trigger is of this chain. */
  ghost predicate OfChain(c: ChainData, t: Trigger) {
    match t
    case LogTrigger(log) => log in c.logs
    case CallTrigger(call) => exists n :: 0 <= n < |c.traces| && CallOfTrace(c.traces[n]) == Some(call)
    case BlockTrigger(ptr, kind) => kind == Every && ptr.hash == c.hash(ptr.number)
  }

  lemma ScannedIn(logs: seq<Log>, calls: seq<EthereumCall>, ptrs: seq<BlockPtr>)
    ensures forall log :: log in logs ==> LogTrigger(log) in Scanned(logs, calls, ptrs)
    ensures forall call :: call in calls ==> CallTrigger(call) in Scanned(logs, calls, ptrs)
    ensures forall ptr :: ptr in ptrs ==> BlockTrigger(ptr, Every) in Scanned(logs, calls, ptrs)
  {
    var s := Scanned(logs, calls, ptrs);
    forall i | 0 <= i < |logs| ensures LogTrigger(logs[i]) in s {
      assert s[i] == LogTrigger(logs[i]);
    }
    forall i | 0 <= i < |calls| ensures CallTrigger(calls[i]) in s {
      assert s[|logs| + i] == CallTrigger(calls[i]);
    }
    forall i | 0 <= i < |ptrs| ensures BlockTrigger(ptrs[i], Every) in s {
      assert s[|logs| + |calls| + i] == BlockTrigger(ptrs[i], Every);
    }
  }

  lemma DecodedLogIsDue(d: Decoder, dss: seq<DataSource>, i: nat, c: ChainData, log: Log)
    requires i < |dss| && log in c.logs && MatchAndDecode(d, dss[i], log.blockNumber, LogTrigger(log)) == Ok(true)
    ensures AcceptsLog(dss[i], log, d.hashes.topic)
    ensures LogTrigger(log) in Due(c, log.blockNumber, FilterOf(dss, d.hashes))
  {
    var n, f := log.blockNumber, FilterOf(dss, d.hashes);
    LogScanComplete(dss, i, c.logs, n, n, log, d.hashes);
    ScannedIn(LogScan(c.logs, n, n, f.log), CallScan(c.traces, n, n, f.call), Pointers(c, n, n, f));
  }

  lemma DecodedCallIsDue(d: Decoder, dss: seq<DataSource>, i: nat, c: ChainData, call: EthereumCall)
    requires i < |dss| && Valid(dss[i]) && OfChain(c, CallTrigger(call))
    requires MatchAndDecode(d, dss[i], call.blockNumber, CallTrigger(call)) == Ok(true)
    ensures CallTrigger(call) in Due(c, call.blockNumber, FilterOf(dss, d.hashes))
  {
    var n, f := call.blockNumber, FilterOf(dss, d.hashes);
    var k :| 0 <= k < |c.traces| && CallOfTrace(c.traces[k]) == Some(call);
    CallScanComplete(dss, i, c.traces, n, n, k, d.hashes);
    ScannedIn(LogScan(c.logs, n, n, f.log), CallScan(c.traces, n, n, f.call), Pointers(c, n, n, f));
  }

  lemma DecodedBlockIsDue(d: Decoder, dss: seq<DataSource>, i: nat, c: ChainData, ptr: BlockPtr)
    requires i < |dss| && Valid(dss[i]) && ptr.hash == c.hash(ptr.number)
    requires MatchAndDecode(d, dss[i], ptr.number, BlockTrigger(ptr, Every)) == Ok(true)
    ensures BlockTrigger(ptr, Every) in Due(c, ptr.number, FilterOf(dss, d.hashes))
  {
    var n, f := ptr.number, FilterOf(dss, d.hashes);
    assert dss[i].mapping.blockHandlers != [];
    assert f.block.triggerEveryBlock;
    assert Pointers(c, n, n, f)[0] == ptr;
    ScannedIn(LogScan(c.logs, n, n, f.log), CallScan(c.traces, n, n, f.call), Pointers(c, n, n, f));
  }

  /** Whatever some valid data source decodes is due in its block, for the filter of the whole list. */
  lemma DecodedIsDue(d: Decoder, dss: seq<DataSource>, i: nat, c: ChainData, t: Trigger)
    requires i < |dss| && Valid(dss[i]) && OfChain(c, t) && MatchAndDecode(d, dss[i], t.BlockNumber(), t) == Ok(true)
    ensures t in Due(c, t.BlockNumber(), FilterOf(dss, d.hashes))
  {
    match t
    case LogTrigger(log) => DecodedLogIsDue(d, dss, i, c, log);
    case CallTrigger(call) => DecodedCallIsDue(d, dss, i, c, call);
    case BlockTrigger(ptr, _) => DecodedBlockIsDue(d, dss, i, c, ptr);
  }

  /** In a range that a scan covers, a trigger that some host decodes comes in its block, as often as it is due. */
  lemma DecodedArrives(d: Decoder, dss: seq<DataSource>, i: nat, c: ChainData, from: int, last: int,
                       blocks: seq<BlockWithTriggers>, t: Trigger) returns (k: nat)
    requires i < |dss| && Valid(dss[i]) && OfChain(c, t) && MatchAndDecode(d, dss[i], t.BlockNumber(), t) == Ok(true)
    requires Covers(c, FilterOf(dss, d.hashes), from, last, blocks) && from < t.BlockNumber() <= last
    ensures k < |blocks| && blocks[k].block.number == t.BlockNumber()
    ensures multiset(blocks[k].triggers)[t] == multiset(Due(c, t.BlockNumber(), FilterOf(dss, d.hashes)))[t] > 0
  {
    DecodedIsDue(d, dss, i, c, t);
    assert HasBlock(blocks, t.BlockNumber());
    k :| 0 <= k < |blocks| && blocks[k].block.number == t.BlockNumber();
    assert Genuine(c, FilterOf(dss, d.hashes), blocks[k]);
    assert t in multiset(Due(c, t.BlockNumber(), FilterOf(dss, d.hashes)));
  }

  // ---------- Early calls are not decoded ----------

  /** A call before the start of every data source that names it is decoded by none. */
  lemma EarlyNotDecoded(d: Decoder, dss: seq<DataSource>, i: nat, call: EthereumCall)
    requires i < |dss| && Valid(dss[i]) && |call.input| >= 4
    requires EarlyCall(FilterOf(dss, d.hashes), call.blockNumber, CallTrigger(call))
    ensures MatchAndDecode(d, dss[i], call.blockNumber, CallTrigger(call)) == Ok(false)
  {
    var ds := dss[i];
    CallFilterMeaning(AllWishes(dss, d.hashes), call.to);
    if ds.source.address == Some(call.to) && ds.mapping.callHandlers != [] {
      var k := WishOfHandler(dss, i, 0, d.hashes);
    } else {
      assert ds.source.address != Some(call.to) || HandlerForCall(ds, call, d.hashes.selector).None?;
    }
  }

  // ---------- What the handlers see ----------

  /** The hosts decode as the data sources do. */
  ghost predicate Follows(rt: Runtime, d: Decoder) {
    forall ds, t: Trigger :: rt.decode(ds, t) == MatchAndDecode(d, ds, t.BlockNumber(), t)
  }

  ghost predicate AllValid(dss: seq<DataSource>) {
    forall i :: 0 <= i < |dss| ==> Valid(dss[i])
  }

  /**
   Whatever range a block was scanned in, its handlers make of it what they make of the triggers
   that are due in it, each as often as it is due.
   */
  lemma HandlersSeeWhatIsDue(rt: Runtime, d: Decoder, hosts: seq<DataSource>, c: ChainData, b: BlockWithTriggers,
                             st: BlockState)
    returns (due: seq<Trigger>)
    requires Follows(rt, d) && AllValid(hosts) && Genuine(c, FilterOf(hosts, d.hashes), b)
    ensures multiset(due) == multiset(Due(c, b.block.number, FilterOf(hosts, d.hashes)))
    ensures RunTriggers(rt, b.block.number, hosts, b.triggers, st) == RunTriggers(rt, b.block.number, hosts, due, st)
  {
    var n, f := b.block.number, FilterOf(hosts, d.hashes);
    var all := Due(c, n, f);
    var keep := (t: Trigger) => t in all;
    due := Filter(b.triggers, keep);
    forall t ensures multiset(due)[t] == multiset(all)[t] {
      FilterCount(b.triggers, keep, t);
      assert t !in all ==> t !in multiset(all);
    }
    forall t, i | t in b.triggers && !keep(t) && 0 <= i < |hosts| ensures rt.decode(hosts[i], t) == Ok(false) {
      EarlyNotDecoded(d, hosts, i, t.call);
    }
    IdleTriggers(rt, n, hosts, b.triggers, keep, st);
  }

  lemma DueLogCount(dss: seq<DataSource>, c: ChainData, log: Log, hashes: Hashes)
    ensures multiset(Due(c, log.blockNumber, FilterOf(dss, hashes)))[LogTrigger(log)] ==
            Times(multiset(c.logs)[log], HandlerCount(dss, log, hashes.topic))
  {
    var n, f := log.blockNumber, FilterOf(dss, hashes);
    ScannedLogCount(LogScan(c.logs, n, n, f.log), CallScan(c.traces, n, n, f.call), Pointers(c, n, n, f), log);
    LogMultiplicity(c.logs, n, n, f.log, log);
    MatchingFiltersAreHandlers(dss, log, hashes);
  }

  /**
   A host that decodes a log runs on it once for every event handler of all hosts that is meant
   for the log, not only for its own.
   */
  lemma LogHandledCount(rt: Runtime, d: Decoder, hosts: seq<DataSource>, i: nat, c: ChainData, b: BlockWithTriggers,
                        log: Log)
    requires Follows(rt, d) && Genuine(c, FilterOf(hosts, d.hashes), b) && log in c.logs &&
             log.blockNumber == b.block.number
    requires i < |hosts| && MatchAndDecode(d, hosts[i], log.blockNumber, LogTrigger(log)) == Ok(true)
    ensures multiset(Invocations(rt, hosts, b.triggers))[Invocation(hosts[i], LogTrigger(log))] ==
            Times(multiset(hosts)[hosts[i]], Times(multiset(c.logs)[log], HandlerCount(hosts, log, d.hashes.topic)))
  {
    DecodedLogIsDue(d, hosts, i, c, log);
    DueLogCount(hosts, c, log, d.hashes);
    InvocationCount(rt, hosts, b.triggers, Invocation(hosts[i], LogTrigger(log)));
  }

  /** So it runs exactly once if and only if exactly one event handler of all hosts is meant for the log. */
  lemma OnceIffOneHandler(rt: Runtime, d: Decoder, hosts: seq<DataSource>, i: nat, c: ChainData, b: BlockWithTriggers,
                          log: Log)
    requires Follows(rt, d) && Genuine(c, FilterOf(hosts, d.hashes), b) && log in c.logs &&
             log.blockNumber == b.block.number
    requires i < |hosts| && MatchAndDecode(d, hosts[i], log.blockNumber, LogTrigger(log)) == Ok(true)
    requires multiset(c.logs)[log] == 1 && multiset(hosts)[hosts[i]] == 1
    ensures multiset(Invocations(rt, hosts, b.triggers))[Invocation(hosts[i], LogTrigger(log))] == 1 <==>
            HandlerCount(hosts, log, d.hashes.topic) == 1
  {
    LogHandledCount(rt, d, hosts, i, c, b, log);
  }

  /** A host that decodes a call runs on it once for every trace of the call. */
  lemma CallHandledCount(rt: Runtime, d: Decoder, hosts: seq<DataSource>, i: nat, c: ChainData, b: BlockWithTriggers,
                         call: EthereumCall)
    requires Follows(rt, d) && Genuine(c, FilterOf(hosts, d.hashes), b)
    requires OfChain(c, CallTrigger(call)) && call.blockNumber == b.block.number
    requires i < |hosts| && Valid(hosts[i]) && MatchAndDecode(d, hosts[i], call.blockNumber, CallTrigger(call)) ==
             Ok(true)
    ensures multiset(Invocations(rt, hosts, b.triggers))[Invocation(hosts[i], CallTrigger(call))] ==
            Times(multiset(hosts)[hosts[i]], CallCount(c.traces, call)) > 0
  {
    var n, f := call.blockNumber, FilterOf(hosts, d.hashes);
    DecodedCallIsDue(d, hosts, i, c, call);
    ScannedCallCount(LogScan(c.logs, n, n, f.log), CallScan(c.traces, n, n, f.call), Pointers(c, n, n, f), call);
    CallMultiplicity(c.traces, n, n, f.call, call);
    assert CallTrigger(call) in multiset(Due(c, n, f));
    InvocationCount(rt, hosts, b.triggers, Invocation(hosts[i], CallTrigger(call)));
    assert hosts[i] in multiset(hosts);
    Positive(multiset(hosts)[hosts[i]], CallCount(c.traces, call));
  }
}
