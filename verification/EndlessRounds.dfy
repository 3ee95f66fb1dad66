/**
 The rounds of a block need not end when handlers can name data sources without bound: a chain with
 one log, a contract with one event, and a handler that creates a data source for the same contract
 with a longer context (`process_block` in manager/src/indexer/instance_manager.rs).

 Addresses are parsed, triggers searched for and logs decoded as the other modules say.
 */
module EndlessRounds {
  import opened Common
  import opened EthereumTypes
  import opened EventSignatures
  import opened DataSources
  import opened TriggerFilters
  import opened ChainScan
  import opened BlocksWithTriggers
  import opened TriggerScan
  import EntityCaches
  import opened Handlers
  import opened Decoding
  import opened IndexerRounds
  import Scalars

  const TICK := Event("Tick", [])
  const ON_TICK := EventHandler("Tick()", None, "onTick")
  const ABI := MappingABI("Clock", [TICK])
  const MAPPING := Mapping("ethereum/events", "0.0.4", "wasm/assemblyscript", [], [ABI], [], [], [ON_TICK], [],
    "mapping.wasm")
  const TEMPLATE := Template("ethereum/contract", None, "Clock", "Clock", MAPPING)

  function AddressOf(bytes: seq<Byte>): Address {
    Address(Map(bytes, (b: Byte) => b as nat))
  }

  /** Forty hexadecimal digits. */
  function ParseAddress(s: string): Option<Address> {
    var bytes := Scalars.HexDecode(s);
    if bytes.Ok? && |bytes.value| == 20 then Some(AddressOf(bytes.value)) else None
  }

  /** What the handler asks for: the same contract, with a context that is one letter longer. */
  function Request(bytes: seq<Byte>, ds: DataSource): CreateRequest {
    var own := if ds.context.None? then "" else ds.context.value.json;
    CreateRequest("Clock", [Scalars.Display(bytes)], Some(Context(own + "x")))
  }

  function RuntimeOf(d: Decoder, bytes: seq<Byte>): Runtime {
    Runtime([TEMPLATE], ParseAddress, (ds: DataSource, t: Trigger) => MatchAndDecode(d, ds, t.BlockNumber(), t),
            (ds: DataSource, t: Trigger, st: BlockState) => Finished([Request(bytes, ds)], []))
  }

  /** The search for triggers in the block, through the filter of the new data sources. */
  function EnvIn(d: Decoder, c: ChainData, bytes: seq<Byte>, block: int): Env {
    Env(RuntimeOf(d, bytes), d.hashes, (f: TriggerFilter) => Ok(Due(c, block, f)), (ds: DataSource) => true)
  }

  /** The chain holds one log, of the contract's event. */
  ghost predicate Scene(d: Decoder, c: ChainData, bytes: seq<Byte>, log: Log) {
    && OfOneChain(c) && c.logs == [log] && c.traces == []
    && |bytes| == 20 && log.address == AddressOf(bytes) && log.topics == [Topic0(ON_TICK, d.hashes.topic)] &&
       log.blockNumber >= 0
    && d.parsesLog(TICK, log) && d.hasTransaction(LogTrigger(log))
  }

  function HashOf(n: int): H256 {
    H256([if n >= 0 then 2 * n else -2 * n - 1])
  }

  /** There are such chains, for every hash function and every contract address. */
  lemma SceneExists(hashes: Hashes, bytes: seq<Byte>) returns (d: Decoder, c: ChainData, log: Log)
    requires |bytes| == 20
    ensures d.hashes == hashes && Scene(d, c, bytes, log)
  {
    log := Log(AddressOf(bytes), [Topic0(ON_TICK, hashes.topic)], [], 7, HashOf(7), None, Some(0), Some(0));
    c := ChainData([log], [], (n: int) => HashOf(n));
    d := Decoder(hashes, (e: Event, l: Log) => true,
                 (ds: DataSource, h: CallHandler, call: EthereumCall) => true, (t: Trigger) => true);
  }

  // ---------- The data sources of the contract find and decode the log ----------

  predicate Ticking(ds: DataSource, bytes: seq<Byte>) {
    ds.source.address == Some(AddressOf(bytes)) && ds.source.startBlock == 0 && ds.mapping == MAPPING &&
      ds.contractAbi == ABI
  }

  lemma TickSignature()
    ensures IndexedSignature(TICK) == "Tick()"
    ensures ContractEventWithSignature([TICK], "Tick()") == Some(TICK)
  {
    assert IndexedPieces([]) == [];
    assert "Tick" + "(" + "" + ")" == "Tick()";
  }

  lemma TickDecodes(d: Decoder, c: ChainData, bytes: seq<Byte>, log: Log, ds: DataSource)
    requires Scene(d, c, bytes, log) && Ticking(ds, bytes)
    ensures MatchAndDecode(d, ds, log.blockNumber, LogTrigger(log)) == Ok(true)
  {
    TickHandlers(d, c, bytes, log, ds);
    TickParses(d, c, bytes, log, ds);
  }

  lemma TickHandlers(d: Decoder, c: ChainData, bytes: seq<Byte>, log: Log, ds: DataSource)
    requires Scene(d, c, bytes, log) && Ticking(ds, bytes)
    ensures HandlersForLog(ds, log, d.hashes.topic) == Ok([ON_TICK])
  {
    FilterOne(ON_TICK, (h: EventHandler) => log.topics[0] == Topic0(h, d.hashes.topic));
  }

  lemma TickParses(d: Decoder, c: ChainData, bytes: seq<Byte>, log: Log, ds: DataSource)
    requires Scene(d, c, bytes, log) && Ticking(ds, bytes)
    ensures EventOf(ds, ON_TICK) == Some(TICK) && Parsing(d, ds, [ON_TICK], log) == [ON_TICK]
  {
    TickSignature();
    FilterOne(ON_TICK, (h: EventHandler) => EventOf(ds, h).Some? && d.parsesLog(EventOf(ds, h).value, log));
  }

  lemma TickFilter(hashes: Hashes, bytes: seq<Byte>, ds: DataSource)
    requires Ticking(ds, bytes)
    ensures FilterOf([ds], hashes).log == [EthGetLogsFilter([AddressOf(bytes)], [Topic0(ON_TICK, hashes.topic)])]
    ensures FilterOf([ds], hashes).call == map[] && !FilterOf([ds], hashes).block.triggerEveryBlock
  {
    assert [ds][..0] == [];
    assert LogFilterOf([ds], hashes) == LogFilterOf([], hashes) + LogEntries(ds, [ON_TICK], hashes);
    assert AllWishes([ds], hashes) == AllWishes([], hashes) + WishesOf(ds, hashes);
  }

  lemma TickDue(d: Decoder, c: ChainData, bytes: seq<Byte>, log: Log, ds: DataSource)
    requires Scene(d, c, bytes, log) && Ticking(ds, bytes)
    ensures Due(c, log.blockNumber, FilterOf([ds], d.hashes)) == [LogTrigger(log)]
  {
    TickFilter(d.hashes, bytes, ds);
    var n, f := log.blockNumber, FilterOf([ds], d.hashes);
    TickFound(d, c, bytes, log, f.log[0]);
    assert CallScan(c.traces, n, n, f.call) == [] && Pointers(c, n, n, f) == [];
    assert Scanned([log], [], []) == [LogTrigger(log)];
  }

  lemma MatchedAlone(log: Log, entry: EthGetLogsFilter)
    requires LogMatches(entry, log)
    ensures Query([log], log.blockNumber, log.blockNumber, entry) == [log]
  {
    FilterOne(log, (l: Log) => InRange(log.blockNumber, log.blockNumber, l.blockNumber) && LogMatches(entry, l));
  }

  lemma TickFound(d: Decoder, c: ChainData, bytes: seq<Byte>, log: Log, entry: EthGetLogsFilter)
    requires Scene(d, c, bytes, log) && entry == EthGetLogsFilter([AddressOf(bytes)], [Topic0(ON_TICK, d.hashes.topic)])
    ensures LogScan(c.logs, log.blockNumber, log.blockNumber, [entry]) == [log]
  {
    var n := log.blockNumber;
    FlatMapOne(entry, (f: EthGetLogsFilter) => Query(c.logs, n, n, f));
    MatchedAlone(log, entry);
  }

  // ---------- So each round creates one more ----------

  function ContextLength(ds: DataSource): nat {
    if ds.context.None? then 0 else |ds.context.value.json|
  }

  function InfoOf(bytes: seq<Byte>, json: string, block: int): TemplateInfo {
    TemplateInfo(TEMPLATE, [Scalars.Display(bytes)], Some(Context(json)), block)
  }

  /** One data source is waiting, with a longer context than any host. */
  ghost predicate Waiting(bytes: seq<Byte>, block: int, n: nat, r: Round) {
    && (exists json :: |json| == n + 1 && r.state.created == [InfoOf(bytes, json, block)])
    && (forall i :: 0 <= i < |r.hosts| ==> ContextLength(r.hosts[i]) <= n)
    && NotAfter(LastBlock(r.hosts), Some(block))
  }

  lemma HandlerCreates(d: Decoder, bytes: seq<Byte>, ds: DataSource, t: Trigger, block: int, st: BlockState)
    returns (json: string)
    ensures |json| == ContextLength(ds) + 1
    ensures RunHandler(RuntimeOf(d, bytes), block, ds, t, st) ==
            Ok(st.(created := st.created + [InfoOf(bytes, json, block)]))
  {
    var rt, request := RuntimeOf(d, bytes), Request(bytes, ds);
    json := request.context.value.json;
    assert [request][..0] == [] && Resolve(rt.templates, [], block) == Some([]);
    assert FirstNamed(rt.templates, "Clock") == Some(TEMPLATE);
    assert Resolve(rt.templates, [request], block) == Some([] + [InfoOf(bytes, json, block)]);
    assert [] + [InfoOf(bytes, json, block)] == [InfoOf(bytes, json, block)];
    assert st.writes + [] == st.writes;
    assert rt.handler(ds, t, st) == Finished([request], []);
    assert RunHandler(rt, block, ds, t, st) ==
           Ok(st.(created := st.created + [InfoOf(bytes, json, block)], writes := st.writes + []));
  }

  lemma RuntimeDecodes(d: Decoder, bytes: seq<Byte>, ds: DataSource, t: Trigger)
    ensures RuntimeOf(d, bytes).decode(ds, t) == MatchAndDecode(d, ds, t.BlockNumber(), t)
  {
  }

  lemma TickRuns(d: Decoder, c: ChainData, bytes: seq<Byte>, log: Log, ds: DataSource, st: BlockState)
    returns (json: string)
    requires Scene(d, c, bytes, log) && Ticking(ds, bytes)
    ensures |json| == ContextLength(ds) + 1
    ensures RunTriggers(RuntimeOf(d, bytes), log.blockNumber, [ds], [LogTrigger(log)], st) ==
            Ok(st.(created := st.created + [InfoOf(bytes, json, log.blockNumber)]))
  {
    var rt, t := RuntimeOf(d, bytes), LogTrigger(log);
    json := HandlerCreates(d, bytes, ds, t, log.blockNumber, st);
    assert rt.decode(ds, t) == Ok(true) by {
      TickDecodes(d, c, bytes, log, ds);
      RuntimeDecodes(d, bytes, ds, t);
    }
    OneHostOneTrigger(rt, log.blockNumber, ds, t, st);
  }

  lemma Instantiates(bytes: seq<Byte>, json: string, block: int) returns (ds: DataSource)
    requires |bytes| == 20
    ensures FromTemplate(InfoOf(bytes, json, block), ParseAddress) == Ok(ds)
    ensures Ticking(ds, bytes) && ds.context == Some(Context(json)) && ds.creationBlock == Some(block)
  {
    Scalars.ParseDisplay(bytes);
    ds := FromTemplate(InfoOf(bytes, json, block), ParseAddress).value;
  }

  lemma OneIsCreated(d: Decoder, c: ChainData, bytes: seq<Byte>, block: int, n: nat, r: Round) returns (ds: DataSource)
    requires |bytes| == 20 && Waiting(bytes, block, n, r)
    ensures Created(EnvIn(d, c, bytes, block), r.hosts, r.state.created) == Ok([ds])
    ensures Ticking(ds, bytes) && ContextLength(ds) == n + 1 && ds.creationBlock == Some(block)
  {
    var env := EnvIn(d, c, bytes, block);
    var json :| |json| == n + 1 && r.state.created == [InfoOf(bytes, json, block)];
    ds := Instantiates(bytes, json, block);
    NotHosted(r.hosts, ds, n);
    CreatedOne(env, r.hosts, InfoOf(bytes, json, block), ds);
  }

  lemma NotHosted(hosts: seq<DataSource>, ds: DataSource, n: nat)
    requires ContextLength(ds) > n && forall i :: 0 <= i < |hosts| ==> ContextLength(hosts[i]) <= n
    ensures !Hosted(hosts, ds)
  {
    assert forall i :: 0 <= i < |hosts| && IsDuplicateOf(ds, hosts[i]) ==> ContextLength(hosts[i]) == ContextLength(ds);
  }

  lemma RoundCreates(d: Decoder, c: ChainData, bytes: seq<Byte>, log: Log, n: nat, r: Round)
    requires Scene(d, c, bytes, log) && Waiting(bytes, log.blockNumber, n, r)
    ensures IndexerRounds.Step(EnvIn(d, c, bytes, log.blockNumber), log.blockNumber, r).Ok?
    ensures Waiting(bytes, log.blockNumber, n + 1, IndexerRounds.Step(EnvIn(d, c, bytes, log.blockNumber),
            log.blockNumber, r).value)
  {
    var env, block := EnvIn(d, c, bytes, log.blockNumber), log.blockNumber;
    var ds := OneIsCreated(d, c, bytes, block, n, r);
    var state := r.state.(created := [], dataSources := r.state.dataSources + Map([ds], AsStored));
    var json := TickRuns(d, c, bytes, log, ds, state);
    var state' := state.(created := [] + [InfoOf(bytes, json, block)]);
    TickDue(d, c, bytes, log, ds);
    StepIs(env, block, r, [ds], [LogTrigger(log)], state');
    StillWaiting(bytes, block, n, r.hosts, ds, json, state');
  }

  lemma StillWaiting(bytes: seq<Byte>, block: int, n: nat, hosts: seq<DataSource>, ds: DataSource, json: string,
                     st: BlockState)
    requires forall i :: 0 <= i < |hosts| ==> ContextLength(hosts[i]) <= n
    requires ContextLength(ds) == n + 1 && ds.creationBlock == Some(block)
    requires |json| == n + 2 && st.created == [] + [InfoOf(bytes, json, block)]
    ensures Waiting(bytes, block, n + 1, Round(hosts + [ds], st))
  {
    assert [] + [InfoOf(bytes, json, block)] == [InfoOf(bytes, json, block)];
  }

  ghost predicate AnyWaiting(bytes: seq<Byte>, block: int, r: Round) {
    exists n: nat :: Waiting(bytes, block, n, r)
  }

  lemma RoundsGoOnFrom(d: Decoder, c: ChainData, bytes: seq<Byte>, log: Log, r: Round, n: nat)
    requires Scene(d, c, bytes, log) && AnyWaiting(bytes, log.blockNumber, r)
    ensures !Settled(Rounds(StepOf(EnvIn(d, c, bytes, log.blockNumber), log.blockNumber), r, n))
  {
    var step, inv := StepOf(EnvIn(d, c, bytes, log.blockNumber), log.blockNumber),
        (x: Round) => AnyWaiting(bytes, log.blockNumber, x);
    forall x | inv(x) ensures step(x).Ok? && inv(step(x).value) {
      var k: nat :| Waiting(bytes, log.blockNumber, k, x);
      RoundCreates(d, c, bytes, log, k, x);
    }
    RoundsGoOn(step, inv, r, n);
  }

  /**
   An indexer with one data source for the contract, a block with its one log, and the rounds of
   that block never end.
   */
  lemma RoundsNeedNotEnd(d: Decoder, c: ChainData, bytes: seq<Byte>, log: Log, host: DataSource,
                         stored: EntityCaches.Store)
    requires Scene(d, c, bytes, log) && Ticking(host, bytes) && host.context.None? && host.creationBlock.None?
    ensures var env, block := EnvIn(d, c, bytes, log.blockNumber), log.blockNumber;
            var triggers := Due(c, block, FilterOf([host], d.hashes));
            var first := RunTriggers(env.rt, block, [host], triggers, Fresh(stored));
            first.Ok? && forall n: nat :: !Settled(Rounds(StepOf(env, block), Round([host], first.value), n))
  {
    var env, block, empty := EnvIn(d, c, bytes, log.blockNumber), log.blockNumber, Fresh(stored);
    TickDue(d, c, bytes, log, host);
    var json := TickRuns(d, c, bytes, log, host, empty);
    var first := empty.(created := [] + [InfoOf(bytes, json, block)]);
    FirstWaits(bytes, block, host, json, first);
    forall n: nat ensures !Settled(Rounds(StepOf(env, block), Round([host], first), n)) {
      RoundsGoOnFrom(d, c, bytes, log, Round([host], first), n);
    }
  }

  lemma FirstWaits(bytes: seq<Byte>, block: int, host: DataSource, json: string, st: BlockState)
    requires host.context.None? && host.creationBlock.None? && |json| == 1 &&
             st.created == [] + [InfoOf(bytes, json, block)]
    ensures Waiting(bytes, block, 0, Round([host], st))
  {
    assert [] + [InfoOf(bytes, json, block)] == [InfoOf(bytes, json, block)];
  }
}
