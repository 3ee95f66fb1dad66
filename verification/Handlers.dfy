/**
 Running mapping handlers on triggers: what one handler does to the state of the block
 (`invoke_handler` in runtime/wasm/src/module/mod.rs, `data_source_create` in
 runtime/wasm/src/host_exports.rs, `BlockState` in massbit/src/components/indexer/instance.rs) and
 the loop over the hosts (`process_trigger_in_runtime_hosts` in manager/src/indexer/instance.rs).

 Decoding a trigger and the handler's own code are parameters.
 */
module Handlers {
  import opened Common
  import opened EthereumTypes
  import opened DataSources
  import opened EntityOps
  import opened EntityCaches

  datatype Write = Write(key: EntityKey, op: EntityOp)

  /** A handler's call of `dataSource.create`. */
  datatype CreateRequest = CreateRequest(name: string, params: seq<string>, context: Option<Context>)

  datatype HandlerOutcome =
    | Finished(requests: seq<CreateRequest>, writes: seq<Write>)
    | Trapped(message: string)
    | ReorgSuspected(message: string)
    | Aborted(message: string)

  /** `stored` are the entities that the block found in the store; handlers read through to them. */
  datatype BlockState = BlockState(created: seq<TemplateInfo>, errors: seq<string>, writes: seq<Write>,
                                   dataSources: seq<Stored>, stored: Store)

  function Fresh(stored: Store): BlockState {
    BlockState([], [], [], [], stored)
  }

  datatype MappingError = PossibleReorg(message: string) | Unknown(message: string)

  /** The templates of the manifest, and everything outside: addresses, decoding and the handlers. */
  datatype Runtime = Runtime(
    templates: seq<Template>,
    parseAddress: string -> Option<Address>,
    decode: (DataSource, Trigger) -> Result<bool, string>,
    handler: (DataSource, Trigger, BlockState) -> HandlerOutcome)

  /** The created data sources, if every requested template exists. */
  function Resolve(templates: seq<Template>, requests: seq<CreateRequest>, block: int): Option<seq<TemplateInfo>> {
    if requests == [] then Some([])
    else
      var rest, last := Resolve(templates, requests[..|requests| - 1], block), requests[|requests| - 1];
      var t := FirstNamed(templates, last.name);
      if rest.None? || t.None? then None
      else Some(rest.value + [TemplateInfo(t.value, last.params, last.context, block)])
  }

  /** A handler that traps, or asks for an unknown template, leaves only an error behind. */
  function RunHandler(rt: Runtime, block: int, ds: DataSource, trigger: Trigger, st: BlockState)
    : Result<BlockState, MappingError> {
    match rt.handler(ds, trigger, st)
    case Finished(requests, writes) =>
      var infos := Resolve(rt.templates, requests, block);
      if infos.None? then Ok(st.(errors := st.errors + ["no template with this name"]))
      else Ok(st.(created := st.created + infos.value, writes := st.writes + writes))
    case Trapped(message) => Ok(st.(errors := st.errors + [message]))
    case ReorgSuspected(message) => Err(PossibleReorg(message))
    case Aborted(message) => Err(Unknown(message))
  }

  function RunHost(rt: Runtime, block: int, ds: DataSource, trigger: Trigger, st: BlockState)
    : Result<BlockState, MappingError> {
    match rt.decode(ds, trigger)
    case Err(message) => Err(Unknown(message))
    case Ok(matched) => if matched then RunHandler(rt, block, ds, trigger, st) else Ok(st)
  }

  /** The hosts see the trigger in order, each on the state the one before left. */
  function RunHosts(rt: Runtime, block: int, hosts: seq<DataSource>, trigger: Trigger, st: BlockState)
    : Result<BlockState, MappingError> {
    if hosts == [] then Ok(st)
    else
      var before := RunHosts(rt, block, hosts[..|hosts| - 1], trigger, st);
      if before.Err? then before else RunHost(rt, block, hosts[|hosts| - 1], trigger, before.value)
  }

  function RunTriggers(rt: Runtime, block: int, hosts: seq<DataSource>, triggers: seq<Trigger>, st: BlockState)
    : Result<BlockState, MappingError> {
    if triggers == [] then Ok(st)
    else
      var before := RunTriggers(rt, block, hosts, triggers[..|triggers| - 1], st);
      if before.Err? then before else RunHosts(rt, block, hosts, triggers[|triggers| - 1], before.value)
  }

  method ProcessTriggerInRuntimeHosts(rt: Runtime, block: int, hosts: seq<DataSource>, trigger: Trigger,
                                      state: BlockState)
    returns (r: Result<BlockState, MappingError>)
    ensures r == RunHosts(rt, block, hosts, trigger, state)
  {
    r := Ok(state);
    for i := 0 to |hosts|
      invariant r.Ok? && r == RunHosts(rt, block, hosts[..i], trigger, state)
    {
      assert hosts[..i + 1][..i] == hosts[..i];
      var matched := rt.decode(hosts[i], trigger);
      match matched {
        case Err(message) =>
          r := Err(Unknown(message));
          FailureSticks(rt, block, hosts, i + 1, trigger, state);
          return;
        case Ok(b) =>
          if b {
            r := RunHandler(rt, block, hosts[i], trigger, r.value);
            if r.Err? {
              FailureSticks(rt, block, hosts, i + 1, trigger, state);
              return;
            }
          }
      }
    }
    assert hosts[..|hosts|] == hosts;
  }

  lemma {:induction false} FailureSticks(rt: Runtime, block: int, hosts: seq<DataSource>, i: nat, trigger: Trigger,
                                         st: BlockState)
    requires i <= |hosts| && RunHosts(rt, block, hosts[..i], trigger, st).Err?
    ensures RunHosts(rt, block, hosts, trigger, st) == RunHosts(rt, block, hosts[..i], trigger, st)
  {
    if i < |hosts| {
      var rest := hosts[..|hosts| - 1];
      assert rest[..i] == hosts[..i];
      FailureSticks(rt, block, rest, i, trigger, st);
    } else {
      assert hosts[..i] == hosts;
    }
  }

  method ProcessTriggers(rt: Runtime, block: int, hosts: seq<DataSource>, triggers: seq<Trigger>, state: BlockState)
    returns (r: Result<BlockState, MappingError>)
    ensures r == RunTriggers(rt, block, hosts, triggers, state)
  {
    r := Ok(state);
    for i := 0 to |triggers|
      invariant r.Ok? && r == RunTriggers(rt, block, hosts, triggers[..i], state)
    {
      assert triggers[..i + 1][..i] == triggers[..i];
      r := ProcessTriggerInRuntimeHosts(rt, block, hosts, triggers[i], r.value);
      if r.Err? {
        TriggerFailureSticks(rt, block, hosts, triggers, i + 1, state);
        return;
      }
    }
    assert triggers[..|triggers|] == triggers;
  }

  lemma {:induction false} TriggerFailureSticks(rt: Runtime, block: int, hosts: seq<DataSource>,
                                                triggers: seq<Trigger>, i: nat, st: BlockState)
    requires i <= |triggers| && RunTriggers(rt, block, hosts, triggers[..i], st).Err?
    ensures RunTriggers(rt, block, hosts, triggers, st) == RunTriggers(rt, block, hosts, triggers[..i], st)
  {
    if i < |triggers| {
      var rest := triggers[..|triggers| - 1];
      assert rest[..i] == triggers[..i];
      TriggerFailureSticks(rt, block, hosts, rest, i, st);
    } else {
      assert triggers[..i] == triggers;
    }
  }

  lemma OneHostOneTrigger(rt: Runtime, block: int, ds: DataSource, t: Trigger, st: BlockState)
    requires rt.decode(ds, t) == Ok(true)
    ensures RunTriggers(rt, block, [ds], [t], st) == RunHandler(rt, block, ds, t, st)
  {
    assert [ds][..0] == [] && RunHosts(rt, block, [], t, st) == Ok(st);
    assert RunHosts(rt, block, [ds], t, st) == RunHandler(rt, block, ds, t, st);
    assert [t][..0] == [] && RunTriggers(rt, block, [ds], [], st) == Ok(st);
  }

  // ---------- Which handlers run ----------

  datatype Invocation = Invocation(host: DataSource, trigger: Trigger)

  function HostCalls(rt: Runtime, hosts: seq<DataSource>, trigger: Trigger): seq<Invocation> {
    if hosts == [] then []
    else
      var host := hosts[|hosts| - 1];
      HostCalls(rt, hosts[..|hosts| - 1], trigger) + if rt.decode(host, trigger) == Ok(true)
                then [Invocation(host, trigger)] else []
  }

  /** The handlers that run on the triggers of a block, in order. */
  function Invocations(rt: Runtime, hosts: seq<DataSource>, triggers: seq<Trigger>): seq<Invocation> {
    if triggers == [] then []
    else Invocations(rt, hosts, triggers[..|triggers| - 1]) + HostCalls(rt, hosts, triggers[|triggers| - 1])
  }

  function RunAll(rt: Runtime, block: int, calls: seq<Invocation>, st: BlockState): Result<BlockState, MappingError> {
    if calls == [] then Ok(st)
    else
      var before, last := RunAll(rt, block, calls[..|calls| - 1], st), calls[|calls| - 1];
      if before.Err? then before else RunHandler(rt, block, last.host, last.trigger, before.value)
  }

  lemma {:induction false} RunAllAppend(rt: Runtime, block: int, a: seq<Invocation>, b: seq<Invocation>, st: BlockState)
    requires RunAll(rt, block, a, st).Ok?
    ensures RunAll(rt, block, a + b, st) == RunAll(rt, block, b, RunAll(rt, block, a, st).value)
  {
    if b == [] {
      assert a + b == a;
    } else {
      var rest := b[..|b| - 1];
      RunAllAppend(rt, block, a, rest, st);
      assert (a + b)[..|a + b| - 1] == a + rest;
    }
  }

  lemma {:induction false} HostsRunCalls(rt: Runtime, block: int, hosts: seq<DataSource>, trigger: Trigger,
                                         st: BlockState)
    requires RunHosts(rt, block, hosts, trigger, st).Ok?
    ensures RunAll(rt, block, HostCalls(rt, hosts, trigger), st) == RunHosts(rt, block, hosts, trigger, st)
  {
    if hosts != [] {
      var rest, host := hosts[..|hosts| - 1], hosts[|hosts| - 1];
      HostsRunCalls(rt, block, rest, trigger, st);
      var before := HostCalls(rt, rest, trigger);
      if rt.decode(host, trigger) == Ok(true) {
        assert (before + [Invocation(host, trigger)])[..|before|] == before;
      } else {
        assert before + [] == before;
      }
    }
  }

  /** Processing triggers is running exactly these handlers, one after the other. */
  lemma {:induction false} TriggersRunInvocations(rt: Runtime, block: int, hosts: seq<DataSource>,
                                                  triggers: seq<Trigger>, st: BlockState)
    requires RunTriggers(rt, block, hosts, triggers, st).Ok?
    ensures RunAll(rt, block, Invocations(rt, hosts, triggers), st) == RunTriggers(rt, block, hosts, triggers, st)
  {
    if triggers != [] {
      var rest, last := triggers[..|triggers| - 1], triggers[|triggers| - 1];
      TriggersRunInvocations(rt, block, hosts, rest, st);
      var mid := RunTriggers(rt, block, hosts, rest, st).value;
      HostsRunCalls(rt, block, hosts, last, mid);
      RunAllAppend(rt, block, Invocations(rt, hosts, rest), HostCalls(rt, hosts, last), st);
    }
  }

  lemma {:induction false} HostCallCount(rt: Runtime, hosts: seq<DataSource>, trigger: Trigger, call: Invocation)
    ensures multiset(HostCalls(rt, hosts, trigger))[call] ==
            if call.trigger == trigger && rt.decode(call.host, trigger) == Ok(true) then multiset(hosts)[call.host]
                else 0
  {
    if hosts != [] {
      var rest, host := hosts[..|hosts| - 1], hosts[|hosts| - 1];
      HostCallCount(rt, rest, trigger, call);
      assert hosts == rest + [host];
    }
  }

  /** A host runs on a trigger that it decodes as often as the trigger comes, times as often as it is listed. */
  lemma {:induction false} InvocationCount(rt: Runtime, hosts: seq<DataSource>, triggers: seq<Trigger>,
                                           call: Invocation)
    ensures multiset(Invocations(rt, hosts, triggers))[call] ==
            if rt.decode(call.host, call.trigger) == Ok(true)
            then Times(multiset(hosts)[call.host], multiset(triggers)[call.trigger]) else 0
  {
    if triggers != [] {
      var rest, last := triggers[..|triggers| - 1], triggers[|triggers| - 1];
      InvocationCount(rt, hosts, rest, call);
      HostCallCount(rt, hosts, last, call);
      MultisetPlus(Invocations(rt, hosts, rest), HostCalls(rt, hosts, last), call);
      MultisetSnoc(triggers, call.trigger);
      TimesSucc(multiset(hosts)[call.host], multiset(rest)[call.trigger]);
    } else {
      assert Times(multiset(hosts)[call.host], 0) == 0;
    }
  }

  lemma MultisetPlus<T>(a: seq<T>, b: seq<T>, x: T)
    ensures multiset(a + b)[x] == multiset(a)[x] + multiset(b)[x]
  {
  }

  lemma MultisetSnoc<T>(s: seq<T>, x: T)
    requires s != []
    ensures multiset(s)[x] == multiset(s[..|s| - 1])[x] + if s[|s| - 1] == x then 1 else 0
  {
    assert s == s[..|s| - 1] + [s[|s| - 1]];
  }

  /** Triggers that no host decodes change nothing. */
  lemma {:induction false} IdleHosts(rt: Runtime, block: int, hosts: seq<DataSource>, trigger: Trigger, st: BlockState)
    requires forall i :: 0 <= i < |hosts| ==> rt.decode(hosts[i], trigger) == Ok(false)
    ensures RunHosts(rt, block, hosts, trigger, st) == Ok(st)
  {
    if hosts != [] {
      IdleHosts(rt, block, hosts[..|hosts| - 1], trigger, st);
    }
  }

  ghost predicate IdleUnless(rt: Runtime, hosts: seq<DataSource>, triggers: seq<Trigger>, keep: Trigger -> bool) {
    forall t, i :: t in triggers && !keep(t) && 0 <= i < |hosts| ==> rt.decode(hosts[i], t) == Ok(false)
  }

  lemma {:induction false} IdleTriggers(rt: Runtime, block: int, hosts: seq<DataSource>, triggers: seq<Trigger>,
                                        keep: Trigger -> bool,
                                        st: BlockState)
    requires IdleUnless(rt, hosts, triggers, keep)
    ensures RunTriggers(rt, block, hosts, triggers, st) == RunTriggers(rt, block, hosts, Filter(triggers, keep), st)
  {
    if triggers != [] {
      var rest, last := triggers[..|triggers| - 1], triggers[|triggers| - 1];
      IdleTriggers(rt, block, hosts, rest, keep, st);
      var kept := Filter(rest, keep);
      if keep(last) {
        assert (kept + [last])[..|kept|] == kept;
      } else {
        assert kept + [] == kept;
        var before := RunTriggers(rt, block, hosts, rest, st);
        if before.Ok? {
          IdleHosts(rt, block, hosts, last, before.value);
        }
      }
    }
  }

  // ---------- What handlers can do to the state ----------

  /** Which data source a request names; the block it is made in does not matter. */
  function NamedBy(rt: Runtime, request: CreateRequest): Option<Identity> {
    var t := FirstNamed(rt.templates, request.name);
    if t.None? then None
    else
      var ds := FromTemplate(TemplateInfo(t.value, request.params, request.context, 0), rt.parseAddress);
      if ds.Err? then None else Some(IdentityOf(ds.value))
  }

  /** Whatever the handlers are given, they name only data sources of this universe. */
  ghost predicate NamesWithin(rt: Runtime, universe: iset<Identity>) {
    forall ds, trigger, st :: rt.handler(ds, trigger, st).Finished? ==>
      RequestsWithin(rt, universe, rt.handler(ds, trigger, st).requests)
  }

  ghost predicate RequestsWithin(rt: Runtime, universe: iset<Identity>, requests: seq<CreateRequest>) {
    forall i :: 0 <= i < |requests| ==> NamedBy(rt, requests[i]).Some? ==> NamedBy(rt, requests[i]).value in universe
  }

  /** Made by a handler during this block, from the template that handlers get for its name. */
  ghost predicate MadeHere(rt: Runtime, universe: iset<Identity>, block: int, info: TemplateInfo) {
    && FirstNamed(rt.templates, info.template.name) == Some(info.template)
    && info.creationBlock == block
    && (FromTemplate(info, rt.parseAddress).Ok? ==> IdentityOf(FromTemplate(info, rt.parseAddress).value) in universe)
  }

  ghost predicate AllMadeHere(rt: Runtime, universe: iset<Identity>, block: int, infos: seq<TemplateInfo>) {
    forall i :: 0 <= i < |infos| ==> MadeHere(rt, universe, block, infos[i])
  }

  /** Created data sources and errors are only added, at the end, and persisted ones are left alone. */
  ghost predicate Grows(rt: Runtime, universe: iset<Identity>, block: int, st: BlockState, st': BlockState) {
    && st.created <= st'.created
    && AllMadeHere(rt, universe, block, st'.created[|st.created|..])
    && st'.dataSources == st.dataSources
    && st.errors <= st'.errors
  }

  lemma GrowsTransitive(rt: Runtime, universe: iset<Identity>, block: int, a: BlockState, b: BlockState, c: BlockState)
    requires Grows(rt, universe, block, a, b) && Grows(rt, universe, block, b, c)
    ensures Grows(rt, universe, block, a, c)
  {
    assert c.created[|a.created|..] == b.created[|a.created|..] + c.created[|b.created|..];
  }

  lemma {:induction false} ResolveMadeHere(rt: Runtime, universe: iset<Identity>, requests: seq<CreateRequest>,
                                           block: int)
    requires RequestsWithin(rt, universe, requests)
    requires Resolve(rt.templates, requests, block).Some?
    ensures AllMadeHere(rt, universe, block, Resolve(rt.templates, requests, block).value)
  {
    if requests != [] {
      var last := requests[|requests| - 1];
      ResolveMadeHere(rt, universe, requests[..|requests| - 1], block);
      NamedFirst(rt.templates, last.name);
      assert NamedBy(rt, last).Some? ==> NamedBy(rt, last).value in universe;
    }
  }

  lemma RunHostGrows(rt: Runtime, universe: iset<Identity>, block: int, ds: DataSource, trigger: Trigger,
                     st: BlockState)
    requires NamesWithin(rt, universe) && RunHost(rt, block, ds, trigger, st).Ok?
    ensures Grows(rt, universe, block, st, RunHost(rt, block, ds, trigger, st).value)
  {
    var st' := RunHost(rt, block, ds, trigger, st).value;
    if rt.decode(ds, trigger).value && rt.handler(ds, trigger, st).Finished? {
      var requests := rt.handler(ds, trigger, st).requests;
      var infos := Resolve(rt.templates, requests, block);
      if infos.Some? {
        ResolveMadeHere(rt, universe, requests, block);
        assert st'.created[|st.created|..] == infos.value;
      }
    }
  }

  lemma {:induction false} RunHostsGrows(rt: Runtime, universe: iset<Identity>, block: int, hosts: seq<DataSource>,
                                         trigger: Trigger, st: BlockState)
    requires NamesWithin(rt, universe) && RunHosts(rt, block, hosts, trigger, st).Ok?
    ensures Grows(rt, universe, block, st, RunHosts(rt, block, hosts, trigger, st).value)
  {
    if hosts != [] {
      var rest, last := hosts[..|hosts| - 1], hosts[|hosts| - 1];
      RunHostsGrows(rt, universe, block, rest, trigger, st);
      var mid := RunHosts(rt, block, rest, trigger, st).value;
      RunHostGrows(rt, universe, block, last, trigger, mid);
      GrowsTransitive(rt, universe, block, st, mid, RunHosts(rt, block, hosts, trigger, st).value);
    }
  }

  /**
   What handlers run on any triggers leave in the state: created data sources come only at the
   end, from the right templates and for this block. Without hosts nothing changes.
   */
  lemma {:induction false} RunTriggersGrows(rt: Runtime, universe: iset<Identity>, block: int, hosts: seq<DataSource>,
                                            triggers: seq<Trigger>, st: BlockState)
    requires NamesWithin(rt, universe) && RunTriggers(rt, block, hosts, triggers, st).Ok?
    ensures Grows(rt, universe, block, st, RunTriggers(rt, block, hosts, triggers, st).value)
    ensures hosts == [] ==> RunTriggers(rt, block, hosts, triggers, st).value == st
  {
    if triggers != [] {
      var rest, last := triggers[..|triggers| - 1], triggers[|triggers| - 1];
      RunTriggersGrows(rt, universe, block, hosts, rest, st);
      var mid := RunTriggers(rt, block, hosts, rest, st).value;
      RunHostsGrows(rt, universe, block, hosts, last, mid);
      GrowsTransitive(rt, universe, block, st, mid, RunTriggers(rt, block, hosts, triggers, st).value);
    }
  }
}
