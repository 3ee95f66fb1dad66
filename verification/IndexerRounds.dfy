/**
 The rounds of `process_block` (manager/src/indexer/instance_manager.rs): while handlers have
 created data sources, instantiate them, look for their triggers in the same block and run their
 handlers, which may create more.

 Here a round is a function of the hosts and the block's state. `rescan` is the search for triggers
 in the block, `canBuild` whether a runtime host can be built.
 */
module IndexerRounds {
  import opened Common
  import opened EthereumTypes
  import opened DataSources
  import opened TriggerFilters
  import opened Handlers

  datatype BlockError = Failed(message: string) | Deterministic(message: string) | Canceled | Panicked

  datatype Env = Env(
    rt: Runtime,
    hashes: Hashes,
    rescan: TriggerFilter -> Result<seq<Trigger>, string>,
    canBuild: DataSource -> bool)

  /** The order of optional block numbers: no block comes first. */
  predicate NotAfter(a: Option<int>, b: Option<int>) {
    a.None? || (b.Some? && a.value <= b.value)
  }

  function LastBlock(hosts: seq<DataSource>): Option<int> {
    if hosts == [] then None else hosts[|hosts| - 1].creationBlock
  }

  predicate Hosted(hosts: seq<DataSource>, ds: DataSource) {
    exists i :: 0 <= i < |hosts| && IsDuplicateOf(ds, hosts[i])
  }

  /** Adds the data source of one request to those created before, unless it duplicates a host. */
  function AddCreated(env: Env, hosts: seq<DataSource>, before: seq<DataSource>, info: TemplateInfo)
    : Result<seq<DataSource>, BlockError> {
    var ds := FromTemplate(info, env.rt.parseAddress);
    if ds.Err? then Err(Failed("cannot instantiate template"))
    else if !NotAfter(LastBlock(hosts + before), ds.value.creationBlock) then Err(Panicked)
    else if !env.canBuild(ds.value) then Err(Failed("cannot build host"))
    else if Hosted(hosts + before, ds.value) then Ok(before)
    else Ok(before + [ds.value])
  }

  /** The data sources that become hosts, in order. */
  function Created(env: Env, hosts: seq<DataSource>, infos: seq<TemplateInfo>): Result<seq<DataSource>, BlockError> {
    if infos == [] then Ok([])
    else
      var before := Created(env, hosts, infos[..|infos| - 1]);
      if before.Err? then before else AddCreated(env, hosts, before.value, infos[|infos| - 1])
  }

  lemma CreatedOne(env: Env, hosts: seq<DataSource>, info: TemplateInfo, ds: DataSource)
    requires FromTemplate(info, env.rt.parseAddress) == Ok(ds) && NotAfter(LastBlock(hosts), ds.creationBlock)
    requires env.canBuild(ds) && !Hosted(hosts, ds)
    ensures Created(env, hosts, [info]) == Ok([ds])
  {
    assert hosts + [] == hosts && [] + [ds] == [ds];
    assert [info][..0] == [] && Created(env, hosts, []) == Ok([]);
  }

  lemma CreatedNext(env: Env, hosts: seq<DataSource>, infos: seq<TemplateInfo>, i: nat, before: seq<DataSource>)
    requires i < |infos| && Created(env, hosts, infos[..i]) == Ok(before)
    ensures Created(env, hosts, infos[..i + 1]) == AddCreated(env, hosts, before, infos[i])
    ensures AddCreated(env, hosts, before, infos[i]).Err? ==>
              Created(env, hosts, infos) == AddCreated(env, hosts, before, infos[i])
  {
    assert infos[..i + 1][..i] == infos[..i];
    if AddCreated(env, hosts, before, infos[i]).Err? {
      CreationFailureSticks(env, hosts, infos, i + 1);
    }
  }

  lemma {:induction false} CreationFailureSticks(env: Env, hosts: seq<DataSource>, infos: seq<TemplateInfo>, i: nat)
    requires i <= |infos| && Created(env, hosts, infos[..i]).Err?
    ensures Created(env, hosts, infos) == Created(env, hosts, infos[..i])
  {
    if i < |infos| {
      assert infos[..|infos| - 1][..i] == infos[..i];
      CreationFailureSticks(env, hosts, infos[..|infos| - 1], i);
    } else {
      assert infos[..i] == infos;
    }
  }

  datatype Round = Round(hosts: seq<DataSource>, state: BlockState)

  function Step(env: Env, block: int, r: Round): Result<Round, BlockError> {
    var added := Created(env, r.hosts, r.state.created);
    if added.Err? then Err(added.error)
    else
      var triggers := env.rescan(FilterOf(added.value, env.hashes));
      if triggers.Err? then Err(Failed(triggers.error))
      else
        var state := r.state.(created := [], dataSources := r.state.dataSources + Map(added.value, AsStored));
        var ran := RunTriggers(env.rt, block, added.value, triggers.value, state);
        if ran.Err? then Err(Failed(ran.error.message)) else Ok(Round(r.hosts + added.value, ran.value))
  }

  predicate Settled(r: Result<Round, BlockError>) {
    r.Err? || r.value.state.created == []
  }

  type Stepper = Round -> Result<Round, BlockError>

  function StepOf(env: Env, block: int): Stepper {
    (r: Round) => Step(env, block, r)
  }

  lemma {:induction false} CreatedNotCanceled(env: Env, hosts: seq<DataSource>, infos: seq<TemplateInfo>)
    ensures Created(env, hosts, infos) != Err(Canceled)
  {
    if infos != [] {
      CreatedNotCanceled(env, hosts, infos[..|infos| - 1]);
    }
  }

  /** At most n rounds; they end early on an error or when nothing was created. */
  function Rounds(step: Stepper, r: Round, n: nat): Result<Round, BlockError> {
    if n == 0 then Ok(r)
    else
      var before := Rounds(step, r, n - 1);
      if Settled(before) then before else step(before.value)
  }

  lemma StepNotCanceled(env: Env, block: int, r: Round)
    ensures Step(env, block, r) != Err(Canceled)
  {
    CreatedNotCanceled(env, r.hosts, r.state.created);
  }

  /** Rounds do not look at cancellation. */
  lemma {:induction false} RoundsNotCanceled(step: Stepper, r: Round, n: nat)
    requires forall x :: step(x) != Err(Canceled)
    ensures Rounds(step, r, n) != Err(Canceled)
  {
    if n > 0 {
      RoundsNotCanceled(step, r, n - 1);
    }
  }

  lemma {:induction false} SettledStays(step: Stepper, r: Round, n: nat, m: nat)
    requires n <= m && Settled(Rounds(step, r, n))
    ensures Rounds(step, r, m) == Rounds(step, r, n)
    decreases m
  {
    if n < m {
      SettledStays(step, r, n, m - 1);
    }
  }

  /** A round that fails is the last one. */
  lemma RoundsNext(step: Stepper, r: Round, n: nat, limit: nat, reached: Round)
    requires n <= limit && Settled(Rounds(step, r, limit))
    requires Rounds(step, r, n) == Ok(reached) && reached.state.created != []
    ensures n < limit
    ensures Rounds(step, r, n + 1) == step(reached)
    ensures step(reached).Err? ==> Rounds(step, r, limit) == step(reached)
  {
    assert !Settled(Rounds(step, r, n));
    if step(reached).Err? {
      SettledStays(step, r, n + 1, limit);
    }
  }

  lemma {:induction false} RoundsInvariant(step: Stepper, inv: Round -> bool, r: Round, n: nat)
    requires inv(r) && forall x :: inv(x) && step(x).Ok? ==> inv(step(x).value)
    requires Rounds(step, r, n).Ok?
    ensures inv(Rounds(step, r, n).value)
  {
    if n > 0 {
      RoundsInvariant(step, inv, r, n - 1);
    }
  }

  lemma {:induction false} RoundsGoOn(step: Stepper, inv: Round -> bool, r: Round, n: nat)
    requires inv(r) && forall x :: inv(x) ==> step(x).Ok? && inv(step(x).value)
    ensures Rounds(step, r, n).Ok? && inv(Rounds(step, r, n).value)
  {
    if n > 0 {
      RoundsGoOn(step, inv, r, n - 1);
    }
  }

  // ---------- Hosts of one round ----------

  function Identities(hosts: seq<DataSource>): set<Identity> {
    set i | 0 <= i < |hosts| :: IdentityOf(hosts[i])
  }

  lemma HostedIffIdentity(hosts: seq<DataSource>, ds: DataSource)
    ensures Hosted(hosts, ds) <==> IdentityOf(ds) in Identities(hosts)
  {
    if Hosted(hosts, ds) {
      var i :| 0 <= i < |hosts| && IsDuplicateOf(ds, hosts[i]);
      assert IdentityOf(hosts[i]) in Identities(hosts);
    }
  }

  lemma IdentitiesAppend(a: seq<DataSource>, b: seq<DataSource>)
    ensures Identities(a + b) == Identities(a) + Identities(b)
  {
    forall x | x in Identities(a) ensures x in Identities(a + b) {
      var i :| 0 <= i < |a| && x == IdentityOf(a[i]);
      assert (a + b)[i] == a[i];
    }
    forall x | x in Identities(b) ensures x in Identities(a + b) {
      var i :| 0 <= i < |b| && x == IdentityOf(b[i]);
      assert (a + b)[|a| + i] == b[i];
    }
  }

  /** From this index on no host duplicates an earlier one. */
  ghost predicate FreshFrom(hosts: seq<DataSource>, n: nat) {
    forall i, j :: n <= i < |hosts| && 0 <= j < i ==> !IsDuplicateOf(hosts[i], hosts[j])
  }

  /** A dynamic data source of this block that the store gives back unchanged. */
  predicate Restorable(templates: seq<Template>, ds: DataSource) {
    ds.source.address.Some? && FromStored(templates, AsStored(ds)) == Ok(ds)
  }

  ghost predicate AllDynamic(templates: seq<Template>, block: int, dss: seq<DataSource>) {
    forall i :: 0 <= i < |dss| ==> Restorable(templates, dss[i]) && dss[i].creationBlock == Some(block)
  }

  /** For every template name, the template handlers get and the one the loader gets are interchangeable. */
  ghost predicate TemplatesRestore(templates: seq<Template>) {
    forall i :: 0 <= i < |templates| ==>
      var name := templates[i].name;
      FirstNamed(templates, name).Some? && LastNamed(templates, name).Some? &&
      Interchangeable(FirstNamed(templates, name).value, LastNamed(templates, name).value)
  }

  lemma UniqueNamesSuffice(templates: seq<Template>)
    requires UniqueNames(templates)
    ensures TemplatesRestore(templates)
  {
    forall i | 0 <= i < |templates|
      ensures var name := templates[i].name;
              FirstNamed(templates, name).Some? && LastNamed(templates, name).Some? &&
              Interchangeable(FirstNamed(templates, name).value, LastNamed(templates, name).value)
    {
      NamedFirst(templates, templates[i].name);
      NamedLast(templates, templates[i].name);
    }
  }

  lemma MadeHereRestores(rt: Runtime, universe: iset<Identity>, block: int, info: TemplateInfo)
    requires TemplatesRestore(rt.templates) && MadeHere(rt, universe, block, info)
    requires FromTemplate(info, rt.parseAddress).Ok?
    ensures var ds := FromTemplate(info, rt.parseAddress).value;
            Restorable(rt.templates, ds) && ds.creationBlock == Some(block) && IdentityOf(ds) in universe
  {
    NamedFirst(rt.templates, info.template.name);
    RestoreIffInterchangeable(rt.templates, info, rt.parseAddress);
  }

  /** New hosts are fresh, of this block, and cover everything that was asked for. */
  lemma {:induction false} CreatedHosts(env: Env, universe: iset<Identity>, block: int, hosts: seq<DataSource>,
                                        infos: seq<TemplateInfo>, base: nat)
    requires TemplatesRestore(env.rt.templates) && AllMadeHere(env.rt, universe, block, infos)
    requires base <= |hosts| && FreshFrom(hosts, base)
    requires Created(env, hosts, infos).Ok?
    ensures var added := Created(env, hosts, infos).value;
            && FreshFrom(hosts + added, base)
            && AllDynamic(env.rt.templates, block, added)
            && (forall x :: x in Identities(added) ==> x in universe)
            && Identities(hosts) !! Identities(added)
  {
    if infos != [] {
      var rest, last := infos[..|infos| - 1], infos[|infos| - 1];
      CreatedHosts(env, universe, block, hosts, rest, base);
      var before := Created(env, hosts, rest).value;
      MadeHereRestores(env.rt, universe, block, last);
      var ds := FromTemplate(last, env.rt.parseAddress).value;
      if !Hosted(hosts + before, ds) {
        HostedIffIdentity(hosts + before, ds);
        IdentitiesAppend(hosts, before);
        IdentitiesAppend(before, [ds]);
        assert Identities([ds]) == {IdentityOf(ds)} by { assert [ds][0] == ds; }
        assert hosts + (before + [ds]) == hosts + before + [ds];
        FreshSnoc(hosts + before, ds, base);
      }
    }
  }

  lemma FreshSnoc(hosts: seq<DataSource>, ds: DataSource, base: nat)
    requires FreshFrom(hosts, base) && !Hosted(hosts, ds)
    ensures FreshFrom(hosts + [ds], base)
  {
  }

  // ---------- All rounds of a block ----------

  /** What holds between two rounds, for the hosts the block started with. */
  ghost predicate RoundInv(env: Env, universe: iset<Identity>, block: int, start: seq<DataSource>, base: nat,
                           r: Round) {
    && start <= r.hosts && base <= |start|
    && FreshFrom(r.hosts, base)
    && AllDynamic(env.rt.templates, block, r.hosts[|start|..])
    && r.state.dataSources == Map(r.hosts[|start|..], AsStored)
    && AllMadeHere(env.rt, universe, block, r.state.created)
  }

  /** What a round that succeeds does, in terms of the hosts it adds. */
  lemma StepParts(env: Env, universe: iset<Identity>, block: int, r: Round)
    returns (added: seq<DataSource>, state: BlockState)
    requires NamesWithin(env.rt, universe) && Step(env, block, r).Ok?
    ensures Created(env, r.hosts, r.state.created) == Ok(added)
    ensures Step(env, block, r) == Ok(Round(r.hosts + added, state))
    ensures state.dataSources == r.state.dataSources + Map(added, AsStored)
    ensures AllMadeHere(env.rt, universe, block, state.created)
    ensures added == [] ==> state.created == []
  {
    added := Created(env, r.hosts, r.state.created).value;
    var triggers := env.rescan(FilterOf(added, env.hashes)).value;
    var before := r.state.(created := [], dataSources := r.state.dataSources + Map(added, AsStored));
    RunTriggersGrows(env.rt, universe, block, added, triggers, before);
    state := RunTriggers(env.rt, block, added, triggers, before).value;
    assert state.created[0..] == state.created;
  }

  lemma StepIs(env: Env, block: int, r: Round, added: seq<DataSource>, triggers: seq<Trigger>, state: BlockState)
    requires Created(env, r.hosts, r.state.created) == Ok(added) &&
             env.rescan(FilterOf(added, env.hashes)) == Ok(triggers)
    requires var before := r.state.(created := [], dataSources := r.state.dataSources + Map(added, AsStored));
             RunTriggers(env.rt, block, added, triggers, before) == Ok(state)
    ensures Step(env, block, r) == Ok(Round(r.hosts + added, state))
  {
  }

  lemma StepKeeps(env: Env, universe: iset<Identity>, block: int, start: seq<DataSource>, base: nat, r: Round)
    requires TemplatesRestore(env.rt.templates) && NamesWithin(env.rt, universe)
    requires RoundInv(env, universe, block, start, base, r) && Step(env, block, r).Ok?
    ensures RoundInv(env, universe, block, start, base, Step(env, block, r).value)
    ensures var r' := Step(env, block, r).value;
            r'.state.created == [] || Grown(universe, r.hosts, r'.hosts)
  {
    var added, state := StepParts(env, universe, block, r);
    CreatedHosts(env, universe, block, r.hosts, r.state.created, base);
    AddedKeeps(env, universe, block, start, base, r, added, state);
    if added != [] {
      IdentitiesAppend(r.hosts, added);
      assert IdentityOf(added[0]) in Identities(added);
    }
  }

  lemma AddedKeeps(env: Env, universe: iset<Identity>, block: int, start: seq<DataSource>, base: nat, r: Round,
                   added: seq<DataSource>, state: BlockState)
    requires RoundInv(env, universe, block, start, base, r)
    requires FreshFrom(r.hosts + added, base) && AllDynamic(env.rt.templates, block, added)
    requires state.dataSources == r.state.dataSources + Map(added, AsStored)
    requires AllMadeHere(env.rt, universe, block, state.created)
    ensures RoundInv(env, universe, block, start, base, Round(r.hosts + added, state))
  {
    var dynamic := r.hosts[|start|..];
    assert (r.hosts + added)[|start|..] == dynamic + added;
    assert Map(dynamic + added, AsStored) == Map(dynamic, AsStored) + Map(added, AsStored);
  }

  /** The hosts have at least one identity more, all new ones from the universe. */
  ghost predicate Grown(universe: iset<Identity>, hosts: seq<DataSource>, hosts': seq<DataSource>) {
    && Identities(hosts) < Identities(hosts')
    && (forall x :: x in Identities(hosts') && x !in Identities(hosts) ==> x in universe)
  }

  lemma RoundsKeep(env: Env, universe: iset<Identity>, block: int, start: seq<DataSource>, base: nat, r: Round, n: nat)
    requires TemplatesRestore(env.rt.templates) && NamesWithin(env.rt, universe)
    requires RoundInv(env, universe, block, start, base, r) && Rounds(StepOf(env, block), r, n).Ok?
    ensures RoundInv(env, universe, block, start, base, Rounds(StepOf(env, block), r, n).value)
  {
    var step, inv := StepOf(env, block), (x: Round) => RoundInv(env, universe, block, start, base, x);
    forall x | inv(x) && step(x).Ok? ensures inv(step(x).value) {
      StepKeeps(env, universe, block, start, base, x);
    }
    RoundsInvariant(step, inv, r, n);
  }

  // ---------- The rounds end ----------

  ghost function Any(universe: set<Identity>): iset<Identity> {
    iset x | x in universe
  }

  function Left(universe: set<Identity>, hosts: seq<DataSource>): nat {
    |universe - Identities(hosts)|
  }

  function LeftAfter(env: Env, universe: set<Identity>, block: int, r: Round, n: nat): nat {
    var x := Rounds(StepOf(env, block), r, n);
    if x.Err? then 0 else Left(universe, x.value.hosts)
  }

  lemma {:induction false} EachRoundUsesOne(env: Env, universe: set<Identity>, block: int, start: seq<DataSource>,
                                            base: nat, r: Round, n: nat)
    requires TemplatesRestore(env.rt.templates) && NamesWithin(env.rt, Any(universe))
    requires RoundInv(env, Any(universe), block, start, base, r)
    requires !Settled(Rounds(StepOf(env, block), r, n + 1))
    ensures LeftAfter(env, universe, block, r, n + 1) < LeftAfter(env, universe, block, r, n)
  {
    RoundsKeep(env, Any(universe), block, start, base, r, n);
    var before := Rounds(StepOf(env, block), r, n).value;
    StepKeeps(env, Any(universe), block, start, base, before);
    GrownUsesOne(universe, before.hosts, Step(env, block, before).value.hosts);
  }

  lemma {:induction false} Countdown(f: nat -> nat, n: nat)
    requires forall k: nat :: k < n ==> f(k + 1) < f(k)
    ensures n <= f(0)
  {
    if n > 0 {
      Countdown((k: nat) => f(k + 1), n - 1);
      assert f(0 + 1) < f(0);
    }
  }

  lemma GrownUsesOne(universe: set<Identity>, hosts: seq<DataSource>, hosts': seq<DataSource>)
    requires Grown(Any(universe), hosts, hosts')
    ensures Left(universe, hosts') < Left(universe, hosts)
  {
    var x :| x in Identities(hosts') && x !in Identities(hosts);
    assert x in universe - Identities(hosts) && x !in universe - Identities(hosts');
    NotMore(universe - Identities(hosts'), universe - Identities(hosts));
  }

  /**
   When the handlers can name only finitely many data sources the rounds of a block end, at the
   latest one round after as many rounds as there are data sources to name.
   */
  lemma RoundsEnd(env: Env, universe: set<Identity>, block: int, start: seq<DataSource>, base: nat, r: Round)
    requires TemplatesRestore(env.rt.templates) && NamesWithin(env.rt, Any(universe))
    requires RoundInv(env, Any(universe), block, start, base, r)
    ensures Settled(Rounds(StepOf(env, block), r, |universe| + 1))
  {
    var n := |universe| + 1;
    if !Settled(Rounds(StepOf(env, block), r, n)) {
      var f := (k: nat) => LeftAfter(env, universe, block, r, k);
      forall k: nat | k < n ensures f(k + 1) < f(k) {
        if Settled(Rounds(StepOf(env, block), r, k + 1)) {
          SettledStays(StepOf(env, block), r, k + 1, n);
        }
        EachRoundUsesOne(env, universe, block, start, base, r, k);
      }
      Countdown(f, n);
      NotMore(universe - Identities(r.hosts), universe);
      assert false;
    }
  }
}
