/**
 Ethereum data sources (chain/ethereum/src/data_source.rs): creation from a template, storing and
 restoring, duplicates, validation, and which triggers they handle.

 Contexts are stored as JSON text; that encoding is taken to be invertible. Keccak is a parameter:
 `topic` hashes a signature, `selector` gives its first four bytes.
 */
module DataSources {
  import opened Common
  import opened EthereumTypes
  import opened EventSignatures
  import Scalars

  datatype Selector = Selector(bytes: seq<nat>)

  datatype Source = Source(address: Option<Address>, abi: string, startBlock: int)

  datatype MappingABI = MappingABI(name: string, events: seq<Event>)

  datatype BlockHandlerFilter = ByCall
  datatype BlockHandler = BlockHandler(handler: string, filter: Option<BlockHandlerFilter>)
  datatype CallHandler = CallHandler(function_: string, handler: string)

  datatype Mapping = Mapping(
    kind: string,
    apiVersion: string,
    language: string,
    entities: seq<string>,
    abis: seq<MappingABI>,
    blockHandlers: seq<BlockHandler>,
    callHandlers: seq<CallHandler>,
    eventHandlers: seq<EventHandler>,
    runtime: seq<nat>,
    link: string)

  datatype Context = Context(json: string)

  datatype DataSource = DataSource(
    kind: string,
    network: Option<string>,
    name: string,
    source: Source,
    mapping: Mapping,
    context: Option<Context>,
    creationBlock: Option<int>,
    contractAbi: MappingABI)

  datatype Template = Template(kind: string, network: Option<string>, name: string, abi: string, mapping: Mapping)

  /** A data source that a handler asked for. */
  datatype TemplateInfo = TemplateInfo(template: Template, params: seq<string>, context: Option<Context>,
                                       creationBlock: int)

  datatype Stored = Stored(name: string, source: Source, context: Option<Context>, creationBlock: Option<int>)

  datatype DataSourceError = NoAbi(name: string) | MissingAddress | InvalidAddress | NoTemplate(name: string)

  function FindAbi(abis: seq<MappingABI>, name: string): Result<MappingABI, DataSourceError> {
    if abis == [] then Err(NoAbi(name))
    else if abis[0].name == name then Ok(abis[0])
    else FindAbi(abis[1..], name)
  }

  /** Instantiates a template; the first parameter is the address, with or without "0x". */
  function FromTemplate(info: TemplateInfo, parseAddress: string -> Option<Address>)
    : Result<DataSource, DataSourceError> {
    if info.params == [] then Err(MissingAddress)
    else
      var address := parseAddress(Scalars.TrimPrefixes(info.params[0]));
      if address.None? then Err(InvalidAddress)
      else
        var t := info.template;
        var abi := FindAbi(t.mapping.abis, t.abi);
        if abi.Err? then Err(abi.error)
        else Ok(DataSource(t.kind, t.network, t.name, Source(address, t.abi, 0), t.mapping, info.context,
                           Some(info.creationBlock), abi.value))
  }

  function AsStored(ds: DataSource): Stored {
    Stored(ds.name, ds.source, ds.context, ds.creationBlock)
  }

  /** The template a handler gets by name: the first one. */
  function FirstNamed(templates: seq<Template>, name: string): Option<Template> {
    if templates == [] then None
    else if templates[0].name == name then Some(templates[0])
    else FirstNamed(templates[1..], name)
  }

  /** The template a stored data source gets by name: a map built from the list keeps the last one. */
  function LastNamed(templates: seq<Template>, name: string): Option<Template> {
    if templates == [] then None
    else if templates[|templates| - 1].name == name then Some(templates[|templates| - 1])
    else LastNamed(templates[..|templates| - 1], name)
  }

  function FromStored(templates: seq<Template>, stored: Stored): Result<DataSource, DataSourceError> {
    var found := LastNamed(templates, stored.name);
    if found.None? then Err(NoTemplate(stored.name))
    else
      var t := found.value;
      var abi := FindAbi(t.mapping.abis, t.abi);
      if abi.Err? then Err(abi.error)
      else Ok(DataSource(t.kind, t.network, stored.name, stored.source, t.mapping, stored.context,
          stored.creationBlock, abi.value))
  }

  // ---------- Stored data sources restore to themselves ----------

  /** Two templates make the same data sources when restored. */
  predicate Interchangeable(a: Template, b: Template) {
    a.kind == b.kind && a.network == b.network && a.mapping == b.mapping &&
    FindAbi(a.mapping.abis, a.abi) == FindAbi(b.mapping.abis, b.abi)
  }

  /**
   A data source that a handler created restores to itself if and only if the first and the last
   template of its name are interchangeable.
   */
  lemma RestoreIffInterchangeable(templates: seq<Template>, info: TemplateInfo, parseAddress: string -> Option<Address>)
    requires FirstNamed(templates, info.template.name) == Some(info.template)
    requires FromTemplate(info, parseAddress).Ok?
    ensures LastNamed(templates, info.template.name).Some?
    ensures var ds := FromTemplate(info, parseAddress).value;
            FromStored(templates, AsStored(ds)) == Ok(ds) <==>
            Interchangeable(info.template, LastNamed(templates, info.template.name).value)
  {
    NamedFirst(templates, info.template.name);
    NamedLast(templates, info.template.name);
  }

  lemma {:induction false} NamedFirst(templates: seq<Template>, name: string)
    ensures FirstNamed(templates, name).Some? ==>
              FirstNamed(templates, name).value in templates && FirstNamed(templates, name).value.name == name
    ensures FirstNamed(templates, name).None? <==> forall i :: 0 <= i < |templates| ==> templates[i].name != name
  {
    if templates != [] {
      NamedFirst(templates[1..], name);
    }
  }

  lemma {:induction false} NamedLast(templates: seq<Template>, name: string)
    ensures LastNamed(templates, name).Some? ==>
              LastNamed(templates, name).value in templates && LastNamed(templates, name).value.name == name
    ensures LastNamed(templates, name).None? <==> forall i :: 0 <= i < |templates| ==> templates[i].name != name
  {
    if templates != [] {
      NamedLast(templates[..|templates| - 1], name);
    }
  }

  ghost predicate UniqueNames(templates: seq<Template>) {
    forall i, j :: 0 <= i < j < |templates| ==> templates[i].name != templates[j].name
  }

  /** With unique template names everything a handler creates restores to itself. */
  lemma UniqueNamesRestore(templates: seq<Template>, info: TemplateInfo, parseAddress: string -> Option<Address>)
    requires UniqueNames(templates)
    requires FirstNamed(templates, info.template.name) == Some(info.template)
    requires FromTemplate(info, parseAddress).Ok?
    ensures var ds := FromTemplate(info, parseAddress).value; FromStored(templates, AsStored(ds)) == Ok(ds)
  {
    NamedFirst(templates, info.template.name);
    NamedLast(templates, info.template.name);
    RestoreIffInterchangeable(templates, info, parseAddress);
  }

  // ---------- Duplicates ----------

  /** Everything that makes a data source different from another; not the creation block. */
  datatype Identity = Identity(
    kind: string,
    network: Option<string>,
    name: string,
    source: Source,
    abis: seq<MappingABI>,
    eventHandlers: seq<EventHandler>,
    callHandlers: seq<CallHandler>,
    blockHandlers: seq<BlockHandler>,
    context: Option<Context>)

  function IdentityOf(ds: DataSource): Identity {
    Identity(ds.kind, ds.network, ds.name, ds.source, ds.mapping.abis, ds.mapping.eventHandlers,
             ds.mapping.callHandlers,
             ds.mapping.blockHandlers, ds.context)
  }

  predicate IsDuplicateOf(a: DataSource, b: DataSource) {
    && a.kind == b.kind
    && a.network == b.network
    && a.name == b.name
    && a.source == b.source
    && a.mapping.abis == b.mapping.abis
    && a.mapping.eventHandlers == b.mapping.eventHandlers
    && a.mapping.callHandlers == b.mapping.callHandlers
    && a.mapping.blockHandlers == b.mapping.blockHandlers
    && a.context == b.context
  }

  // ---------- Validation ----------

  datatype ValidationError = SourceAddressRequired | BlockHandlerLimitExceeded

  method Validate(ds: DataSource) returns (errors: seq<ValidationError>)
    ensures errors == [] <==> Valid(ds)
    ensures SourceAddressRequired in errors <==>
              ds.source.address.None? && (ds.mapping.callHandlers != [] || ds.mapping.blockHandlers != [])
    ensures BlockHandlerLimitExceeded in errors <==>
              Count(ds.mapping.blockHandlers, Unfiltered) > 1 || Count(ds.mapping.blockHandlers, Filtered) > 1
  {
    errors := [];
    if ds.source.address.None? && (ds.mapping.callHandlers != [] || ds.mapping.blockHandlers != []) {
      errors := errors + [SourceAddressRequired];
    }
    var handlers := ds.mapping.blockHandlers;
    var nonFiltered, callFiltered := 0, 0;
    for i := 0 to |handlers|
      invariant nonFiltered == Count(handlers[..i], Unfiltered) && callFiltered == Count(handlers[..i], Filtered)
    {
      assert handlers[..i + 1][..i] == handlers[..i];
      if handlers[i].filter.None? {
        nonFiltered := nonFiltered + 1;
      } else {
        callFiltered := callFiltered + 1;
      }
    }
    assert handlers[..|handlers|] == handlers;
    if nonFiltered > 1 || callFiltered > 1 {
      errors := errors + [BlockHandlerLimitExceeded];
    }
  }

  predicate Unfiltered(h: BlockHandler) {
    h.filter.None?
  }

  predicate Filtered(h: BlockHandler) {
    h.filter.Some?
  }

  predicate Valid(ds: DataSource) {
    && (ds.source.address.Some? || (ds.mapping.callHandlers == [] && ds.mapping.blockHandlers == []))
    && Count(ds.mapping.blockHandlers, Unfiltered) <= 1
    && Count(ds.mapping.blockHandlers, Filtered) <= 1
  }

  // ---------- Which triggers a data source handles ----------

  predicate MatchesAddress(ds: DataSource, trigger: Trigger) {
    match ds.source.address
    case None => true
    case Some(address) =>
      match trigger
      case BlockTrigger(_, WithCallTo(to)) => address == to
      case BlockTrigger(_, Every) => true
      case CallTrigger(call) => address == call.to
      case LogTrigger(log) => address == log.address
  }

  /** The selector that a call with at least four bytes of input addresses. */
  function SelectorOf(call: EthereumCall): Selector
    requires |call.input| >= 4
  {
    Selector(call.input[..4])
  }

  function HandlerForCall(ds: DataSource, call: EthereumCall, selector: string -> Selector): Option<CallHandler>
    requires |call.input| >= 4
  {
    var matching := Filter(ds.mapping.callHandlers, (h: CallHandler) => selector(h.function_) == SelectorOf(call));
    if matching == [] then None else Some(matching[0])
  }

  function HandlersForLog(ds: DataSource, log: Log, topic: string -> H256): Result<seq<EventHandler>, string> {
    if log.topics == [] then Err("Ethereum event has no topics")
    else Ok(Filter(ds.mapping.eventHandlers, (h: EventHandler) => log.topics[0] == Topic0(h, topic)))
  }

  /** The data source runs a call handler for this call. */
  predicate AcceptsCall(ds: DataSource, call: EthereumCall, selector: string -> Selector)
    requires |call.input| >= 4
  {
    MatchesAddress(ds, CallTrigger(call)) && ds.source.startBlock <= call.blockNumber &&
    HandlerForCall(ds, call, selector).Some?
  }

  /** The data source has an event handler for this log. */
  predicate AcceptsLog(ds: DataSource, log: Log, topic: string -> H256) {
    MatchesAddress(ds, LogTrigger(log)) && ds.source.startBlock <= log.blockNumber &&
    HandlersForLog(ds, log, topic).Ok? && HandlersForLog(ds, log, topic).value != []
  }
}
