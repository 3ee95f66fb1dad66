/**
 Scanning a block range of the Ethereum node for logs and calls (`log_stream`, `trace_stream`,
 `logs_in_block_range`, `calls_in_block_range` in chain/ethereum/src/ethereum_adapter.rs).

 The node holds the logs and traces of the chain in block order and answers each request with what
 it asks for, or with an error; an error may say that the request was too heavy.
 */
module ChainScan {
  import opened Common
  import opened EthereumTypes
  import opened EventSignatures
  import opened DataSources
  import opened TriggerFilters

  datatype Reply = Succeeds | TooHeavy | OtherError

  /** The request that failed. */
  datatype ScanError = ScanError(reply: Reply, from: int, to: int)

  datatype Tile = Tile(from: int, to: int)

  /** The requests cover [from, next) in order, without a gap or an overlap. */
  ghost predicate Tiles(tiles: seq<Tile>, from: int, next: int) {
    if tiles == [] then from == next
    else
      var last := tiles[|tiles| - 1];
      last.from <= last.to && last.to + 1 == next && Tiles(tiles[..|tiles| - 1], from, last.from)
  }

  lemma TilesSnoc(tiles: seq<Tile>, from: int, next: int, to: int)
    requires Tiles(tiles, from, next) && next <= to
    ensures Tiles(tiles + [Tile(next, to)], from, to + 1)
  {
    assert (tiles + [Tile(next, to)])[..|tiles|] == tiles;
  }

  // ---------- Logs ----------

  predicate LogMatches(f: EthGetLogsFilter, log: Log) {
    && (f.contracts == [] || log.address in f.contracts)
    && log.topics != [] && log.topics[0] in f.eventSignatures
  }

  predicate InRange(from: int, to: int, n: int) {
    from <= n <= to
  }

  /** The answer to one `eth_getLogs` request. */
  function Query(logs: seq<Log>, from: int, to: int, f: EthGetLogsFilter): seq<Log> {
    Filter(logs, (l: Log) => InRange(from, to, l.blockNumber) && LogMatches(f, l))
  }

  ghost predicate InBlockOrder(logs: seq<Log>) {
    forall i, j :: 0 <= i < j < |logs| ==> logs[i].blockNumber <= logs[j].blockNumber
  }

  lemma {:induction false} QuerySplit(logs: seq<Log>, from: int, mid: int, to: int, f: EthGetLogsFilter)
    requires InBlockOrder(logs) && from <= mid + 1 <= to + 1
    ensures Query(logs, from, to, f) == Query(logs, from, mid, f) + Query(logs, mid + 1, to, f)
  {
    if logs != [] {
      var rest, last := logs[..|logs| - 1], logs[|logs| - 1];
      if last.blockNumber <= mid {
        FilterNone(logs, (l: Log) => InRange(mid + 1, to, l.blockNumber) && LogMatches(f, l));
        FilterSame(logs, (l: Log) => InRange(from, to, l.blockNumber) && LogMatches(f, l),
                   (l: Log) => InRange(from, mid, l.blockNumber) && LogMatches(f, l));
      } else {
        QuerySplit(rest, from, mid, to, f);
      }
    }
  }

  /** How far a sum may go past the end of the range. */
  function Slack(from: int, to: int, f: EthGetLogsFilter, maxEventOnlyRange: int): int {
    if f.contracts != [] then (to - from) / 10
    else if to - from < maxEventOnlyRange - 1 then to - from else maxEventOnlyRange - 1
  }

  /** How the node answers its n-th request, given the range that it asks for. */
  type Replies = (nat, int, int) -> Reply

  /**
   A stream that starts at `from` and has made these requests is at `next`: each request starts where
   the stream was; one that succeeds moves it on, one that is too heavy leaves it there.
   */
  ghost predicate Reached(replies: Replies, asked: seq<Tile>, from: int, next: int) {
    if asked == [] then next == from
    else
      var n := |asked| - 1;
      var t := asked[n];
      && t.from <= t.to && Reached(replies, asked[..n], from, t.from)
      && match replies(n, t.from, t.to)
         case Succeeds => next == t.to + 1
         case TooHeavy => next == t.from
         case OtherError => false
  }

  /** The last request is the one that failed, with this reply, where the stream had got to. */
  ghost predicate FailedAt(replies: Replies, asked: seq<Tile>, from: int, error: ScanError) {
    && asked != [] && asked[|asked| - 1] == Tile(error.from, error.to)
    && replies(|asked| - 1, error.from, error.to) == error.reply && !error.reply.Succeeds?
    && Reached(replies, asked[..|asked| - 1], from, error.from)
  }

  lemma Asks(replies: Replies, asked: seq<Tile>, from: int, start: int, end: int)
    requires Reached(replies, asked, from, start) && start <= end
    ensures var asked', reply := asked + [Tile(start, end)], replies(|asked|, start, end);
            match reply
            case Succeeds => Reached(replies, asked', from, end + 1)
            case TooHeavy => Reached(replies, asked', from, start) &&
              FailedAt(replies, asked', from, ScanError(reply, start, end))
            case OtherError => FailedAt(replies, asked', from, ScanError(reply, start, end))
    ensures Vain(replies, asked + [Tile(start, end)]) ==
            Vain(replies, asked) + if replies(|asked|, start, end).Succeeds? then 0 else 1
  {
    assert (asked + [Tile(start, end)])[..|asked|] == asked;
  }

  /** How many requests did not succeed. */
  function Vain(replies: Replies, asked: seq<Tile>): nat {
    if asked == [] then 0
    else
      var n := |asked| - 1;
      Vain(replies, asked[..n]) + if replies(n, asked[n].from, asked[n].to).Succeeds? then 0 else 1
  }

  /** The requests that succeeded, in order. */
  function Served(replies: Replies, asked: seq<Tile>): seq<Tile> {
    if asked == [] then []
    else
      var n := |asked| - 1;
      Served(replies, asked[..n]) + if replies(n, asked[n].from, asked[n].to).Succeeds? then [asked[n]] else []
  }

  /** The requests that succeeded cover what the stream has passed, in order, without a gap or an overlap. */
  lemma {:induction false} ServedTile(replies: Replies, asked: seq<Tile>, from: int, next: int)
    requires Reached(replies, asked, from, next)
    ensures Tiles(Served(replies, asked), from, next)
    ensures |asked| == |Served(replies, asked)| + Vain(replies, asked)
  {
    if asked != [] {
      var n := |asked| - 1;
      var t, before := asked[n], Served(replies, asked[..n]);
      ServedTile(replies, asked[..n], from, t.from);
      if replies(n, t.from, t.to).Succeeds? {
        TilesSnoc(before, from, t.from, t.to);
      } else {
        assert before + [] == before;
      }
    }
  }

  /** How often a number can be divided by ten before it is zero. */
  function Digits(n: nat): nat {
    if n == 0 then 0 else 1 + Digits(n / 10)
  }

  /**
   Requests the range in steps that shrink tenfold whenever the node calls a request too heavy. For
   every pattern of failures the result is that of one request for the whole range. It fails only on
   another error, or when a request for a single block is too heavy. At most as many requests are made
   in vain as the first step has digits, and the one that fails. `peak` bounds the block numbers
   computed.
   */
  method LogStream(logs: seq<Log>, from: int, to: int, f: EthGetLogsFilter, maxEventOnlyRange: int, replies: Replies)
    returns (r: Result<seq<Log>, ScanError>, ghost asked: seq<Tile>, ghost peak: int)
    requires from <= to && maxEventOnlyRange >= 1 && InBlockOrder(logs)
    ensures r.Ok? ==> r.value == Query(logs, from, to, f) && Reached(replies, asked, from, to + 1)
    ensures r.Err? ==> FailedAt(replies, asked, from, r.error) && r.error.from <= r.error.to <= to
    ensures r.Err? && r.error.reply.TooHeavy? ==> r.error.from == r.error.to
    ensures Vain(replies, asked) <= Digits(FirstStep(from, to, f, maxEventOnlyRange)) + if r.Ok? then 0 else 1
    ensures peak <= to + 1 + Slack(from, to, f, maxEventOnlyRange)
  {
    var step := FirstStep(from, to, f, maxEventOnlyRange);
    var start, out, calls := from, [], 0;
    ghost var slack, digits := Slack(from, to, f, maxEventOnlyRange), Digits(step);
    asked, peak := [], to;
    QueryNone(logs, from, f);
    while start <= to
      invariant from <= start <= to + 1 && 0 <= step <= FirstStep(from, to, f, maxEventOnlyRange)
      invariant out == Query(logs, from, start - 1, f)
      invariant |asked| == calls && Reached(replies, asked, from, start)
      invariant Vain(replies, asked) + Digits(step) <= digits
      invariant InSteps(from, to, slack, start, step) && peak <= to + 1 + slack
      decreases (to - start) + 1, step
    {
      var end := EndOfStep(start, step, to);
      InStepsNext(from, to, slack, start, step);
      peak := Higher(Higher(peak, start + step), end + 1);
      var reply := replies(calls, start, end);
      Asks(replies, asked, from, start, end);
      calls, asked := calls + 1, asked + [Tile(start, end)];
      match reply {
        case Succeeds =>
          QuerySplit(logs, from, start - 1, end, f);
          out := out + Query(logs, start, end, f);
          start := end + 1;
        case TooHeavy =>
          if step > 0 {
            ShrunkStep(from, to, f, maxEventOnlyRange, start, step);
            step := step / 10;
          } else {
            return Err(ScanError(reply, start, end)), asked, peak;
          }
        case OtherError =>
          return Err(ScanError(reply, start, end)), asked, peak;
      }
    }
    r := Ok(out);
  }

  function FirstStep(from: int, to: int, f: EthGetLogsFilter, maxEventOnlyRange: int): (step: int)
    requires from <= to && maxEventOnlyRange >= 1
    ensures 0 <= step <= to - from
    ensures 0 <= Slack(from, to, f, maxEventOnlyRange) && (step == to - from ||
            step <= Slack(from, to, f, maxEventOnlyRange))
  {
    if f.contracts != [] || to - from < maxEventOnlyRange - 1 then to - from else maxEventOnlyRange - 1
  }

  function Higher(a: int, b: int): int {
    if a < b then b else a
  }

  function EndOfStep(start: int, step: int, to: int): int {
    if start + step < to then start + step else to
  }

  /** The step is within the slack, or the first one, which asks for the whole range. */
  ghost predicate InSteps(from: int, to: int, slack: int, start: int, step: int) {
    0 <= step && (step <= slack || (step == to - from && (start == from || start == to + 1)))
  }

  /** A step stays in bounds and leads to the end, or to a place from which the same step may go on. */
  lemma InStepsNext(from: int, to: int, slack: int, start: int, step: int)
    requires from <= start <= to && InSteps(from, to, slack, start, step) && 0 <= slack
    ensures var end := EndOfStep(start, step, to);
            start <= end <= to && start + step <= to + slack && InSteps(from, to, slack, end + 1, step)
  {
  }

  lemma ShrunkStep(from: int, to: int, f: EthGetLogsFilter, maxEventOnlyRange: int, start: int, step: int)
    requires from <= start <= to && maxEventOnlyRange >= 1 && 0 < step
    requires InSteps(from, to, Slack(from, to, f, maxEventOnlyRange), start, step)
    requires step <= FirstStep(from, to, f, maxEventOnlyRange)
    ensures InSteps(from, to, Slack(from, to, f, maxEventOnlyRange), start, step / 10)
    ensures step / 10 < step && Digits(step / 10) + 1 == Digits(step)
  {
  }

  lemma QueryNone(logs: seq<Log>, from: int, f: EthGetLogsFilter)
    ensures Query(logs, from, from - 1, f) == []
  {
    FilterNone(logs, (l: Log) => InRange(from, from - 1, l.blockNumber) && LogMatches(f, l));
  }

  function LogScan(logs: seq<Log>, from: int, to: int, fs: LogFilter): seq<Log> {
    FlatMap(fs, (f: EthGetLogsFilter) => Query(logs, from, to, f))
  }

  /** One stream per filter, their results in order; `replies` answers filter by filter. */
  method LogsInBlockRange(logs: seq<Log>, from: int, to: int, fs: LogFilter, maxEventOnlyRange: int,
                          replies: nat -> Replies)
    returns (r: Result<seq<Log>, ScanError>, ghost asked: seq<seq<Tile>>)
    requires from <= to && maxEventOnlyRange >= 1 && InBlockOrder(logs)
    ensures |asked| <= |fs| && forall i :: 0 <= i < |asked| - 1 ==> Reached(replies(i), asked[i], from, to + 1)
    ensures r.Ok? ==> r.value == LogScan(logs, from, to, fs) && |asked| == |fs| &&
                      (asked != [] ==> Reached(replies(|asked| - 1), asked[|asked| - 1], from, to + 1))
    ensures r.Err? ==> asked != [] && FailedAt(replies(|asked| - 1), asked[|asked| - 1], from, r.error)
    ensures r.Err? && r.error.reply.TooHeavy? ==> r.error.from == r.error.to
  {
    var out := [];
    asked := [];
    for i := 0 to |fs|
      invariant out == LogScan(logs, from, to, fs[..i])
      invariant |asked| == i && forall j :: 0 <= j < i ==> Reached(replies(j), asked[j], from, to + 1)
    {
      assert fs[..i + 1][..i] == fs[..i];
      var one, requests, peak := LogStream(logs, from, to, fs[i], maxEventOnlyRange, replies(i));
      asked := asked + [requests];
      if one.Err? {
        return Err(one.error), asked;
      }
      out := out + one.value;
    }
    assert fs[..|fs|] == fs;
    r := Ok(out);
  }

  // ---------- Each log as often as filters match it ----------

  lemma {:induction false} FilterCount<T>(s: seq<T>, p: T -> bool, x: T)
    ensures multiset(Filter(s, p))[x] == if p(x) then multiset(s)[x] else 0
  {
    if s != [] {
      FilterCount(s[..|s| - 1], p, x);
      assert s == s[..|s| - 1] + [s[|s| - 1]];
    }
  }

  function MatchCount(fs: LogFilter, log: Log): nat {
    Count(fs, (f: EthGetLogsFilter) => LogMatches(f, log))
  }

  lemma MatchCountSnoc(fs: LogFilter, f: EthGetLogsFilter, log: Log)
    ensures MatchCount(fs + [f], log) == MatchCount(fs, log) + if LogMatches(f, log) then 1 else 0
  {
    assert (fs + [f])[..|fs|] == fs;
  }

  /** The scan returns a log in the range as many times as there are filters that match it, and no other. */
  lemma {:induction false} LogMultiplicity(logs: seq<Log>, from: int, to: int, fs: LogFilter, log: Log)
    ensures multiset(LogScan(logs, from, to, fs))[log] ==
            if InRange(from, to, log.blockNumber) then Times(multiset(logs)[log], MatchCount(fs, log)) else 0
  {
    if fs != [] {
      var rest, f := fs[..|fs| - 1], fs[|fs| - 1];
      assert fs == rest + [f];
      LogMultiplicity(logs, from, to, rest, log);
      LogScanSnoc(logs, from, to, rest, f, log);
      MatchCountSnoc(rest, f, log);
      TimesSucc(multiset(logs)[log], MatchCount(rest, log));
    } else {
      assert LogScan(logs, from, to, fs) == [] && MatchCount(fs, log) == 0;
      assert Times(multiset(logs)[log], 0) == 0;
    }
  }

  lemma LogScanSnoc(logs: seq<Log>, from: int, to: int, fs: LogFilter, f: EthGetLogsFilter, log: Log)
    ensures multiset(LogScan(logs, from, to, fs + [f]))[log] ==
            multiset(LogScan(logs, from, to, fs))[log] +
            if InRange(from, to, log.blockNumber) && LogMatches(f, log) then multiset(logs)[log] else 0
  {
    assert (fs + [f])[..|fs|] == fs;
    assert LogScan(logs, from, to, fs + [f]) == LogScan(logs, from, to, fs) + Query(logs, from, to, f);
    FilterCount(logs, (l: Log) => InRange(from, to, l.blockNumber) && LogMatches(f, l), log);
  }

  /** The number of event handlers that are meant for the log. */
  function HandlerCount(dss: seq<DataSource>, log: Log, topic: string -> H256): nat {
    if dss == [] then 0
    else
      var ds := dss[|dss| - 1];
      HandlerCount(dss[..|dss| - 1], log, topic) +
      if MatchesAddress(ds, LogTrigger(log)) && HandlersForLog(ds, log, topic).Ok?
      then |HandlersForLog(ds, log, topic).value| else 0
  }

  lemma {:induction false} EntriesMatching(ds: DataSource, hs: seq<EventHandler>, log: Log, hashes: Hashes)
    ensures MatchCount(LogEntries(ds, hs, hashes), log) ==
            if MatchesAddress(ds, LogTrigger(log)) && log.topics != []
            then |Filter(hs, (h: EventHandler) => log.topics[0] == Topic0(h, hashes.topic))| else 0
  {
    var es := LogEntries(ds, hs, hashes);
    if hs != [] {
      var rest := hs[..|hs| - 1];
      EntriesMatching(ds, rest, log, hashes);
      assert es[..|es| - 1] == LogEntries(ds, rest, hashes);
      MatchCountSnoc(LogEntries(ds, rest, hashes), es[|es| - 1], log);
      assert es == LogEntries(ds, rest, hashes) + [es[|es| - 1]];
    }
  }

  /** The filter of a list of data sources has one matching entry per event handler meant for the log. */
  lemma {:induction false} MatchingFiltersAreHandlers(dss: seq<DataSource>, log: Log, hashes: Hashes)
    ensures MatchCount(LogFilterOf(dss, hashes), log) == HandlerCount(dss, log, hashes.topic)
  {
    if dss != [] {
      var rest, ds := dss[..|dss| - 1], dss[|dss| - 1];
      MatchingFiltersAreHandlers(rest, log, hashes);
      EntriesMatching(ds, ds.mapping.eventHandlers, log, hashes);
      var es := LogEntries(ds, ds.mapping.eventHandlers, hashes);
      assert LogFilterOf(dss, hashes) == LogFilterOf(rest, hashes) + es;
      FilterAppend(LogFilterOf(rest, hashes), es, (f: EthGetLogsFilter) => LogMatches(f, log));
    }
  }

  lemma {:induction false} AcceptingHandlerCounts(dss: seq<DataSource>, i: nat, log: Log, topic: string -> H256)
    requires i < |dss| && AcceptsLog(dss[i], log, topic)
    ensures HandlerCount(dss, log, topic) > 0
  {
    if i < |dss| - 1 {
      AcceptingHandlerCounts(dss[..|dss| - 1], i, log, topic);
    }
  }

  /** Every log of the range that some data source has a handler for is found. */
  lemma LogScanComplete(dss: seq<DataSource>, i: nat, logs: seq<Log>, from: int, to: int, log: Log, hashes: Hashes)
    requires i < |dss| && AcceptsLog(dss[i], log, hashes.topic)
    requires log in logs && from <= log.blockNumber <= to
    ensures log in LogScan(logs, from, to, FilterOf(dss, hashes).log)
  {
    AcceptingHandlerCounts(dss, i, log, hashes.topic);
    MatchingFiltersAreHandlers(dss, log, hashes);
    LogMultiplicity(logs, from, to, LogFilterOf(dss, hashes), log);
    assert log in multiset(logs);
    Positive(multiset(logs)[log], HandlerCount(dss, log, hashes.topic));
    assert log in multiset(LogScan(logs, from, to, LogFilterOf(dss, hashes)));
  }

  /** Everything the scan returns is a log of the range. */
  lemma LogScanGenuine(logs: seq<Log>, from: int, to: int, fs: LogFilter, log: Log)
    requires log in LogScan(logs, from, to, fs)
    ensures log in logs && from <= log.blockNumber <= to
  {
    var i := FlatMapFrom(fs, (f: EthGetLogsFilter) => Query(logs, from, to, f), log);
    FilterIn(logs, (l: Log) => InRange(from, to, l.blockNumber) && LogMatches(fs[i], l), log);
  }

  lemma Positive(a: nat, b: nat)
    requires a > 0 && b > 0
    ensures a * b > 0
  {
  }

  // ---------- Calls ----------

  datatype CallAction = CallAction(to: Address, input: seq<nat>)

  datatype Trace = Trace(
    failed: bool,
    call: Option<CallAction>,
    hasCallResult: bool,
    transactionPosition: Option<nat>,
    transactionHash: Option<H256>,
    blockNumber: int,
    blockHash: H256)

  /** Only successful calls with a selector, made in a transaction, count. */
  function CallOfTrace(t: Trace): (r: Option<EthereumCall>)
    ensures r.Some? ==>
              |r.value.input| >= 4 && t.call.Some? && r.value.to == t.call.value.to &&
              r.value.blockNumber == t.blockNumber
  {
    if t.failed || t.call.None? || |t.call.value.input| < 4 || !t.hasCallResult || t.transactionPosition.None? then None
    else Some(EthereumCall(t.call.value.to, t.call.value.input, t.blockNumber, t.blockHash, t.transactionHash,
                           t.transactionPosition.value))
  }

  /** The answer to one `trace_filter` request; no addresses means all traces. */
  function TraceQuery(traces: seq<Trace>, from: int, to: int, addresses: set<Address>): seq<Trace> {
    Filter(traces, (t: Trace) => InRange(from, to, t.blockNumber) && TraceMatches(addresses, t))
  }

  predicate TraceMatches(addresses: set<Address>, t: Trace) {
    addresses == {} || (t.call.Some? && t.call.value.to in addresses)
  }

  ghost predicate TracesInOrder(traces: seq<Trace>) {
    forall i, j :: 0 <= i < j < |traces| ==> traces[i].blockNumber <= traces[j].blockNumber
  }

  lemma {:induction false} TraceQuerySplit(traces: seq<Trace>, from: int, mid: int, to: int, addresses: set<Address>)
    requires TracesInOrder(traces) && from <= mid + 1 <= to + 1
    ensures TraceQuery(traces, from, to, addresses) ==
            TraceQuery(traces, from, mid, addresses) + TraceQuery(traces, mid + 1, to, addresses)
  {
    if traces != [] {
      if traces[|traces| - 1].blockNumber <= mid {
        FilterNone(traces, (t: Trace) => InRange(mid + 1, to, t.blockNumber) && TraceMatches(addresses, t));
        FilterSame(traces, (t: Trace) => InRange(from, to, t.blockNumber) && TraceMatches(addresses, t),
                   (t: Trace) => InRange(from, mid, t.blockNumber) && TraceMatches(addresses, t));
      } else {
        TraceQuerySplit(traces[..|traces| - 1], from, mid, to, addresses);
      }
    }
  }

  lemma TraceQueryNone(traces: seq<Trace>, from: int, addresses: set<Address>)
    ensures TraceQuery(traces, from, from - 1, addresses) == []
  {
    FilterNone(traces, (t: Trace) => InRange(from, from - 1, t.blockNumber) && TraceMatches(addresses, t));
  }

  /** Every request is for at most `stepSize` blocks. */
  ghost predicate Narrow(asked: seq<Tile>, stepSize: int) {
    if asked == [] then true
    else
      var last := asked[|asked| - 1];
      last.to - last.from < stepSize && Narrow(asked[..|asked| - 1], stepSize)
  }

  lemma NarrowSnoc(asked: seq<Tile>, t: Tile, stepSize: int)
    requires Narrow(asked, stepSize) && t.to - t.from < stepSize
    ensures Narrow(asked + [t], stepSize)
  {
    assert (asked + [t])[..|asked|] == asked;
  }

  /** Requests of `stepSize` blocks each, none twice; any failure ends the stream. */
  method TraceStream(traces: seq<Trace>, from: int, to: int, addresses: set<Address>, stepSize: int, replies: Replies)
    returns (r: Result<seq<Trace>, ScanError>, ghost asked: seq<Tile>, ghost peak: int)
    requires from <= to && stepSize >= 1 && TracesInOrder(traces)
    ensures r.Ok? ==> r.value == TraceQuery(traces, from, to, addresses)
    ensures r.Err? ==> !r.error.reply.Succeeds? && from <= r.error.from <= r.error.to <= to
    ensures r.Ok? ==> Reached(replies, asked, from, to + 1)
    ensures r.Err? ==> FailedAt(replies, asked, from, r.error)
    ensures Narrow(asked, stepSize) && Vain(replies, asked) == if r.Ok? then 0 else 1
    ensures peak <= to + stepSize
  {
    var start, out, calls := from, [], 0;
    asked, peak := [], to;
    TraceQueryNone(traces, from, addresses);
    while start <= to
      invariant from <= start <= to + 1
      invariant out == TraceQuery(traces, from, start - 1, addresses)
      invariant |asked| == calls && Reached(replies, asked, from, start) && Vain(replies, asked) == 0
      invariant Narrow(asked, stepSize)
      invariant peak <= to + stepSize
    {
      var end := EndOfStep(start, stepSize - 1, to);
      peak := if start + stepSize > peak then start + stepSize else peak;
      var reply := replies(calls, start, end);
      Asks(replies, asked, from, start, end);
      NarrowSnoc(asked, Tile(start, end), stepSize);
      calls, asked := calls + 1, asked + [Tile(start, end)];
      if !reply.Succeeds? {
        return Err(ScanError(reply, start, end)), asked, peak;
      }
      TraceQuerySplit(traces, from, start - 1, end, addresses);
      out := out + TraceQuery(traces, start, end, addresses);
      start := end + 1;
    }
    r := Ok(out);
  }

  function StartedAddresses(f: CallFilter, to: int): set<Address> {
    set a | a in f && f[a].startBlock <= to
  }

  function KeptCall(f: CallFilter, t: Trace): seq<EthereumCall> {
    var call := CallOfTrace(t);
    if call.Some? && MatchesCall(f, call.value) then [call.value] else []
  }

  /** The calls of the range that the filter keeps, in chain order. */
  function CallScan(traces: seq<Trace>, from: int, to: int, f: CallFilter): seq<EthereumCall> {
    var addresses := StartedAddresses(f, to);
    if addresses == {} then [] else FlatMap(TraceQuery(traces, from, to, addresses), (t: Trace) => KeptCall(f, t))
  }

  method CallsInBlockRange(traces: seq<Trace>, from: int, to: int, f: CallFilter, stepSize: int, replies: Replies)
    returns (r: Result<seq<EthereumCall>, ScanError>, ghost asked: seq<Tile>)
    requires from <= to && stepSize >= 1 && TracesInOrder(traces)
    ensures r.Ok? ==> r.value == CallScan(traces, from, to, f)
    ensures r.Ok? && StartedAddresses(f, to) != {} ==> Reached(replies, asked, from, to + 1)
    ensures r.Err? ==> FailedAt(replies, asked, from, r.error)
    ensures StartedAddresses(f, to) == {} ==> r.Ok? && asked == []
  {
    var addresses := StartedAddresses(f, to);
    if addresses == {} {
      return Ok([]), [];
    }
    var found, requests, peak := TraceStream(traces, from, to, addresses, stepSize, replies);
    asked := requests;
    if found.Err? {
      return Err(found.error), asked;
    }
    var out, ts := [], found.value;
    for i := 0 to |ts|
      invariant out == FlatMap(ts[..i], (t: Trace) => KeptCall(f, t))
    {
      assert ts[..i + 1][..i] == ts[..i];
      var call := CallOfTrace(ts[i]);
      if call.Some? && MatchesCall(f, call.value) {
        out := out + [call.value];
      }
    }
    assert ts[..|ts|] == ts;
    r := Ok(out);
  }

  // ---------- Every accepted call is found ----------

  /** A data source with the call's address has a call handler for its selector. */
  ghost predicate CallNamed(dss: seq<DataSource>, call: EthereumCall, hashes: Hashes)
    requires |call.input| >= 4
  {
    exists i, j :: 0 <= i < |dss| && dss[i].source.address == Some(call.to) && 0 <= j < |dss[i].mapping.callHandlers| &&
                   hashes.selector(dss[i].mapping.callHandlers[j].function_) == SelectorOf(call)
  }

  lemma WishOfHandler(dss: seq<DataSource>, i: nat, j: nat, hashes: Hashes) returns (k: nat)
    requires i < |dss| && dss[i].source.address.Some? && j < |dss[i].mapping.callHandlers|
    ensures var w := Wish(dss[i].source.startBlock, dss[i].source.address.value,
            hashes.selector(dss[i].mapping.callHandlers[j].function_));
            k < |AllWishes(dss, hashes)| && AllWishes(dss, hashes)[k] == w
  {
    var w := Wish(dss[i].source.startBlock, dss[i].source.address.value,
        hashes.selector(dss[i].mapping.callHandlers[j].function_));
    assert WishesOf(dss[i], hashes)[j] == w;
    FlatMapIn(dss, (ds: DataSource) => WishesOf(ds, hashes), i, w);
    k :| 0 <= k < |AllWishes(dss, hashes)| && AllWishes(dss, hashes)[k] == w;
  }

  /** The call filter matches exactly the calls that some data source names by address and selector. */
  lemma MatchesIffNamed(dss: seq<DataSource>, call: EthereumCall, hashes: Hashes)
    requires |call.input| >= 4
    ensures MatchesCall(FilterOf(dss, hashes).call, call) <==> CallNamed(dss, call, hashes)
  {
    var wishes := AllWishes(dss, hashes);
    CallFilterMeaning(wishes, call.to);
    if CallNamed(dss, call, hashes) {
      var i, j :| 0 <= i < |dss| && dss[i].source.address == Some(call.to) && 0 <= j < |dss[i].mapping.callHandlers| &&
                  hashes.selector(dss[i].mapping.callHandlers[j].function_) == SelectorOf(call);
      var k := WishOfHandler(dss, i, j, hashes);
      assert Wished(wishes, call.to, SelectorOf(call));
    }
    if MatchesCall(FilterOf(dss, hashes).call, call) {
      assert Wished(wishes, call.to, SelectorOf(call));
      var k :| 0 <= k < |wishes| && wishes[k].address == call.to && wishes[k].selector == SelectorOf(call);
      var i := FlatMapFrom(dss, (ds: DataSource) => WishesOf(ds, hashes), wishes[k]);
      var j :| 0 <= j < |WishesOf(dss[i], hashes)| && WishesOf(dss[i], hashes)[j] == wishes[k];
      assert dss[i].mapping.callHandlers[j] == dss[i].mapping.callHandlers[j];
    }
  }

  /** What a validated data source accepts, it names, and its address has started by then. */
  lemma AcceptedIsNamed(dss: seq<DataSource>, i: nat, call: EthereumCall, to: int, hashes: Hashes)
    requires i < |dss| && Valid(dss[i]) && |call.input| >= 4 && AcceptsCall(dss[i], call, hashes.selector) &&
             call.blockNumber <= to
    ensures CallNamed(dss, call, hashes) && call.to in StartedAddresses(FilterOf(dss, hashes).call, to)
  {
    var ds := dss[i];
    var h := HandlerForCall(ds, call, hashes.selector).value;
    FilterIn(ds.mapping.callHandlers, (h: CallHandler) => hashes.selector(h.function_) == SelectorOf(call), h);
    var j :| 0 <= j < |ds.mapping.callHandlers| && ds.mapping.callHandlers[j] == h;
    var k := WishOfHandler(dss, i, j, hashes);
    CallFilterMeaning(AllWishes(dss, hashes), call.to);
  }

  /** Every call of the range that some validated data source handles is found. */
  lemma CallScanComplete(dss: seq<DataSource>, i: nat, traces: seq<Trace>, from: int, to: int, n: nat, hashes: Hashes)
    requires i < |dss| && Valid(dss[i])
    requires n < |traces| && from <= traces[n].blockNumber <= to && CallOfTrace(traces[n]).Some?
    requires AcceptsCall(dss[i], CallOfTrace(traces[n]).value, hashes.selector)
    ensures CallOfTrace(traces[n]).value in CallScan(traces, from, to, FilterOf(dss, hashes).call)
  {
    var t, f := traces[n], FilterOf(dss, hashes).call;
    var call := CallOfTrace(t).value;
    AcceptedIsNamed(dss, i, call, to, hashes);
    MatchesIffNamed(dss, call, hashes);
    var addresses := StartedAddresses(f, to);
    FilterIn(traces, (t: Trace) => InRange(from, to, t.blockNumber) && TraceMatches(addresses, t), t);
    var found := TraceQuery(traces, from, to, addresses);
    var k :| 0 <= k < |found| && found[k] == t;
    FlatMapIn(found, (t: Trace) => KeptCall(f, t), k, call);
  }

  // ---------- Each call as often as it was traced ----------

  /** How many traces are this call. */
  function CallCount(traces: seq<Trace>, call: EthereumCall): nat {
    Count(traces, (t: Trace) => CallOfTrace(t) == Some(call))
  }

  function KeptCalls(traces: seq<Trace>, from: int, to: int, f: CallFilter, addresses: set<Address>)
    : seq<EthereumCall> {
    FlatMap(TraceQuery(traces, from, to, addresses), (t: Trace) => KeptCall(f, t))
  }

  lemma {:induction false} KeptCallCount(traces: seq<Trace>, from: int, to: int, f: CallFilter, addresses: set<Address>,
                                         call: EthereumCall)
    requires |call.input| >= 4 && addresses != {}
    ensures multiset(KeptCalls(traces, from, to, f, addresses))[call] ==
            if InRange(from, to, call.blockNumber) && call.to in addresses &&
                MatchesCall(f, call) then CallCount(traces, call) else 0
  {
    if traces != [] {
      var rest, last := traces[..|traces| - 1], traces[|traces| - 1];
      KeptCallCount(rest, from, to, f, addresses, call);
      KeptCallsSnoc(traces, from, to, f, addresses);
      KeptFromOne(last, from, to, f, addresses, call);
    }
  }

  function KeptFrom(t: Trace, from: int, to: int, f: CallFilter, addresses: set<Address>): seq<EthereumCall> {
    if InRange(from, to, t.blockNumber) && TraceMatches(addresses, t) then KeptCall(f, t) else []
  }

  lemma KeptCallsSnoc(traces: seq<Trace>, from: int, to: int, f: CallFilter, addresses: set<Address>)
    requires traces != []
    ensures KeptCalls(traces, from, to, f, addresses) ==
            KeptCalls(traces[..|traces| - 1], from, to, f, addresses) +
                      KeptFrom(traces[|traces| - 1], from, to, f, addresses)
  {
    var rest, last := traces[..|traces| - 1], traces[|traces| - 1];
    var before := TraceQuery(rest, from, to, addresses);
    if InRange(from, to, last.blockNumber) && TraceMatches(addresses, last) {
      assert TraceQuery(traces, from, to, addresses) == before + [last];
      assert (before + [last])[..|before|] == before;
    } else {
      assert TraceQuery(traces, from, to, addresses) == before;
    }
  }

  lemma KeptFromOne(t: Trace, from: int, to: int, f: CallFilter, addresses: set<Address>, call: EthereumCall)
    requires |call.input| >= 4 && addresses != {}
    ensures multiset(KeptFrom(t, from, to, f, addresses))[call] ==
            if CallOfTrace(t) == Some(call) && InRange(from, to, call.blockNumber) && call.to in addresses &&
                MatchesCall(f, call)
            then 1 else 0
  {
    var made := CallOfTrace(t);
    if made.Some? && made.value != call {
      assert multiset([made.value])[call] == 0;
    }
  }

  /** The scan returns a call of the range as often as it was traced, if its address has started by the end. */
  lemma CallMultiplicity(traces: seq<Trace>, from: int, to: int, f: CallFilter, call: EthereumCall)
    requires |call.input| >= 4
    ensures multiset(CallScan(traces, from, to, f))[call] ==
            if InRange(from, to, call.blockNumber) && call.to in StartedAddresses(f, to) && MatchesCall(f, call)
            then CallCount(traces, call) else 0
  {
    if StartedAddresses(f, to) != {} {
      KeptCallCount(traces, from, to, f, StartedAddresses(f, to), call);
    }
  }

  /** Everything the scan returns is a traced call of the range. */
  lemma CallScanGenuine(traces: seq<Trace>, from: int, to: int, f: CallFilter, call: EthereumCall) returns (n: nat)
    requires call in CallScan(traces, from, to, f)
    ensures n < |traces| && CallOfTrace(traces[n]) == Some(call) && from <= call.blockNumber <= to
  {
    var addresses := StartedAddresses(f, to);
    var found := TraceQuery(traces, from, to, addresses);
    var k := FlatMapFrom(found, (t: Trace) => KeptCall(f, t), call);
    FilterIn(traces, (t: Trace) => InRange(from, to, t.blockNumber) && TraceMatches(addresses, t), found[k]);
    n :| 0 <= n < |traces| && traces[n] == found[k];
  }

  /** A handler of a data source without an address never sees its calls, unless another source names them. */
  lemma CallsOfWildcardAreNotFound(ds: DataSource, traces: seq<Trace>, from: int, to: int, hashes: Hashes)
    requires ds.source.address.None?
    ensures CallScan(traces, from, to, FilterOf([ds], hashes).call) == []
  {
    assert [ds][..0] == [];
    assert AllWishes([ds], hashes) == AllWishes([], hashes) + WishesOf(ds, hashes);
  }
}
