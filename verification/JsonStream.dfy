/**
 The incremental splitter behind `json_stream` (manager/src/indexer/link_resolver.rs): chunks of
 bytes come in, one value or error per non-empty line goes out.
 */
module JsonStream {
  import opened Common

  const NEWLINE: Byte := 10

  /** What a poll of the underlying byte stream yields before it ends. */
  datatype SourceEvent = Chunk(bytes: seq<Byte>) | NotReady | Failed(message: string)

  /** Decoding one line: UTF-8, then JSON. The error position is relative to the line. */
  datatype Decoded<V> = Value(value: V) | NotUtf8 | NotJson(message: string, line: nat, column: nat)

  /** What the stream gives for one line. */
  datatype Emitted<V> =
    | Item(value: V, line: nat)
    | Utf8Error
    | JsonError(message: string, errorLine: int, column: nat, text: seq<Byte>)

  datatype Polled<V> = Ready(emitted: Emitted<V>) | Pending | SourceError(message: string) | Done

  /** `count` is the number of the line in the whole file, starting at 1. */
  function EmitLine<V>(decode: seq<Byte> -> Decoded<V>, line: seq<Byte>, count: nat): Emitted<V> {
    match decode(line)
    case Value(v) => Item(v, count)
    case NotUtf8 => Utf8Error
    case NotJson(message, at, column) => JsonError(message, at + count - 1, column, line)
  }

  // ---------- The lines of a text ----------

  function FirstNewline(s: seq<Byte>): (i: nat)
    requires NEWLINE in s
    ensures i < |s| && s[i] == NEWLINE && NEWLINE !in s[..i]
  {
    if s[0] == NEWLINE then 0
    else
      assert s == [s[0]] + s[1..];
      var i := 1 + FirstNewline(s[1..]);
      assert s[..i] == [s[0]] + s[1..][..i - 1];
      i
  }

  /** Every line with its newline; a last line without one is given one. */
  function Lines(s: seq<Byte>): seq<seq<Byte>>
    decreases |s|
  {
    if s == [] then []
    else if NEWLINE !in s then [s + [NEWLINE]]
    else var i := FirstNewline(s); [s[..i + 1]] + Lines(s[i + 1..])
  }

  /** Non-empty lines in order, numbered from `count + 1`. */
  function Emissions<V>(decode: seq<Byte> -> Decoded<V>, lines: seq<seq<Byte>>, count: nat): seq<Emitted<V>> {
    if lines == [] then []
    else
      (if |lines[0]| > 1 then [EmitLine(decode, lines[0], count + 1)] else []) +
      Emissions(decode, lines[1..], count + 1)
  }

  ghost predicate IsLine(line: seq<Byte>) {
    line != [] && line[|line| - 1] == NEWLINE && NEWLINE !in line[..|line| - 1]
  }

  lemma FirstNewlineUnique(s: seq<Byte>, i: nat)
    requires i < |s| && s[i] == NEWLINE && NEWLINE !in s[..i]
    ensures FirstNewline(s) == i
  {
    var j := FirstNewline(s);
    forall k | 0 <= k < i ensures s[k] != NEWLINE {
      assert s[..i][k] in s[..i];
    }
    forall k | 0 <= k < j ensures s[k] != NEWLINE {
      assert s[..j][k] in s[..j];
    }
  }

  /** A line at the front of a text is its first line. */
  lemma LinesCons(line: seq<Byte>, rest: seq<Byte>)
    requires IsLine(line)
    ensures Lines(line + rest) == [line] + Lines(rest)
  {
    var s, i := line + rest, |line| - 1;
    assert s[i] == NEWLINE && s[..i] == line[..i];
    FirstNewlineUnique(s, i);
    assert s[..i + 1] == line && s[i + 1..] == rest;
  }

  function ConcatLines(lines: seq<seq<Byte>>): seq<Byte> {
    if lines == [] then [] else lines[0] + ConcatLines(lines[1..])
  }

  /** The text with a final newline, unless it is empty or has one already. */
  function Terminated(s: seq<Byte>): seq<Byte> {
    if s == [] || s[|s| - 1] == NEWLINE then s else s + [NEWLINE]
  }

  /** `Lines` is the one way to cut the terminated text after each of its newlines. */
  lemma {:induction false} LinesCutTheText(s: seq<Byte>, lines: seq<seq<Byte>>)
    ensures lines == Lines(s) <==>
              (forall i :: 0 <= i < |lines| ==> IsLine(lines[i])) && ConcatLines(lines) == Terminated(s)
    decreases |s|
  {
    LinesAreLines(s);
    if (forall i :: 0 <= i < |lines| ==> IsLine(lines[i])) && ConcatLines(lines) == Terminated(s) {
      LinesOfConcat(lines);
      LinesTerminated(s);
    }
  }

  lemma {:induction false} LinesAreLines(s: seq<Byte>)
    ensures forall i :: 0 <= i < |Lines(s)| ==> IsLine(Lines(s)[i])
    ensures ConcatLines(Lines(s)) == Terminated(s)
    decreases |s|
  {
    if s != [] {
      if NEWLINE in s {
        var line, rest := CutLine(s);
        LinesAreLines(rest);
        LinesCons(line, rest);
        TerminatedFront(line, rest);
        assert ([line] + Lines(rest))[1..] == Lines(rest);
      } else {
        assert (s + [NEWLINE])[..|s|] == s;
        assert Lines(s) == [s + [NEWLINE]];
        assert ConcatLines([s + [NEWLINE]]) == s + [NEWLINE] + [];
      }
    }
  }

  lemma CutLine(s: seq<Byte>) returns (line: seq<Byte>, rest: seq<Byte>)
    requires NEWLINE in s
    ensures IsLine(line) && s == line + rest
    ensures line == s[..FirstNewline(s) + 1] && rest == s[FirstNewline(s) + 1..]
  {
    var i := FirstNewline(s);
    line, rest := s[..i + 1], s[i + 1..];
    assert line[..i] == s[..i];
  }

  lemma TerminatedFront(line: seq<Byte>, rest: seq<Byte>)
    requires IsLine(line)
    ensures Terminated(line + rest) == line + Terminated(rest)
  {
    var s := line + rest;
    if rest == [] {
      assert s == line;
    } else {
      assert s[|s| - 1] == rest[|rest| - 1];
      assert s + [NEWLINE] == line + (rest + [NEWLINE]);
    }
  }

  lemma {:induction false} LinesOfConcat(lines: seq<seq<Byte>>)
    requires forall i :: 0 <= i < |lines| ==> IsLine(lines[i])
    ensures Lines(ConcatLines(lines)) == lines
  {
    if lines != [] {
      LinesOfConcat(lines[1..]);
      LinesCons(lines[0], ConcatLines(lines[1..]));
    }
  }

  /** A missing final newline makes no difference. */
  lemma {:induction false} LinesTerminated(s: seq<Byte>)
    ensures Lines(Terminated(s)) == Lines(s)
  {
    LinesAreLines(s);
    LinesOfConcat(Lines(s));
  }

  // ---------- The stream ----------

  function Bytes(source: seq<SourceEvent>): seq<Byte> {
    if source == [] then []
    else (if source[0].Chunk? then source[0].bytes else []) + Bytes(source[1..])
  }

  class LineStream<V> {
    const decode: seq<Byte> -> Decoded<V>
    var source: seq<SourceEvent>
    var buf: seq<Byte>
    var count: nat

    constructor (decode: seq<Byte> -> Decoded<V>, source: seq<SourceEvent>)
      ensures this.decode == decode && this.source == source
      ensures Remaining() == Emissions(decode, Lines(Bytes(source)), 0)
    {
      this.decode := decode;
      this.source := source;
      buf := [];
      count := 0;
      new;
      assert buf + Bytes(source) == Bytes(source);
    }

    /** Everything that is still to come. */
    ghost function Remaining(): seq<Emitted<V>>
      reads this
    {
      ToCome(decode, buf, Bytes(source), count)
    }

    /** The next emission, or word that there is none yet or none any more. */
    method Poll() returns (r: Polled<V>)
      modifies this`source, this`buf, this`count
      ensures |source| <= |old(source)|
      ensures r.Ready? ==>
                old(Remaining()) != [] && r.emitted == old(Remaining())[0] && Remaining() == old(Remaining())[1..]
      ensures r.Pending? || r.SourceError? ==> Remaining() == old(Remaining()) && |source| < |old(source)|
      ensures r.Done? ==> Remaining() == old(Remaining()) == []
    {
      while true
        invariant Remaining() == old(Remaining()) && |source| <= |old(source)|
        decreases |source|, |Lines(buf)|, NEWLINE !in buf
      {
        if NEWLINE in buf {
          var offset := FirstNewline(buf);
          var line := buf[..offset + 1];
          ghost var front, rest := CutLine(buf);
          TakeLine(decode, front, rest, Bytes(source), count);
          buf := buf[offset + 1..];
          count := count + 1;
          if |line| > 1 {
            return Ready(EmitLine(decode, line, count));
          }
        } else if source != [] {
          var event := source[0];
          TakeEvent(decode, buf, source, count);
          if event.Chunk? {
            buf := buf + event.bytes;
          }
          source := source[1..];
          match event {
            case Chunk(_) =>
            case NotReady => return Pending;
            case Failed(message) => return SourceError(message);
          }
        } else if |buf| > 0 {
          TakeEnd(decode, buf, count);
          buf := buf + [NEWLINE];
        } else {
          return Done;
        }
      }
    }
  }

  ghost function ToCome<V>(decode: seq<Byte> -> Decoded<V>, buf: seq<Byte>, later: seq<Byte>, count: nat)
    : seq<Emitted<V>> {
    Emissions(decode, Lines(buf + later), count)
  }

  lemma TakeLine<V>(decode: seq<Byte> -> Decoded<V>, line: seq<Byte>, rest: seq<Byte>, later: seq<Byte>, count: nat)
    requires IsLine(line)
    ensures ToCome(decode, line + rest, later, count) ==
            (if |line| > 1 then [EmitLine(decode, line, count + 1)] else []) + ToCome(decode, rest, later, count + 1)
    ensures |Lines(rest)| < |Lines(line + rest)|
  {
    LinesCons(line, rest);
    TakeLineThen(decode, line, rest + later, count);
    assert (line + rest) + later == line + (rest + later);
  }

  lemma TakeLineThen<V>(decode: seq<Byte> -> Decoded<V>, line: seq<Byte>, rest: seq<Byte>, count: nat)
    requires IsLine(line)
    ensures Emissions(decode, Lines(line + rest), count) ==
            (if |line| > 1 then [EmitLine(decode, line, count + 1)] else []) + Emissions(decode, Lines(rest), count + 1)
  {
    LinesCons(line, rest);
    EmissionsCons(decode, line, Lines(rest), count);
  }

  lemma EmissionsCons<V>(decode: seq<Byte> -> Decoded<V>, line: seq<Byte>, lines: seq<seq<Byte>>, count: nat)
    ensures Emissions(decode, [line] + lines, count) ==
            (if |line| > 1 then [EmitLine(decode, line, count + 1)] else []) + Emissions(decode, lines, count + 1)
  {
    assert ([line] + lines)[1..] == lines;
  }

  lemma TakeEvent<V>(decode: seq<Byte> -> Decoded<V>, buf: seq<Byte>, source: seq<SourceEvent>, count: nat)
    requires source != []
    ensures ToCome(decode, buf, Bytes(source), count) ==
            ToCome(decode, if source[0].Chunk? then buf + source[0].bytes else buf, Bytes(source[1..]), count)
  {
    var bytes := if source[0].Chunk? then source[0].bytes else [];
    assert buf + (bytes + Bytes(source[1..])) == (buf + bytes) + Bytes(source[1..]);
    assert source[0].Chunk? || buf + bytes == buf;
  }

  lemma TakeEnd<V>(decode: seq<Byte> -> Decoded<V>, buf: seq<Byte>, count: nat)
    requires buf != [] && NEWLINE !in buf
    ensures ToCome(decode, buf + [NEWLINE], [], count) == ToCome(decode, buf, [], count)
    ensures Lines(buf + [NEWLINE]) == Lines(buf)
  {
    EndLine(buf);
    assert (buf + [NEWLINE]) + [] == buf + [NEWLINE] && buf + [] == buf;
  }

  lemma EndLine(buf: seq<Byte>)
    requires buf != [] && NEWLINE !in buf
    ensures Lines(buf + [NEWLINE]) == Lines(buf)
  {
    var line := buf + [NEWLINE];
    assert line[..|line| - 1] == buf;
    LinesCons(line, []);
    assert line + [] == line;
  }

  lemma MoveFirst<T>(out: seq<T>, rest: seq<T>)
    requires rest != []
    ensures (out + [rest[0]]) + rest[1..] == out + rest
  {
  }

  /**
   Polls until the end. However the bytes are cut into chunks, and wherever the source is not ready
   or fails, what comes out is the non-empty lines of the whole text, with their true numbers.
   */
  method CollectAll<V>(decode: seq<Byte> -> Decoded<V>, source: seq<SourceEvent>) returns (out: seq<Emitted<V>>)
    ensures out == Emissions(decode, Lines(Bytes(source)), 0)
  {
    var stream := new LineStream(decode, source);
    ghost var all := stream.Remaining();
    out := [];
    var done := false;
    while !done
      invariant out + stream.Remaining() == all
      invariant done ==> stream.Remaining() == []
      decreases !done, |stream.source| + |stream.Remaining()|
    {
      ghost var before := stream.Remaining();
      var polled := stream.Poll();
      if polled.Ready? {
        MoveFirst(out, before);
        out := out + [polled.emitted];
      } else if polled.Done? {
        done := true;
      }
    }
  }

  // ---------- Line numbers ----------

  function Newlines(s: seq<Byte>): nat {
    if s == [] then 0 else Newlines(s[..|s| - 1]) + if s[|s| - 1] == NEWLINE then 1 else 0
  }

  lemma {:induction false} NewlinesAppend(a: seq<Byte>, b: seq<Byte>)
    ensures Newlines(a + b) == Newlines(a) + Newlines(b)
  {
    if b == [] {
      assert a + b == a;
    } else {
      NewlinesAppend(a, b[..|b| - 1]);
      assert (a + b)[..|a + b| - 1] == a + b[..|b| - 1];
    }
  }

  lemma {:induction false} NoNewlines(s: seq<Byte>)
    requires NEWLINE !in s
    ensures Newlines(s) == 0
  {
    if s != [] {
      NoNewlines(s[..|s| - 1]);
    }
  }

  /** The line at index `k` starts after exactly `k` newlines of the text. */
  lemma {:induction false} LineStartsAfterNewlines(s: seq<Byte>, k: nat)
    requires k < |Lines(s)|
    ensures var before := ConcatLines(Lines(s)[..k]);
            Newlines(before) == k && before + Lines(s)[k] <= Terminated(s)
    decreases k
  {
    LinesAreLines(s);
    CutAt(Lines(s), k);
    if k > 0 {
      LineStartsAfterNewlines(s, k - 1);
      ConcatSnoc(Lines(s)[..k]);
      assert Lines(s)[..k][..k - 1] == Lines(s)[..k - 1];
      var line := Lines(s)[k - 1];
      NewlinesAppend(ConcatLines(Lines(s)[..k - 1]), line);
      NoNewlines(line[..|line| - 1]);
    }
  }

  lemma {:induction false} ConcatSnoc(lines: seq<seq<Byte>>)
    requires lines != []
    ensures ConcatLines(lines) == ConcatLines(lines[..|lines| - 1]) + lines[|lines| - 1]
  {
    if |lines| > 1 {
      ConcatSnoc(lines[1..]);
      assert lines[1..][..|lines| - 2] == lines[..|lines| - 1][1..];
    }
  }

  lemma {:induction false} CutAt(lines: seq<seq<Byte>>, k: nat)
    requires k < |lines|
    ensures ConcatLines(lines[..k]) + lines[k] <= ConcatLines(lines)
    decreases |lines|
  {
    ConcatSnoc(lines);
    if k < |lines| - 1 {
      CutAt(lines[..|lines| - 1], k);
      assert lines[..|lines| - 1][..k] == lines[..k];
    } else {
      assert lines[..k] == lines[..|lines| - 1];
    }
  }
}
