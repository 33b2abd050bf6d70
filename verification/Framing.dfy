// Cutting streamed text into lines: ProcessMonitor.processStreamData and
// flushStreamBuffers (container/process-monitor.ts), and parseNdjsonStream
// (sdk/src/ndjson.ts). The reference is `Lines`, which looks at the whole text
// at once and knows nothing of chunks.
module Framing {
  import opened Text
  import RingBuffer

  // The trimmed parts that are not empty.
  function Clean(parts: seq<string>): seq<string> {
    if parts == [] then []
    else
      var t := Trim(parts[0]);
      if t == "" then Clean(parts[1..]) else [t] + Clean(parts[1..])
  }

  // The lines of a complete text.
  function Lines(text: string): seq<string> {
    Clean(Split(text, '\n'))
  }

  lemma {:induction false} CleanAppend(a: seq<string>, b: seq<string>)
    ensures Clean(a + b) == Clean(a) + Clean(b)
  {
    hide Trim;
    if a == [] {
      assert a + b == b;
    } else {
      assert (a + b)[0] == a[0] && (a + b)[1..] == a[1..] + b;
      CleanAppend(a[1..], b);
      var ca, cb := Clean(a[1..]), Clean(b);
      assert [Trim(a[0])] + (ca + cb) == ([Trim(a[0])] + ca) + cb;
    }
  }

  lemma CleanSingle(part: string)
    ensures Clean([part]) == if Trim(part) == "" then [] else [Trim(part)]
  {
    assert Clean([part][1..]) == [];
  }

  // What a line reader knows after `text`: the open last part and the lines
  // closed so far.
  function Open(text: string): string {
    Last(Split(text, '\n'))
  }

  function Closed(text: string): seq<string> {
    Clean(Init(Split(text, '\n')))
  }

  // One more chunk: only the open part has to be looked at again.
  lemma Resume(text: string, chunk: string)
    ensures Open(text + chunk) == Open(Open(text) + chunk)
    ensures Closed(text + chunk) == Closed(text) + Closed(Open(text) + chunk)
  {
    SplitResume(text, chunk, '\n');
    var a, b := Init(Split(text, '\n')), Split(Open(text) + chunk, '\n');
    assert Init(a + b) == a + Init(b);
    CleanAppend(a, Init(b));
  }

  // Closing the text turns the open part into the last line.
  lemma Finish(text: string)
    ensures Lines(text) == Closed(text) + Clean([Open(text)])
  {
    var parts := Split(text, '\n');
    assert parts == Init(parts) + [Last(parts)];
    CleanAppend(Init(parts), [Last(parts)]);
  }

  // Texts that are not empty, hold no newline and neither begin nor end with
  // white space.
  ghost predicate Tidy(parts: seq<string>) {
    forall i :: 0 <= i < |parts| ==>
      && parts[i] != "" && '\n' !in parts[i]
      && !IsSpace(parts[i][0]) && !IsSpace(parts[i][|parts[i]| - 1])
  }

  // One line, then the rest.
  lemma LinesCons(first: string, rest: string)
    requires Tidy([first])
    ensures Lines(first) == [first] && Lines(first + "\n" + rest) == [first] + Lines(rest)
  {
    assert [first][0] == first;
    TrimFixed(first);
    SplitAt(first, rest, '\n');
    hide Split, Trim;
    assert "\n" == ['\n'];
    assert ([first] + Split(rest, '\n'))[1..] == Split(rest, '\n');
    CleanSingle(first);
  }

  lemma NoLines()
    ensures Lines("") == []
  {
    CleanSingle("");
  }

  // Lines written one below the other are read back, with or without a newline
  // at the end.
  lemma {:induction false} WrittenLines(parts: seq<string>)
    requires Tidy(parts)
    ensures Lines(Join(parts, "\n")) == parts
    ensures parts != [] ==> Lines(Join(parts, "\n") + "\n") == parts
  {
    hide Lines;
    NoLines();
    if parts != [] {
      var first, rest := parts[0], Join(parts[1..], "\n");
      assert [first] + parts[1..] == parts;
      if |parts| > 1 {
        WrittenLines(parts[1..]);
        LinesCons(first, rest);
        LinesCons(first, rest + "\n");
        assert (first + "\n" + rest) + "\n" == first + "\n" + (rest + "\n");
      } else {
        LinesCons(first, "");
        assert first + "\n" + "" == first + "\n";
        assert [first] + [] == parts;
      }
    }
  }

  // ------------------------------------------------------------------
  // parseNdjsonStream
  // ------------------------------------------------------------------

  datatype Parsed<V> = Value(value: V) | SyntaxError

  // What a consumer of the generator sees: the values yielded, and whether a
  // line that is not JSON ended the stream.
  datatype Yielded<V> = Yielded(values: seq<V>, threw: bool)

  function ParseAll<V>(lines: seq<string>, parse: string -> Parsed<V>): (y: Yielded<V>) {
    if lines == [] then Yielded([], false)
    else match parse(lines[0])
      case SyntaxError => Yielded([], true)
      case Value(v) =>
        var rest := ParseAll(lines[1..], parse);
        Yielded([v] + rest.values, rest.threw)
  }

  lemma {:induction false} ParseAppend<V>(a: seq<string>, b: seq<string>, parse: string -> Parsed<V>)
    ensures ParseAll(a, parse).threw ==> ParseAll(a + b, parse) == ParseAll(a, parse)
    ensures !ParseAll(a, parse).threw ==>
      ParseAll(a + b, parse) == Yielded(ParseAll(a, parse).values + ParseAll(b, parse).values, ParseAll(b, parse).threw)
  {
    if a == [] {
      assert a + b == b;
    } else {
      assert (a + b)[1..] == a[1..] + b;
      ParseAppend(a[1..], b, parse);
    }
  }

  // Every line up to the first that is not JSON gives its value; that one ends
  // the stream.
  lemma {:induction false} ParseAllExactly<V>(lines: seq<string>, parse: string -> Parsed<V>, k: nat)
    requires k <= |lines| && (forall i :: 0 <= i < k ==> parse(lines[i]).Value?)
    requires k < |lines| ==> parse(lines[k]).SyntaxError?
    ensures
      var y := ParseAll(lines, parse);
      && |y.values| == k && (y.threw <==> k < |lines|)
      && forall i :: 0 <= i < k ==> y.values[i] == parse(lines[i]).value
  {
    if k > 0 {
      ParseAllExactly(lines[1..], parse, k - 1);
    }
  }

  // String.prototype.indexOf('\n'), with -1 for "not found".
  method IndexOfNewline(s: string) returns (i: int)
    ensures -1 <= i < |s|
    ensures i == -1 ==> '\n' !in s
    ensures i >= 0 ==> s[i] == '\n' && '\n' !in s[..i]
  {
    i := 0;
    while i < |s|
      invariant 0 <= i <= |s|
      invariant '\n' !in s[..i]
    {
      if s[i] == '\n' { return; }
      i := i + 1;
    }
    i := -1;
  }

  // The outer loop reads chunks, the inner one cuts lines off `buffer`. The
  // result depends on the concatenation of the chunks alone.
  method ParseNdjsonStream<V>(chunks: seq<string>, parse: string -> Parsed<V>) returns (y: Yielded<V>)
    ensures y == ParseAll(Lines(Concat(chunks)), parse)
  {
    hide ParseAll, Lines, Trim;
    var buffer := "";
    var values: seq<V> := [];
    ghost var all := Lines(Concat(chunks));
    ghost var lines: seq<string> := [];  // those cut off so far
    var n := 0;
    NdjsonStart(chunks, parse);
    while n < |chunks|
      invariant 0 <= n <= |chunks|
      invariant '\n' !in buffer
      invariant all == lines + Lines(buffer + Concat(chunks[n..]))
      invariant ParseAll(lines, parse) == Yielded(values, false)
    {
      assert buffer + Concat(chunks[n..]) == (buffer + chunks[n]) + Concat(chunks[n + 1..]);
      buffer := buffer + chunks[n];
      n := n + 1;
      ghost var rest := Concat(chunks[n..]);
      while true
        invariant all == lines + Lines(buffer + rest)
        invariant ParseAll(lines, parse) == Yielded(values, false)
        decreases |buffer|
      {
        var newlineIndex := IndexOfNewline(buffer);
        if newlineIndex == -1 { break; }
        var line := Trim(buffer[..newlineIndex]);
        ghost var before := lines;
        lines := CutLine(before, buffer, newlineIndex, rest);
        buffer := buffer[newlineIndex + 1..];
        if line == "" { continue; }
        match parse(line) {
          case SyntaxError =>
            ParseMore(before, values, line, parse);
            ParseAppend(lines, Lines(buffer + rest), parse);
            return Yielded(values, true);
          case Value(v) =>
            ParseMore(before, values, line, parse);
            values := values + [v];
        }
      }
    }
    NdjsonTail(lines, values, buffer, parse);
    assert buffer + Concat(chunks[n..]) == buffer;
    var tail := Trim(buffer);
    if tail != "" {
      match parse(tail) {
        case SyntaxError => return Yielded(values, true);
        case Value(v) => values := values + [v];
      }
    }
    return Yielded(values, false);
  }

  lemma NdjsonStart<V>(chunks: seq<string>, parse: string -> Parsed<V>)
    ensures Lines(Concat(chunks)) == [] + Lines("" + Concat(chunks[0..]))
    ensures ParseAll([], parse) == Yielded([], false)
  {
    assert chunks[0..] == chunks && "" + Concat(chunks) == Concat(chunks);
  }

  // Cutting the first line off the buffer moves it to the lines seen.
  lemma CutLine(lines: seq<string>, buffer: string, i: nat, rest: string) returns (more: seq<string>)
    requires i < |buffer| && buffer[i] == '\n' && '\n' !in buffer[..i]
    ensures more == if Trim(buffer[..i]) == "" then lines else lines + [Trim(buffer[..i])]
    ensures lines + Lines(buffer + rest) == more + Lines(buffer[i + 1..] + rest)
  {
    hide Clean, Split, Trim;
    var head, tail := buffer[..i], buffer[i + 1..] + rest;
    assert buffer + rest == head + ['\n'] + tail;
    SplitAt(head, tail, '\n');
    CleanAppend([head], Split(tail, '\n'));
    CleanSingle(head);
    more := lines + Clean([head]);
  }

  lemma ParseMore<V>(lines: seq<string>, values: seq<V>, line: string, parse: string -> Parsed<V>)
    requires ParseAll(lines, parse) == Yielded(values, false)
    ensures parse(line).SyntaxError? ==> ParseAll(lines + [line], parse) == Yielded(values, true)
    ensures parse(line).Value? ==> ParseAll(lines + [line], parse) == Yielded(values + [parse(line).value], false)
  {
    ParseAppend(lines, [line], parse);
    assert ParseAll([line][1..], parse) == Yielded([], false);
    assert values + [] == values;
  }

  lemma NdjsonTail<V>(lines: seq<string>, values: seq<V>, buffer: string, parse: string -> Parsed<V>)
    requires '\n' !in buffer && ParseAll(lines, parse) == Yielded(values, false)
    ensures Trim(buffer) == "" ==> ParseAll(lines + Lines(buffer), parse) == Yielded(values, false)
    ensures Trim(buffer) != "" ==> lines + Lines(buffer) == lines + [Trim(buffer)]
    ensures Trim(buffer) != "" && parse(Trim(buffer)).SyntaxError? ==>
      ParseAll(lines + [Trim(buffer)], parse) == Yielded(values, true)
    ensures Trim(buffer) != "" && parse(Trim(buffer)).Value? ==>
      ParseAll(lines + [Trim(buffer)], parse) == Yielded(values + [parse(Trim(buffer)).value], false)
  {
    hide Clean, Split, Trim, ParseAll;
    SplitAt(buffer, "", '\n');
    CleanSingle(buffer);
    assert lines + [] == lines;
    ParseMore(lines, values, Trim(buffer), parse);
  }

  // ------------------------------------------------------------------
  // The monitor's two output streams
  // ------------------------------------------------------------------

  datatype Stream = Stdout | Stderr

  datatype LogLine = LogLine(content: string, stream: Stream)

  function Tag(lines: seq<string>, stream: Stream): seq<LogLine> {
    seq(|lines|, i requires 0 <= i < |lines| => LogLine(lines[i], stream))
  }

  // The contents pushed for one stream, in order.
  function Project(log: seq<LogLine>, stream: Stream): seq<string> {
    if log == [] then []
    else if log[0].stream == stream then [log[0].content] + Project(log[1..], stream)
    else Project(log[1..], stream)
  }

  lemma {:induction false} ProjectAppend(a: seq<LogLine>, b: seq<LogLine>, stream: Stream)
    ensures Project(a + b, stream) == Project(a, stream) + Project(b, stream)
  {
    if a == [] {
      assert a + b == b;
    } else {
      assert (a + b)[0] == a[0] && (a + b)[1..] == a[1..] + b;
      ProjectAppend(a[1..], b, stream);
      var pa, pb := Project(a[1..], stream), Project(b, stream);
      assert [a[0].content] + (pa + pb) == ([a[0].content] + pa) + pb;
    }
  }

  lemma {:induction false} ProjectTag(lines: seq<string>, tag: Stream, stream: Stream)
    ensures Project(Tag(lines, tag), stream) == if tag == stream then lines else []
  {
    if lines != [] {
      assert Tag(lines, tag)[1..] == Tag(lines[1..], tag);
      ProjectTag(lines[1..], tag, stream);
    }
  }

  // The reader's memory: the two open parts, and every line pushed since start.
  datatype Reader = Reader(stdout: string, stderr: string, pushed: seq<LogLine>) {
    function Part(stream: Stream): string {
      if stream == Stdout then stdout else stderr
    }

    // One data event.
    function Feed(text: string, stream: Stream): Reader {
      var content := Part(stream) + text;
      var log := pushed + Tag(Closed(content), stream);
      if stream == Stdout then Reader(Open(content), stderr, log) else Reader(stdout, Open(content), log)
    }

    function Flush(): Reader {
      Reader("", "", pushed + Tag(Clean([stdout]), Stdout) + Tag(Clean([stderr]), Stderr))
    }
  }

  datatype Chunk = Chunk(text: string, stream: Stream)

  const FRESH := Reader("", "", [])

  lemma ProjectPush(log: seq<LogLine>, lines: seq<string>, tag: Stream, stream: Stream)
    ensures Project(log + Tag(lines, tag), stream) == Project(log, stream) + (if tag == stream then lines else [])
  {
    ProjectAppend(log, Tag(lines, tag), stream);
    ProjectTag(lines, tag, stream);
  }

  lemma FlushTracks(r: Reader, stream: Stream)
    ensures Project(r.Flush().pushed, stream) == Project(r.pushed, stream) + Clean([r.Part(stream)])
  {
    hide Clean, Project;
    var out, err := Clean([r.stdout]), Clean([r.stderr]);
    ProjectPush(r.pushed, out, Stdout, stream);
    ProjectPush(r.pushed + Tag(out, Stdout), err, Stderr, stream);
  }

  // Pushing the next trimmed line, if there is one, extends the tagged lines.
  lemma CleanNext(log: seq<LogLine>, lines: seq<string>, i: nat, stream: Stream)
    requires i < |lines|
    ensures Trim(lines[i]) == "" ==> log + Tag(Clean(lines[..i + 1]), stream) == log + Tag(Clean(lines[..i]), stream)
    ensures Trim(lines[i]) != "" ==>
      log + Tag(Clean(lines[..i + 1]), stream) == log + Tag(Clean(lines[..i]), stream) + [LogLine(Trim(lines[i]), stream)]
  {
    hide Clean, Trim;
    assert lines[..i + 1] == lines[..i] + [lines[i]];
    CleanAppend(lines[..i], [lines[i]]);
    CleanSingle(lines[i]);
  }

  lemma CleanNone(log: seq<LogLine>, stream: Stream)
    ensures forall lines: seq<string> :: log + Tag(Clean(lines[..0]), stream) == log
  {
  }

  lemma CleanOne(log: seq<LogLine>, part: string, stream: Stream)
    ensures Trim(part) == "" ==> log + Tag(Clean([part]), stream) == log
    ensures Trim(part) != "" ==> log + Tag(Clean([part]), stream) == log + [LogLine(Trim(part), stream)]
  {
    CleanSingle(part);
  }

  // ------------------------------------------------------------------
  // Any interleaving of chunks and flushes
  // ------------------------------------------------------------------

  datatype Input = Data(chunk: Chunk) | Flushed

  function ReadAll(inputs: seq<Input>): Reader {
    if inputs == [] then FRESH
    else match Last(inputs)
      case Data(c) => ReadAll(Init(inputs)).Feed(c.text, c.stream)
      case Flushed => ReadAll(Init(inputs)).Flush()
  }

  // A stream's lines with each flush taken for the end of a text: those ended by
  // the last flush, and the text received since.
  function Sections(inputs: seq<Input>, stream: Stream): (seq<string>, string) {
    if inputs == [] then ([], "")
    else
      var (lines, text) := Sections(Init(inputs), stream);
      match Last(inputs)
      case Data(c) => (lines, if c.stream == stream then text + c.text else text)
      case Flushed => (lines + Lines(text), "")
  }

  // The reader `r` has read `text` on `stream` since the last flush, and had pushed
  // `lines` before that.
  ghost predicate Reads(r: Reader, stream: Stream, lines: seq<string>, text: string) {
    r.Part(stream) == Open(text) && Project(r.pushed, stream) == lines + Closed(text)
  }

  lemma ReadsData(r: Reader, c: Chunk, stream: Stream, lines: seq<string>, text: string)
    requires Reads(r, stream, lines, text)
    ensures Reads(r.Feed(c.text, c.stream), stream, lines, if c.stream == stream then text + c.text else text)
  {
    hide Open, Closed, Project;
    ProjectPush(r.pushed, Closed(r.Part(c.stream) + c.text), c.stream, stream);
    Resume(text, c.text);
    assert (lines + Closed(text)) + Closed(Open(text) + c.text) == lines + (Closed(text) + Closed(Open(text) + c.text));
    assert (lines + Closed(text)) + [] == lines + Closed(text);
  }

  lemma ReadsFlush(r: Reader, stream: Stream, lines: seq<string>, text: string)
    requires Reads(r, stream, lines, text)
    ensures Reads(r.Flush(), stream, lines + Lines(text), "")
  {
    hide Open, Closed, Project, Lines, Clean;
    FlushTracks(r, stream);
    Finish(text);
    NoText();
    assert (lines + Closed(text)) + Clean([Open(text)]) == lines + (Closed(text) + Clean([Open(text)]));
    assert (lines + Lines(text)) + [] == lines + Lines(text);
  }

  // After any interleaving of chunks and flushes a stream has the lines of its
  // sections, whatever the cuts.
  lemma {:induction false} FlushesEndSections(inputs: seq<Input>, stream: Stream)
    ensures Reads(ReadAll(inputs), stream, Sections(inputs, stream).0, Sections(inputs, stream).1)
  {
    hide Reads;
    if inputs == [] {
      NothingRead(stream);
    } else {
      FlushesEndSections(Init(inputs), stream);
      var before := ReadAll(Init(inputs));
      var (lines, text) := Sections(Init(inputs), stream);
      match Last(inputs) {
        case Data(c) => ReadsData(before, c, stream, lines, text);
        case Flushed => ReadsFlush(before, stream, lines, text);
      }
    }
  }

  // All text received on one stream.
  function Received(inputs: seq<Input>, stream: Stream): string {
    if inputs == [] then ""
    else
      Received(Init(inputs), stream)
      + (if Last(inputs).Data? && Last(inputs).chunk.stream == stream then Last(inputs).chunk.text else "")
  }

  lemma {:induction false} OneSection(inputs: seq<Input>, stream: Stream)
    requires forall i :: 0 <= i < |inputs| ==> inputs[i].Data?
    ensures Sections(inputs, stream) == ([], Received(inputs, stream))
  {
    if inputs != [] {
      OneSection(Init(inputs), stream);
      assert Received(Init(inputs), stream) + "" == Received(Init(inputs), stream);
    }
  }

  // Chunk independence: with one flush at the end, the lines of each stream are
  // those of its whole text, whatever the cuts and whatever came on the other.
  lemma ChunkIndependence(inputs: seq<Input>, stream: Stream)
    requires forall i :: 0 <= i < |inputs| ==> inputs[i].Data?
    ensures Project(ReadAll(inputs).Flush().pushed, stream) == Lines(Received(inputs, stream))
  {
    hide Lines, Open, Closed, Project, ReadAll, Received;
    var text := Received(inputs, stream);
    OneSection(inputs, stream);
    FlushesEndSections(inputs, stream);
    FlushTracks(ReadAll(inputs), stream);
    Finish(text);
    assert [] + Closed(text) == Closed(text);
  }

  lemma NothingRead(stream: Stream)
    ensures Reads(FRESH, stream, [], "")
  {
    NoText();
  }

  lemma NoText()
    ensures Open("") == "" && Closed("") == []
  {
    assert Init([""]) == [];
  }

  // The text before the first newline.
  function Head(text: string): string {
    Split(text, '\n')[0]
  }

  // A flush between `a` and `b` changes the lines exactly when it falls inside
  // one: when there is something other than white space on both of its sides.
  lemma FlushSplitsExactly(a: string, b: string)
    ensures Lines(a) + Lines(b) != Lines(a + b) <==> Trim(Open(a)) != "" && Trim(Head(b)) != ""
  {
    hide Lines, Closed, Open, Head, Clean, Trim, Split;
    var rest := Clean(Split(b, '\n')[1..]);
    Finish(a);
    LinesAround(a, b);
    Between(Closed(a), Clean([Open(a)]), Clean([Head(b)]), Clean([Open(a) + Head(b)]), rest);
    JoinsCleanly(Open(a), Head(b));
  }

  // Cutting a text that has no newline leaves the same lines exactly when one
  // half is blank.
  lemma JoinsCleanly(o: string, h: string)
    ensures Clean([o]) + Clean([h]) == Clean([o + h]) <==> Trim(o) == "" || Trim(h) == ""
  {
    hide Clean, Trim;
    CleanSingle(o);
    CleanSingle(h);
    CleanSingle(o + h);
    TrimBeside(o, h);
    if Trim(o) != "" && Trim(h) != "" {
      assert |Clean([o]) + Clean([h])| == 2;
    }
  }

  lemma Between(p: seq<string>, x: seq<string>, y: seq<string>, z: seq<string>, rest: seq<string>)
    ensures (p + x) + (y + rest) == p + (z + rest) <==> x + y == z
  {
    assert (p + x) + (y + rest) == p + ((x + y) + rest);
    if (p + x) + (y + rest) == p + (z + rest) {
      assert (p + ((x + y) + rest))[|p|..] == (x + y) + rest && (p + (z + rest))[|p|..] == z + rest;
      assert ((x + y) + rest)[..|x + y|] == x + y && (z + rest)[..|z|] == z;
    }
  }

  // The lines of `b` alone, and behind `a`.
  lemma LinesAround(a: string, b: string)
    ensures Lines(b) == Clean([Head(b)]) + Clean(Split(b, '\n')[1..])
    ensures Lines(a + b) == Closed(a) + (Clean([Open(a) + Head(b)]) + Clean(Split(b, '\n')[1..]))
  {
    var o, parts := Open(a), Split(b, '\n');
    assert parts == [parts[0]] + parts[1..];
    SplitResume(a, b, '\n');
    SplitParts(a, '\n');
    SplitGlue(o, b, '\n');
    hide Split, Clean;
    CleanAppend([parts[0]], parts[1..]);
    CleanAppend(Init(Split(a, '\n')), Split(o + b, '\n'));
    CleanAppend([o + parts[0]], parts[1..]);
  }

  // Array.prototype.slice with a start alone.
  function SliceFrom<T>(s: seq<T>, start: int): seq<T> {
    if start >= |s| then []
    else if start >= 0 then s[start..]
    else if |s| + start > 0 then s[|s| + start..]
    else s
  }

  // The fields of ProcessMonitor that the stream handlers touch.
  class StreamMonitor {
    var stdoutBuffer: string
    var stderrBuffer: string
    const logBuffer: RingBuffer.CircularBuffer<LogLine>
    ghost var pushed: seq<LogLine>

    ghost predicate Valid()
      reads this, logBuffer, logBuffer.buffer
    {
      && logBuffer.Valid()
      && logBuffer.Contents() == RingBuffer.Newest(pushed, logBuffer.capacity)
    }

    ghost function View(): Reader
      reads this
    {
      Reader(stdoutBuffer, stderrBuffer, pushed)
    }

    constructor (errorBufferSize: nat)
      ensures Valid() && fresh(logBuffer) && fresh(logBuffer.buffer)
      ensures View() == FRESH && logBuffer.capacity == errorBufferSize
    {
      logBuffer := new RingBuffer.CircularBuffer(errorBufferSize);
      stdoutBuffer, stderrBuffer, pushed := "", "", [];
    }

    // The part of start() that forgets the previous run's output.
    method ClearBuffers()
      requires Valid()
      modifies this, logBuffer
      ensures Valid() && fresh(logBuffer.buffer) && View() == FRESH
    {
      logBuffer.Clear();
      stdoutBuffer, stderrBuffer, pushed := "", "", [];
    }

    method PushLine(line: LogLine)
      requires Valid()
      modifies this`pushed, logBuffer, logBuffer.buffer
      ensures Valid() && logBuffer.buffer == old(logBuffer.buffer)
      ensures pushed == old(pushed) + [line]
    {
      logBuffer.Push(line);
      RingBuffer.NewestStep(pushed, line, logBuffer.capacity);
      pushed := pushed + [line];
    }

    method ProcessStreamData(text: string, stream: Stream)
      requires Valid()
      modifies this, logBuffer, logBuffer.buffer
      ensures Valid() && logBuffer.buffer == old(logBuffer.buffer)
      ensures View() == old(View()).Feed(text, stream)
    {
      hide Split, Clean, Trim;
      var content := (if stream == Stdout then stdoutBuffer else stderrBuffer) + text;
      var lines := Split(content, '\n');
      if stream == Stdout {
        stdoutBuffer := lines[|lines| - 1];
      } else {
        stderrBuffer := lines[|lines| - 1];
      }
      PushLines(lines[..|lines| - 1], stream);
    }

    // The loop over the closed lines.
    method PushLines(lines: seq<string>, stream: Stream)
      requires Valid()
      modifies this`pushed, logBuffer, logBuffer.buffer
      ensures Valid() && logBuffer.buffer == old(logBuffer.buffer)
      ensures pushed == old(pushed) + Tag(Clean(lines), stream)
    {
      hide Clean, Trim;
      ghost var before := pushed;
      CleanNone(before, stream);
      var i := 0;
      while i < |lines|
        invariant 0 <= i <= |lines|
        invariant Valid() && logBuffer.buffer == old(logBuffer.buffer)
        invariant pushed == before + Tag(Clean(lines[..i]), stream)
      {
        var trimmedLine := Trim(lines[i]);
        CleanNext(before, lines, i, stream);
        if trimmedLine != "" {
          PushLine(LogLine(trimmedLine, stream));
        }
        i := i + 1;
      }
      assert lines[..|lines|] == lines;
    }

    method FlushStreamBuffers()
      requires Valid()
      modifies this, logBuffer, logBuffer.buffer
      ensures Valid() && logBuffer.buffer == old(logBuffer.buffer)
      ensures View() == old(View()).Flush()
    {
      hide Clean, Trim;
      CleanOne(pushed, stdoutBuffer, Stdout);
      if Trim(stdoutBuffer) != "" {
        PushLine(LogLine(Trim(stdoutBuffer), Stdout));
      }
      CleanOne(pushed, stderrBuffer, Stderr);
      if Trim(stderrBuffer) != "" {
        PushLine(LogLine(Trim(stderrBuffer), Stderr));
      }
      stdoutBuffer, stderrBuffer := "", "";
    }

    // getRecentLogs: of the newest lines pushed, the last `limit`; all of them for
    // a limit of 0, all but the first -limit for a negative one.
    method RecentLogs(limit: int) returns (logs: seq<LogLine>)
      requires Valid()
      ensures
        var kept := RingBuffer.Newest(pushed, logBuffer.capacity);
        && (limit > 0 ==> logs == RingBuffer.Newest(kept, limit))
        && (limit == 0 ==> logs == kept)
        && (limit < 0 ==> logs == if -limit <= |kept| then kept[-limit..] else [])
    {
      logs := logBuffer.ToArray();
      logs := SliceFrom(logs, -limit);
    }
  }
}
