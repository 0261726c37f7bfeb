/**
 * The upstream event-line protocol and what the streaming translator makes of
 * it, as functions of the text received so far.
 *
 * The upstream sends newline-separated lines; the meaningful ones are
 * `data: <payload>`, where the payload is either the sentinel `[DONE]` or a
 * JSON object. `JSON.parse` is a parameter of the model (`parse`), so every
 * property below holds for every parser.
 */
module UpstreamLines {
  import opened Wrappers
  import opened JsStrings
  import opened Formatting

  const DataPrefix: string := "data: "
  const DoneSentinel: string := "[DONE]"
  const ErrorAction: string := "error"
  const DuckErrorType: string := "duck_error"
  const DuckErrorPrefix: string := "DuckDuckGo Error: "

  /** What `JSON.parse(payload)` gives, seen through the four properties the
      translator reads. `Unparsable` stands for a parse that throws and for a
      parse that yields `null` (reading a property of it throws, and the
      exception is swallowed the same way). A missing property is `None`. */
  datatype Payload =
    | Unparsable
    | Object(action: Option<string>, status: Option<int>, errorType: Option<string>, message: Option<string>)

  /** `data.message` is truthy: present and not the empty string. */
  predicate HasMessage(p: Payload)
  {
    p.Object? && p.message.Some? && p.message.value != ""
  }

  /** How the streaming loop treats one complete line. */
  datatype LineKind =
    | Ignored
    | Sentinel
    | UpstreamError(status: Option<int>, errorType: Option<string>)
    | Fragment(text: string)

  /** The records the streaming translator enqueues: a content delta, the
      terminal chunk, or an error record. */
  datatype Frame = Delta(text: string) | Stop | Fail(error: ErrorResponse)

  predicate IsTerminator(f: Frame)
  {
    f.Stop? || f.Fail?
  }

  /** The body of `data:` line `line` (`line.slice(6)`). */
  function PayloadText(line: string): (payload: string)
    requires StartsWith(line, DataPrefix)
    ensures line == DataPrefix + payload
  {
    line[|DataPrefix|..]
  }

  /** Classification of one complete line by the streaming loop: lines
      without the data prefix are skipped, `[DONE]` closes the stream, an
      object whose `action` is "error" ends it with an error record, an object
      with a truthy `message` yields a fragment, and anything else (including
      unparsable payloads) is skipped. The loop also skips blank lines first;
      a blank line never has the data prefix (DataLineIsNotBlank), so that
      test decides nothing on its own. */
  function ClassifyLine(line: string, parse: string -> Payload): (k: LineKind)
    ensures k != Ignored ==> StartsWith(line, DataPrefix)
    ensures k == Sentinel <==> StartsWith(line, DataPrefix) && PayloadText(line) == DoneSentinel
    ensures k.Fragment? ==> k.text != ""
  {
    if !StartsWith(line, DataPrefix) then Ignored
    else
      var content := PayloadText(line);
      if content == DoneSentinel then Sentinel
      else
        match parse(content)
        case Unparsable => Ignored
        case Object(action, status, errorType, message) =>
          if action == Some(ErrorAction) then UpstreamError(status, errorType)
          else if message.Some? && message.value != "" then Fragment(message.value)
          else Ignored
  }

  /** `${data.type}` in a template literal: a missing type prints as "undefined". */
  function TypeText(errorType: Option<string>): string
  {
    errorType.GetOr("undefined")
  }

  /** The error record for an in-band upstream error. */
  function DuckError(status: Option<int>, errorType: Option<string>): (e: ErrorResponse)
    ensures e.code == status && e.typ == DuckErrorType && e.param == None
    ensures e.message == DuckErrorPrefix + TypeText(errorType)
  {
    FormatErrorResponse(status, DuckErrorPrefix + TypeText(errorType), DuckErrorType)
  }

  /** The records enqueued for one complete line. */
  function LineFrames(k: LineKind): seq<Frame>
  {
    match k
    case Ignored => []
    case Sentinel => [Stop]
    case UpstreamError(status, errorType) => [Fail(DuckError(status, errorType))]
    case Fragment(text) => [Delta(text)]
  }

  /** Records produced by a run of complete lines, and whether the run closed
      the stream (after which no line is looked at). */
  datatype Progress = Progress(frames: seq<Frame>, closed: bool)

  predicate Closes(k: LineKind)
  {
    k.Sentinel? || k.UpstreamError?
  }

  /** Nothing but deltas, except possibly a single terminator at the very end,
      which is there exactly when the stream was closed. */
  ghost predicate WellFramed(frames: seq<Frame>, closed: bool)
  {
    (closed <==> (|frames| >= 1 && IsTerminator(frames[|frames| - 1]))) &&
    (forall i :: 0 <= i < |frames| - 1 ==> frames[i].Delta?)
  }

  /** The streaming loop over a run of classified complete lines: records are
      enqueued in order until a line closes the stream. */
  function Run(kinds: seq<LineKind>): (r: Progress)
    ensures |r.frames| <= |kinds|
    ensures r.closed ==> kinds != []
  {
    if kinds == [] then Progress([], false)
    else if Closes(kinds[0]) then Progress(LineFrames(kinds[0]), true)
    else
      var rest := Run(kinds[1..]);
      Progress(LineFrames(kinds[0]) + rest.frames, rest.closed)
  }

  /** A run yields only deltas, then one terminator exactly when it closed
      the stream. */
  lemma {:induction false} RunIsWellFramed(kinds: seq<LineKind>)
    ensures WellFramed(Run(kinds).frames, Run(kinds).closed)
  {
    if kinds != [] && !Closes(kinds[0]) {
      RunIsWellFramed(kinds[1..]);
      var rest := Run(kinds[1..]);
      var r := Run(kinds);
      assert r.frames == LineFrames(kinds[0]) + rest.frames;
      assert forall i :: |LineFrames(kinds[0])| <= i < |r.frames| ==> r.frames[i] == rest.frames[i - |LineFrames(kinds[0])|];
    }
  }

  /** Each line classified on its own. */
  function ClassifyAll(lines: seq<string>, parse: string -> Payload): (kinds: seq<LineKind>)
    ensures |kinds| == |lines|
  {
    if lines == [] then [] else [ClassifyLine(lines[0], parse)] + ClassifyAll(lines[1..], parse)
  }

  lemma {:induction false} ClassifyAllAt(lines: seq<string>, parse: string -> Payload, i: nat)
    requires i < |lines|
    ensures ClassifyAll(lines, parse)[i] == ClassifyLine(lines[i], parse)
  {
    if i > 0 {
      ClassifyAllAt(lines[1..], parse, i - 1);
    }
  }

  /** The streaming loop over complete lines. */
  function ProcessLines(lines: seq<string>, parse: string -> Payload): (r: Progress)
    ensures |r.frames| <= |lines|
    ensures r.closed ==> lines != []
  {
    Run(ClassifyAll(lines, parse))
  }

  /** What is done with the carry-over left when the input ends: only a
      `data:` line that is not `[DONE]` is parsed, and only its `message` is
      used; an `action` of "error" is not looked at. */
  function TailFrames(partialLine: string, parse: string -> Payload): (r: seq<Frame>)
    ensures |r| <= 1
    ensures r != [] ==> StartsWith(partialLine, DataPrefix) && r[0].Delta? && r[0].text != ""
  {
    if partialLine != "" && StartsWith(partialLine, DataPrefix) && PayloadText(partialLine) != DoneSentinel then
      var data := parse(PayloadText(partialLine));
      if HasMessage(data) then [Delta(data.message.value)] else []
    else []
  }

  /** The complete lines of a text: every segment followed by a newline. */
  function CompleteLines(text: string): seq<string>
  {
    AllButLast(Split(text, '\n'))
  }

  /** The unterminated rest of a text (the carry-over `partialLine`). */
  function CarryOver(text: string): string
  {
    Last(Split(text, '\n'))
  }

  /** The lines of a text are its complete lines followed by the carry-over. */
  lemma LinesOfText(text: string)
    ensures Split(text, '\n') == CompleteLines(text) + [CarryOver(text)]
  {
    var parts := Split(text, '\n');
    assert parts == parts[..|parts| - 1] + [parts[|parts| - 1]];
  }

  /** Everything the streaming translator enqueues for the upstream text
      `text`: the records of its complete lines, and, unless one of them
      closed the stream, the records of the carry-over and a synthetic
      terminal chunk. */
  function StreamFrames(text: string, parse: string -> Payload): (out: seq<Frame>)
    ensures |out| >= 1 && IsTerminator(out[|out| - 1])
    ensures !ProcessLines(CompleteLines(text), parse).closed ==> out[|out| - 1] == Stop
    ensures |out| <= |CompleteLines(text)| + 2
  {
    var r := ProcessLines(CompleteLines(text), parse);
    RunIsWellFramed(ClassifyAll(CompleteLines(text), parse));
    if r.closed then r.frames else r.frames + TailFrames(CarryOver(text), parse) + [Stop]
  }

  /** Processing two runs of lines one after the other: once the first run has
      closed the stream the second is ignored; otherwise the records follow
      each other in order. */
  lemma {:induction false} RunAppend(a: seq<LineKind>, b: seq<LineKind>)
    ensures Run(a).closed ==> Run(a + b) == Run(a)
    ensures !Run(a).closed ==> Run(a + b) == Progress(Run(a).frames + Run(b).frames, Run(b).closed)
  {
    if a != [] {
      assert (a + b)[0] == a[0];
      assert (a + b)[1..] == a[1..] + b;
      RunAppend(a[1..], b);
    } else {
      assert a + b == b;
    }
  }

  lemma {:induction false} ClassifyAllAppend(a: seq<string>, b: seq<string>, parse: string -> Payload)
    ensures ClassifyAll(a + b, parse) == ClassifyAll(a, parse) + ClassifyAll(b, parse)
  {
    if a == [] {
      assert a + b == b;
    } else {
      assert (a + b)[0] == a[0];
      assert (a + b)[1..] == a[1..] + b;
      ClassifyAllAppend(a[1..], b, parse);
    }
  }

  /** The same for lines. */
  lemma ProcessLinesAppend(a: seq<string>, b: seq<string>, parse: string -> Payload)
    ensures ProcessLines(a, parse).closed ==> ProcessLines(a + b, parse) == ProcessLines(a, parse)
    ensures !ProcessLines(a, parse).closed ==>
      ProcessLines(a + b, parse) ==
        Progress(ProcessLines(a, parse).frames + ProcessLines(b, parse).frames, ProcessLines(b, parse).closed)
  {
    ClassifyAllAppend(a, b, parse);
    RunAppend(ClassifyAll(a, parse), ClassifyAll(b, parse));
  }

  /** One line on its own. */
  lemma ProcessOneLine(line: string, parse: string -> Payload)
    ensures ProcessLines([line], parse) ==
      Progress(LineFrames(ClassifyLine(line, parse)), Closes(ClassifyLine(line, parse)))
  {
    var ks := ClassifyAll([line], parse);
    assert [line][1..] == [];
    assert ks == [ClassifyLine(line, parse)];
    assert ks[1..] == [];
    assert Run(ks[1..]) == Progress([], false);
    assert LineFrames(ks[0]) + [] == LineFrames(ks[0]);
  }

  /** A skipped line (blank, not `data:`, unparsable, or an object with
      neither an error action nor a message) changes nothing around it. */
  lemma SkippedLineIsInvisible(a: seq<string>, line: string, b: seq<string>, parse: string -> Payload)
    requires ClassifyLine(line, parse) == Ignored
    ensures ProcessLines(a + [line] + b, parse) == ProcessLines(a + b, parse)
  {
    ProcessOneLine(line, parse);
    assert a + [line] + b == a + ([line] + b);
    ProcessLinesAppend(a, [line] + b, parse);
    ProcessLinesAppend(a, b, parse);
    ProcessLinesAppend([line], b, parse);
    var pb := ProcessLines(b, parse);
    assert ProcessLines([line] + b, parse) == Progress([] + pb.frames, pb.closed);
    assert [] + pb.frames == pb.frames;
  }

  /** `[DONE]` appends the terminal chunk and closes the stream: nothing after
      it produces a record. */
  lemma SentinelClosesStream(a: seq<string>, line: string, b: seq<string>, parse: string -> Payload)
    requires !ProcessLines(a, parse).closed
    requires StartsWith(line, DataPrefix) && PayloadText(line) == DoneSentinel
    ensures ProcessLines(a + [line] + b, parse) == Progress(ProcessLines(a, parse).frames + [Stop], true)
  {
    ProcessOneLine(line, parse);
    ProcessLinesAppend(a, [line], parse);
    ProcessLinesAppend(a + [line], b, parse);
  }

  /** At the level of the whole upstream text: once a complete line is
      `[DONE]`, the terminal chunk is the last record; the complete lines after
      it and the carry-over add nothing, and no second terminal chunk follows. */
  lemma SentinelEndsStream(text: string, a: seq<string>, line: string, b: seq<string>, parse: string -> Payload)
    requires CompleteLines(text) == a + [line] + b
    requires !ProcessLines(a, parse).closed
    requires StartsWith(line, DataPrefix) && PayloadText(line) == DoneSentinel
    ensures StreamFrames(text, parse) == ProcessLines(a, parse).frames + [Stop]
  {
    SentinelClosesStream(a, line, b, parse);
  }

  /** An object with `action == "error"` appends one error record, carrying
      the upstream status and type, and closes the stream. */
  lemma ErrorObjectClosesStream(a: seq<string>, line: string, b: seq<string>, parse: string -> Payload)
    requires !ProcessLines(a, parse).closed
    requires StartsWith(line, DataPrefix) && PayloadText(line) != DoneSentinel
    requires parse(PayloadText(line)).Object? && parse(PayloadText(line)).action == Some(ErrorAction)
    ensures ProcessLines(a + [line] + b, parse) ==
      Progress(ProcessLines(a, parse).frames +
               [Fail(ErrorResponse(DuckErrorPrefix + TypeText(parse(PayloadText(line)).errorType), DuckErrorType,
                                   parse(PayloadText(line)).status, None))], true)
  {
    ProcessOneLine(line, parse);
    ProcessLinesAppend(a, [line], parse);
    ProcessLinesAppend(a + [line], b, parse);
  }

  /** At the level of the whole upstream text: an error object's record is
      the last one; no terminal chunk follows it. */
  lemma ErrorObjectEndsStream(text: string, a: seq<string>, line: string, b: seq<string>, parse: string -> Payload)
    requires CompleteLines(text) == a + [line] + b
    requires !ProcessLines(a, parse).closed
    requires StartsWith(line, DataPrefix) && PayloadText(line) != DoneSentinel
    requires parse(PayloadText(line)).Object? && parse(PayloadText(line)).action == Some(ErrorAction)
    ensures StreamFrames(text, parse) ==
      ProcessLines(a, parse).frames + [Fail(DuckError(parse(PayloadText(line)).status, parse(PayloadText(line)).errorType))]
  {
    ErrorObjectClosesStream(a, line, b, parse);
  }

  /** A line whose object has a truthy `message` and no error action appends
      exactly one content delta, in arrival order between the records of the
      lines before and after it. */
  lemma FragmentKeepsOrder(a: seq<string>, line: string, b: seq<string>, parse: string -> Payload)
    requires !ProcessLines(a, parse).closed
    requires StartsWith(line, DataPrefix) && PayloadText(line) != DoneSentinel
    requires HasMessage(parse(PayloadText(line))) && parse(PayloadText(line)).action != Some(ErrorAction)
    ensures ProcessLines(a + [line] + b, parse) ==
      Progress(ProcessLines(a, parse).frames + [Delta(parse(PayloadText(line)).message.value)] +
               ProcessLines(b, parse).frames, ProcessLines(b, parse).closed)
  {
    ProcessOneLine(line, parse);
    ProcessLinesAppend(a, [line], parse);
    ProcessLinesAppend(a + [line], b, parse);
  }

  /** A `data:` line is never blank, so the blank test never hides one. */
  lemma DataLineIsNotBlank(line: string)
    requires StartsWith(line, DataPrefix)
    ensures Trim(line) != ""
  {
    TrimEmptyIffBlank(line);
    assert line[0] == 'd';
  }

  /** Every translated stream ends with exactly one terminator (the terminal
      chunk or an error record) and contains nothing but deltas before it; it
      ends with an error record only when some complete line was an error
      object. */
  lemma StreamHasOneTerminator(text: string, parse: string -> Payload)
    ensures var r := StreamFrames(text, parse);
      |r| >= 1 && IsTerminator(r[|r| - 1]) &&
      (forall i :: 0 <= i < |r| - 1 ==> r[i].Delta?)
    ensures var r := StreamFrames(text, parse);
      r[|r| - 1].Fail? ==>
        exists i :: 0 <= i < |CompleteLines(text)| && ClassifyLine(CompleteLines(text)[i], parse).UpstreamError?
  {
    var ks := ClassifyAll(CompleteLines(text), parse);
    var p := Run(ks);
    RunIsWellFramed(ks);
    var r := StreamFrames(text, parse);
    if p.closed {
      if r[|r| - 1].Fail? {
        FailComesFromErrorLine(ks);
        var i :| 0 <= i < |ks| && ks[i].UpstreamError?;
        ClassifyAllAt(CompleteLines(text), parse, i);
        assert ClassifyLine(CompleteLines(text)[i], parse).UpstreamError?;
      }
    } else {
      var tail := TailFrames(CarryOver(text), parse);
      assert r == p.frames + tail + [Stop];
      assert forall i :: 0 <= i < |p.frames| ==> r[i] == p.frames[i];
      assert forall i :: |p.frames| <= i < |p.frames| + |tail| ==> r[i] == tail[i - |p.frames|];
    }
  }

  /** A run ends with an error record only because of an error line. */
  lemma {:induction false} FailComesFromErrorLine(kinds: seq<LineKind>)
    requires var r := Run(kinds); r.closed && |r.frames| >= 1 && r.frames[|r.frames| - 1].Fail?
    ensures exists i :: 0 <= i < |kinds| && kinds[i].UpstreamError?
  {
    if !kinds[0].UpstreamError? {
      assert !Closes(kinds[0]);
      assert Run(kinds).frames == LineFrames(kinds[0]) + Run(kinds[1..]).frames;
      FailComesFromErrorLine(kinds[1..]);
      var i :| 0 <= i < |kinds[1..]| && kinds[1..][i].UpstreamError?;
      assert kinds[i + 1] == kinds[1..][i];
    }
  }
}
