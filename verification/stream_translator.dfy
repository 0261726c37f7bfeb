/**
 * The streaming branch of `handleResponse`: the upstream body arrives as a
 * sequence of decoded chunks; a carry-over `partialLine` holds the text after
 * the last newline seen, and every complete line is translated into records
 * that are appended to the output queue as soon as the line is complete.
 */
module StreamTranslator {
  import opened Wrappers
  import opened JsStrings
  import opened Formatting
  import opened UpstreamLines

  /** The whole upstream text: the chunks one after the other. */
  function Concat(chunks: seq<string>): string
  {
    if chunks == [] then "" else chunks[0] + Concat(chunks[1..])
  }

  /** The streaming loop. Whatever the cut of the upstream text into chunks,
      the records enqueued are those of the concatenated text: the output
      depends only on `Concat(chunks)`. */
  method TranslateStream(chunks: seq<string>, parse: string -> Payload) returns (out: seq<Frame>)
    ensures out == StreamFrames(Concat(chunks), parse)
  {
    ghost var text := Concat(chunks);
    // the complete lines handled so far
    ghost var consumed: seq<string> := [];
    var partialLine := "";
    out := [];
    assert partialLine + Concat(chunks[0..]) == text;
    assert ClassifyAll(consumed, parse) == [];
    var i := 0;
    while i < |chunks|
      invariant 0 <= i <= |chunks|
      invariant '\n' !in partialLine
      invariant Split(text, '\n') == consumed + Split(partialLine + Concat(chunks[i..]), '\n')
      invariant ProcessLines(consumed, parse) == Progress(out, false)
    {
      ghost var rest := Concat(chunks[i + 1..]);
      assert chunks[i..][1..] == chunks[i + 1..];
      assert partialLine + Concat(chunks[i..]) == (partialLine + chunks[i]) + rest;
      partialLine := partialLine + chunks[i];
      var lines := Split(partialLine, '\n');
      var complete := AllButLast(lines);
      var frames, closed := TranslateLines(complete, parse);
      ChunkStep(text, consumed, partialLine, rest, out, frames, closed, parse);
      consumed := consumed + complete;
      out := out + frames;
      if closed {
        return;
      }
      SplitPartsAreSeparatorFree(partialLine, '\n');
      partialLine := lines[|lines| - 1];
      i := i + 1;
    }
    // end of input: the carry-over is the last, unterminated segment
    assert partialLine + Concat(chunks[i..]) == partialLine;
    SplitNoSeparator(partialLine, '\n');
    var tail := TranslateTail(partialLine, parse);
    out := out + tail + [Stop];
  }

  /** What remains in `partialLine` at end of input: one more delta when it
      is a `data:` line, other than `[DONE]`, whose payload has a message.
      An error object here is not recognised. */
  method TranslateTail(partialLine: string, parse: string -> Payload) returns (frames: seq<Frame>)
    ensures frames == TailFrames(partialLine, parse)
  {
    frames := [];
    if partialLine != "" && StartsWith(partialLine, DataPrefix) {
      var content := PayloadText(partialLine);
      if content != DoneSentinel {
        var data := parse(content);
        if HasMessage(data) {
          frames := [Delta(data.message.value)];
        }
      }
    }
  }

  /** The loop over the complete lines of one read: records are enqueued line
      by line, and the loop stops at the first line that closes the stream. */
  method TranslateLines(lines: seq<string>, parse: string -> Payload) returns (frames: seq<Frame>, closed: bool)
    ensures Progress(frames, closed) == ProcessLines(lines, parse)
  {
    frames, closed := [], false;
    assert ClassifyAll(lines[..0], parse) == [];
    var j := 0;
    while j < |lines|
      invariant 0 <= j <= |lines|
      invariant ProcessLines(lines[..j], parse) == Progress(frames, false)
    {
      var line := lines[j];
      LineStep(lines[..j], line, parse);
      assert lines[..j + 1] == lines[..j] + [line];
      var lineFrames, lineCloses := TranslateLine(line, parse);
      frames := frames + lineFrames;
      if lineCloses {
        ProcessLinesAppend(lines[..j + 1], lines[j + 1..], parse);
        assert lines[..j + 1] + lines[j + 1..] == lines;
        closed := true;
        return;
      }
      j := j + 1;
    }
    assert lines[..j] == lines;
  }

  /** The body of the loop over complete lines: the records for one line,
      and whether the line closes the stream (`[DONE]` or an error object). */
  method TranslateLine(line: string, parse: string -> Payload) returns (frames: seq<Frame>, closed: bool)
    ensures frames == LineFrames(ClassifyLine(line, parse))
    ensures closed == Closes(ClassifyLine(line, parse))
  {
    frames, closed := [], false;
    if StartsWith(line, DataPrefix) {
      DataLineIsNotBlank(line);
    }
    if Trim(line) == "" || !StartsWith(line, DataPrefix) {
      return;
    }
    var content := PayloadText(line);
    if content == DoneSentinel {
      frames, closed := [Stop], true;
      return;
    }
    var data := parse(content);
    if data.Object? && data.action == Some(ErrorAction) {
      frames, closed := [Fail(DuckError(data.status, data.errorType))], true;
      return;
    }
    if HasMessage(data) {
      frames := [Delta(data.message.value)];
    }
  }

  /** Handling one more complete line while the stream is open. */
  lemma LineStep(consumed: seq<string>, line: string, parse: string -> Payload)
    requires !ProcessLines(consumed, parse).closed
    ensures ProcessLines(consumed + [line], parse) ==
      Progress(ProcessLines(consumed, parse).frames + LineFrames(ClassifyLine(line, parse)),
               Closes(ClassifyLine(line, parse)))
  {
    ProcessLinesAppend(consumed, [line], parse);
    ProcessOneLine(line, parse);
  }

  /** One read: the complete lines of the grown carry-over are handled; the
      text after them is the new carry-over followed by the chunks not yet
      read. */
  lemma ChunkStep(text: string, consumed: seq<string>, pending: string, rest: string,
                  out: seq<Frame>, frames: seq<Frame>, closed: bool, parse: string -> Payload)
    requires Split(text, '\n') == consumed + Split(pending + rest, '\n')
    requires ProcessLines(consumed, parse) == Progress(out, false)
    requires Progress(frames, closed) == ProcessLines(AllButLast(Split(pending, '\n')), parse)
    ensures var lines := Split(pending, '\n');
      Split(text, '\n') == consumed + AllButLast(lines) + Split(Last(lines) + rest, '\n')
    ensures ProcessLines(consumed + AllButLast(Split(pending, '\n')), parse) == Progress(out + frames, closed)
    ensures closed ==> StreamFrames(text, parse) == out + frames
  {
    var lines := Split(pending, '\n');
    var later := Split(Last(lines) + rest, '\n');
    var handled := consumed + AllButLast(lines);
    ChunkLines(text, consumed, pending, rest);
    assert Split(text, '\n') == handled + later;
    ProcessLinesAppend(consumed, AllButLast(lines), parse);
    if closed {
      ClosedRunDecides(text, handled, later, parse);
    }
  }

  /** The lines of the whole text, seen after one more read. */
  lemma ChunkLines(text: string, consumed: seq<string>, pending: string, rest: string)
    requires Split(text, '\n') == consumed + Split(pending + rest, '\n')
    ensures var lines := Split(pending, '\n');
      Split(text, '\n') == consumed + AllButLast(lines) + Split(Last(lines) + rest, '\n')
  {
    var lines := Split(pending, '\n');
    SplitAppend(pending, rest, '\n');
    assert consumed + (AllButLast(lines) + Split(Last(lines) + rest, '\n'))
        == consumed + AllButLast(lines) + Split(Last(lines) + rest, '\n');
  }

  /** Once the lines handled so far have closed the stream, the rest of the
      text no longer matters. */
  lemma ClosedRunDecides(text: string, consumed: seq<string>, more: seq<string>, parse: string -> Payload)
    requires Split(text, '\n') == consumed + more && |more| >= 1
    requires ProcessLines(consumed, parse).closed
    ensures StreamFrames(text, parse) == ProcessLines(consumed, parse).frames
  {
    assert CompleteLines(text) == consumed + more[..|more| - 1];
    ProcessLinesAppend(consumed, more[..|more| - 1], parse);
  }

  /** What is enqueued for one record: a `chat.completion.chunk` built by
      `formatStreamingChunk` for a delta or the terminal chunk, or the error
      body itself. */
  datatype Record = ChunkRecord(chunk: ChatCompletionChunk) | ErrorRecord(error: ErrorResponse)

  function RenderFrame(f: Frame, modelName: Option<string>, idSuffix: string, created: int): (r: Record)
    ensures r.ChunkRecord? <==> !f.Fail?
    ensures f.Stop? ==> r.chunk.delta == None && r.chunk.finishReason == Some(StopReason)
    ensures f.Delta? ==> r.chunk.delta == Some(f.text) && r.chunk.finishReason == None
    ensures r.ChunkRecord? ==> r.chunk.objectType == "chat.completion.chunk" && r.chunk.model == modelName
    ensures f.Fail? ==> r.error == f.error
  {
    match f
    case Delta(text) => ChunkRecord(FormatStreamingChunk(text, false, modelName, idSuffix, created))
    case Stop => ChunkRecord(FormatStreamingChunk("", true, modelName, idSuffix, created))
    case Fail(error) => ErrorRecord(error)
  }

  /** A line cut across two reads is decoded once: the chunks
      `data: {"mess` and `age":"ok"}` + two newlines give one delta "ok"
      followed by the terminal chunk. */
  lemma SplitLineExample(parse: string -> Payload)
    requires parse("{\"message\":\"ok\"}") == Object(None, None, None, Some("ok"))
    ensures StreamFrames(Concat(["data: {\"mess", "age\":\"ok\"}\n\n"]), parse) == [Delta("ok"), Stop]
  {
    var line := "data: {\"message\":\"ok\"}";
    var text := Concat(["data: {\"mess", "age\":\"ok\"}\n\n"]);
    ExampleLines(line, text);
    ExampleLineIsFragment(line, parse);
    assert ClassifyLine("", parse) == Ignored;
    ProcessOneLine(line, parse);
    ProcessOneLine("", parse);
    ProcessLinesAppend([line], [""], parse);
    var p := ProcessLines(CompleteLines(text), parse);
    assert p == Progress([Delta("ok")] + [], false);
    assert TailFrames("", parse) == [];
    assert StreamFrames(text, parse) == p.frames + [] + [Stop];
  }

  lemma ExampleLineIsFragment(line: string, parse: string -> Payload)
    requires line == "data: {\"message\":\"ok\"}"
    requires parse("{\"message\":\"ok\"}") == Object(None, None, None, Some("ok"))
    ensures ClassifyLine(line, parse) == Fragment("ok")
  {
    assert StartsWith(line, DataPrefix) && PayloadText(line) == "{\"message\":\"ok\"}";
  }

  lemma ExampleLines(line: string, text: string)
    requires line == "data: {\"message\":\"ok\"}"
    requires text == Concat(["data: {\"mess", "age\":\"ok\"}\n\n"])
    ensures CompleteLines(text) == [line, ""] && CarryOver(text) == ""
  {
    assert Concat(["age\":\"ok\"}\n\n"]) == "age\":\"ok\"}\n\n";
    assert text == line + "\n\n";
    assert '\n' !in line;
    BlankLineAfter(line);
  }

  /** A line followed by an empty line: two complete lines, nothing carried. */
  lemma BlankLineAfter(line: string)
    requires '\n' !in line
    ensures CompleteLines(line + "\n\n") == [line, ""] && CarryOver(line + "\n\n") == ""
  {
    assert line + "\n\n" == line + ['\n'] + ("" + ['\n'] + "");
    SplitAtSeparator(line, '\n', "" + ['\n'] + "");
    SplitAtSeparator("", '\n', "");
    SplitNoSeparator(line, '\n');
    assert Split(line + "\n\n", '\n') == [line, "", ""];
  }
}
