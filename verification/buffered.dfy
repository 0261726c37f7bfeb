/**
 * The buffered (non-streaming) branch of `handleResponse`: the whole upstream
 * text is read, split into lines, each line mapped to its message (or ""),
 * the empty ones filtered out and the rest joined without separator. Unlike
 * the streaming branch it does not stop at `[DONE]` and does not treat error
 * objects specially.
 */
module BufferedTranslator {
  import opened Wrappers
  import opened JsStrings
  import opened Formatting
  import opened UpstreamLines

  /** The `.map` callback: the `message` of a `data:` line, "" for anything
      else (blank, no prefix, `[DONE]`, unparsable, no or falsy message). */
  function LineMessage(line: string, parse: string -> Payload): (m: string)
    ensures m != "" ==> StartsWith(line, DataPrefix) && PayloadText(line) != DoneSentinel
  {
    if Trim(line) == "" || !StartsWith(line, DataPrefix) then ""
    else
      var json := PayloadText(line);
      if json == DoneSentinel then ""
      else
        match parse(json)
        case Unparsable => ""
        case Object(_, _, _, message) => message.GetOr("")
  }

  /** `lines.map(...)`. */
  function MapMessages(lines: seq<string>, parse: string -> Payload): (ms: seq<string>)
    ensures |ms| == |lines|
  {
    if lines == [] then [] else [LineMessage(lines[0], parse)] + MapMessages(lines[1..], parse)
  }

  /** `.filter(message => message)`: keeps the non-empty strings in order. */
  function KeepNonEmpty(ms: seq<string>): (kept: seq<string>)
    ensures forall i :: 0 <= i < |kept| ==> kept[i] != ""
    ensures |kept| <= |ms|
    ensures Concatenation(kept) == Concatenation(ms)
  {
    if ms == [] then []
    else if ms[0] != "" then [ms[0]] + KeepNonEmpty(ms[1..])
    else KeepNonEmpty(ms[1..])
  }

  /** The aggregate message of the upstream text (`assistantMessages`). */
  function Aggregate(responseText: string, parse: string -> Payload): (r: string)
    ensures r == Messages(Split(responseText, '\n'), parse)
  {
    FilterJoinIsConcatenation(MapMessages(Split(responseText, '\n'), parse));
    Join(KeepNonEmpty(MapMessages(Split(responseText, '\n'), parse)), "")
  }

  /** The buffered response: the aggregate, or the raw upstream text when the
      aggregate is empty. */
  function BufferedResponse(responseText: string, parse: string -> Payload, modelName: Option<string>,
                            idSuffix: string, created: int): (r: ChatCompletion)
    ensures r.role == "assistant" && r.finishReason == StopReason && r.model == modelName
    ensures Aggregate(responseText, parse) != "" ==> r.content == Aggregate(responseText, parse)
    ensures Aggregate(responseText, parse) == "" ==> r.content == responseText
  {
    var assistantMessages := Aggregate(responseText, parse);
    FormatOpenAIResponse(if assistantMessages != "" then assistantMessages else responseText,
                         modelName, idSuffix, created)
  }

  /** Reference definition: strings one after the other. */
  function Concatenation(ms: seq<string>): string
  {
    if ms == [] then "" else ms[0] + Concatenation(ms[1..])
  }

  /** The messages of all lines, one after the other. */
  function Messages(lines: seq<string>, parse: string -> Payload): string
  {
    Concatenation(MapMessages(lines, parse))
  }

  /** filter-then-join is plain in-order concatenation: the filter drops only
      strings that would add nothing. */
  lemma {:induction false} FilterJoinIsConcatenation(ms: seq<string>)
    ensures Join(KeepNonEmpty(ms), "") == Concatenation(ms)
  {
    if ms != [] {
      FilterJoinIsConcatenation(ms[1..]);
      if ms[0] != "" {
        JoinEmptyCons(ms[0], KeepNonEmpty(ms[1..]));
      }
    }
  }

  lemma JoinEmptyCons(m: string, ms: seq<string>)
    ensures Join([m] + ms, "") == m + Join(ms, "")
  {
    if ms != [] {
      assert ([m] + ms)[1..] == ms;
    }
  }

  lemma {:induction false} ConcatenationAppend(a: seq<string>, b: seq<string>)
    ensures Concatenation(a + b) == Concatenation(a) + Concatenation(b)
  {
    if a == [] {
      assert a + b == b;
    } else {
      assert (a + b)[0] == a[0];
      assert (a + b)[1..] == a[1..] + b;
      ConcatenationAppend(a[1..], b);
    }
  }

  lemma {:induction false} MapMessagesAppend(a: seq<string>, b: seq<string>, parse: string -> Payload)
    ensures MapMessages(a + b, parse) == MapMessages(a, parse) + MapMessages(b, parse)
  {
    if a == [] {
      assert a + b == b;
    } else {
      assert (a + b)[0] == a[0];
      assert (a + b)[1..] == a[1..] + b;
      MapMessagesAppend(a[1..], b, parse);
    }
  }

  lemma MessagesAppend(a: seq<string>, b: seq<string>, parse: string -> Payload)
    ensures Messages(a + b, parse) == Messages(a, parse) + Messages(b, parse)
  {
    MapMessagesAppend(a, b, parse);
    ConcatenationAppend(MapMessages(a, parse), MapMessages(b, parse));
  }

  lemma OneLineMessages(line: string, parse: string -> Payload)
    ensures Messages([line], parse) == LineMessage(line, parse)
  {
    assert [line][1..] == [];
    var ms := MapMessages([line], parse);
    assert ms == [LineMessage(line, parse)];
    assert ms[1..] == [];
    assert Concatenation(ms) == ms[0] + Concatenation([]);
    assert LineMessage(line, parse) + "" == LineMessage(line, parse);
  }

  /** `[DONE]` contributes nothing and does not end the aggregation: the lines
      after it are still collected. */
  lemma SentinelDoesNotStopAggregation(a: seq<string>, line: string, b: seq<string>, parse: string -> Payload)
    requires StartsWith(line, DataPrefix) && PayloadText(line) == DoneSentinel
    ensures Messages(a + [line] + b, parse) == Messages(a, parse) + Messages(b, parse)
  {
    MessagesAppend(a + [line], b, parse);
    MessagesAppend(a, [line], parse);
    OneLineMessages(line, parse);
  }

  /** An error object is not special here: its `message`, if any, is
      collected like any other, and the lines after it are collected too. */
  lemma ErrorObjectDoesNotStopAggregation(a: seq<string>, line: string, b: seq<string>, parse: string -> Payload)
    requires StartsWith(line, DataPrefix) && PayloadText(line) != DoneSentinel
    requires parse(PayloadText(line)).Object? && parse(PayloadText(line)).action == Some(ErrorAction)
    ensures Messages(a + [line] + b, parse) ==
      Messages(a, parse) + parse(PayloadText(line)).message.GetOr("") + Messages(b, parse)
  {
    DataLineIsNotBlank(line);
    MessagesAppend(a + [line], b, parse);
    MessagesAppend(a, [line], parse);
    OneLineMessages(line, parse);
  }

  /** The aggregate of a text is the concatenation of the messages of all its
      lines, the unterminated last one included. */
  lemma AggregateOfText(text: string, parse: string -> Payload)
    ensures Aggregate(text, parse) == Messages(CompleteLines(text), parse) + LineMessage(CarryOver(text), parse)
  {
    LinesOfText(text);
    MessagesAppend(CompleteLines(text), [CarryOver(text)], parse);
    OneLineMessages(CarryOver(text), parse);
  }

  /** The text carried by the content deltas of a run of records. */
  function DeltaText(frames: seq<Frame>): string
  {
    if frames == [] then ""
    else (if frames[0].Delta? then frames[0].text else "") + DeltaText(frames[1..])
  }

  lemma {:induction false} DeltaTextAppend(a: seq<Frame>, b: seq<Frame>)
    ensures DeltaText(a + b) == DeltaText(a) + DeltaText(b)
  {
    if a == [] {
      assert a + b == b;
    } else {
      assert (a + b)[0] == a[0];
      assert (a + b)[1..] == a[1..] + b;
      DeltaTextAppend(a[1..], b);
    }
  }

  /** On a line that does not close the stream, the streaming record carries
      exactly the message the buffered branch collects. */
  lemma LineAgrees(line: string, parse: string -> Payload)
    requires !Closes(ClassifyLine(line, parse))
    ensures DeltaText(LineFrames(ClassifyLine(line, parse))) == LineMessage(line, parse)
  {
    if StartsWith(line, DataPrefix) {
      DataLineIsNotBlank(line);
    }
  }

  /** The carry-over is treated alike by both branches. */
  lemma CarryOverAgrees(partialLine: string, parse: string -> Payload)
    ensures DeltaText(TailFrames(partialLine, parse)) == LineMessage(partialLine, parse)
  {
    if StartsWith(partialLine, DataPrefix) {
      DataLineIsNotBlank(partialLine);
    }
  }

  lemma {:induction false} LinesAgree(lines: seq<string>, parse: string -> Payload)
    requires forall i :: 0 <= i < |lines| ==> !Closes(ClassifyLine(lines[i], parse))
    ensures !ProcessLines(lines, parse).closed
    ensures DeltaText(ProcessLines(lines, parse).frames) == Messages(lines, parse)
  {
    if lines == [] {
      assert ClassifyAll(lines, parse) == [];
      assert MapMessages(lines, parse) == [];
    } else {
      assert [lines[0]] + lines[1..] == lines;
      ProcessLinesAppend([lines[0]], lines[1..], parse);
      ProcessOneLine(lines[0], parse);
      LineAgrees(lines[0], parse);
      LinesAgree(lines[1..], parse);
      MessagesAppend([lines[0]], lines[1..], parse);
      OneLineMessages(lines[0], parse);
      DeltaTextAppend(LineFrames(ClassifyLine(lines[0], parse)), ProcessLines(lines[1..], parse).frames);
    }
  }

  /** When no complete line is `[DONE]` or an error object, the streaming
      branch delivers, as content deltas, exactly the text the buffered branch
      aggregates, and then ends with the terminal chunk. */
  lemma BranchesAgree(text: string, parse: string -> Payload)
    requires forall i :: 0 <= i < |CompleteLines(text)| ==> !Closes(ClassifyLine(CompleteLines(text)[i], parse))
    ensures DeltaText(StreamFrames(text, parse)) == Aggregate(text, parse)
    ensures |StreamFrames(text, parse)| >= 1 && StreamFrames(text, parse)[|StreamFrames(text, parse)| - 1] == Stop
  {
    var p := ProcessLines(CompleteLines(text), parse);
    LinesAgree(CompleteLines(text), parse);
    var tail := TailFrames(CarryOver(text), parse);
    assert StreamFrames(text, parse) == p.frames + tail + [Stop];
    DeltaTextAppend(p.frames + tail, [Stop]);
    DeltaTextAppend(p.frames, tail);
    CarryOverAgrees(CarryOver(text), parse);
    AggregateOfText(text, parse);
    assert DeltaText([Stop]) == "";
  }
}
