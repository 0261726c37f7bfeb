/**
 * `processMessages`: flattens the conversation turns of a chat-completion
 * request into the single prompt string the upstream accepts.
 */
module MessageNormalizer {
  import opened Wrappers
  import opened JsStrings

  /** One element of an array-valued `content`; `text` is `None` when the
      element is null or has no `text` property. */
  datatype ContentPart = ContentPart(text: Option<string>)

  /** A turn's `content`: missing (or null, or another falsy value), a
      string, or an array of parts. */
  datatype Content = Missing | Text(value: string) | Parts(items: seq<ContentPart>)

  /** One element of `messages`; `role` is `None` when absent. */
  datatype Turn = Turn(role: Option<string>, content: Content)

  const ValidRoles: set<string> := {"user", "assistant", "system"}

  /** `msg?.content` is truthy: a non-empty string, or any array (an empty
      array is truthy too). */
  predicate HasContent(c: Content)
  {
    (c.Text? && c.value != "") || c.Parts?
  }

  /** `item?.text ? acc + item.text : acc`: what one part adds. */
  function PartText(p: ContentPart): string
  {
    if p.text.Some? && p.text.value != "" then p.text.value else ""
  }

  /** `items.reduce(..., '')`: a left fold from the accumulator `acc`. */
  function ReduceParts(items: seq<ContentPart>, acc: string): (r: string)
    ensures r == acc + PartsText(items)
  {
    if items == [] then acc else ReduceParts(items[1..], acc + PartText(items[0]))
  }

  /** The text of a turn: the string itself, or the reduced array. */
  function ResolveContent(c: Content): string
  {
    match c
    case Missing => ""
    case Text(s) => s
    case Parts(items) => ReduceParts(items, "")
  }

  /** The upstream has no system role: `system` is sent as `user`. */
  function DisplayRole(role: string): string
  {
    if role == "system" then "user" else role
  }

  /** The line a turn contributes, if any. */
  function RenderTurn(m: Turn): (line: Option<string>)
    ensures line.Some? <==> Kept(m)
    ensures line.Some? ==> line.value == DisplayRole(m.role.value) + ": " + ResolveContent(m.content)
  {
    TrimEmptyIffBlank(ResolveContent(m.content));
    if HasContent(m.content) && m.role.Some? && m.role.value in ValidRoles then
      var content := ResolveContent(m.content);
      if Trim(content) != "" then Some(DisplayRole(m.role.value) + ": " + content) else None
    else None
  }

  /** The lines of all turns that contribute one, in input order. */
  function RenderedTurns(messages: seq<Turn>): (lines: seq<string>)
    ensures |lines| <= |messages|
  {
    if messages == [] then []
    else
      var line := RenderTurn(messages[|messages| - 1]);
      RenderedTurns(messages[..|messages| - 1]) + (if line.Some? then [line.value] else [])
  }

  /** `processMessages(messages)`: the lines pushed onto `results`, joined
      with newlines. */
  method ProcessMessages(messages: seq<Turn>) returns (prompt: string)
    ensures prompt == Join(RenderedTurns(messages), "\n")
  {
    var results: seq<string> := [];
    for i := 0 to |messages|
      invariant results == RenderedTurns(messages[..i])
    {
      var msg := messages[i];
      assert messages[..i + 1][..i] == messages[..i];
      if HasContent(msg.content) && msg.role.Some? && msg.role.value in ValidRoles {
        var content := ResolveContent(msg.content);
        if Trim(content) != "" {
          results := results + [DisplayRole(msg.role.value) + ": " + content];
        }
      }
    }
    assert messages[..|messages|] == messages;
    prompt := Join(results, "\n");
  }

  /** A turn is kept exactly when its role is one of user, assistant and
      system, its content is truthy, and its resolved text is not all
      whitespace. */
  ghost predicate Kept(m: Turn)
  {
    m.role.Some? && m.role.value in ValidRoles && HasContent(m.content) && !IsBlank(ResolveContent(m.content))
  }

  /** Each turn contributes one line when kept and none otherwise; the line is
      `<role>: <content>` with `system` shown as `user` and the content as is
      (not trimmed). */
  lemma OneTurn(m: Turn)
    ensures Kept(m) ==> RenderedTurns([m]) == [DisplayRole(m.role.value) + ": " + ResolveContent(m.content)]
    ensures !Kept(m) ==> RenderedTurns([m]) == []
  {
    TrimEmptyIffBlank(ResolveContent(m.content));
    assert [m][..0] == [];
  }

  /** The turns of two lists contribute in order: nothing is reordered. */
  lemma {:induction false} RenderedTurnsAppend(a: seq<Turn>, b: seq<Turn>)
    ensures RenderedTurns(a + b) == RenderedTurns(a) + RenderedTurns(b)
  {
    if b == [] {
      assert a + b == a;
    } else {
      var b' := b[..|b| - 1];
      RenderedTurnsAppend(a, b');
      assert (a + b)[..|a + b| - 1] == a + b';
      assert (a + b)[|a + b| - 1] == b[|b| - 1];
    }
  }

  /** A whitespace-only (or dropped) turn leaves the prompt as if it were not
      there. */
  lemma DroppedTurnIsInvisible(a: seq<Turn>, m: Turn, b: seq<Turn>)
    requires !Kept(m)
    ensures RenderedTurns(a + [m] + b) == RenderedTurns(a + b)
  {
    RenderedTurnsAppend(a + [m], b);
    RenderedTurnsAppend(a, [m]);
    RenderedTurnsAppend(a, b);
    OneTurn(m);
  }

  /** Every line of the prompt is spoken by `user` or `assistant`. */
  lemma {:induction false} LinesHaveUpstreamRoles(messages: seq<Turn>)
    ensures forall i :: 0 <= i < |RenderedTurns(messages)| ==>
      StartsWith(RenderedTurns(messages)[i], "user: ") || StartsWith(RenderedTurns(messages)[i], "assistant: ")
  {
    if messages != [] {
      LinesHaveUpstreamRoles(messages[..|messages| - 1]);
    }
  }

  /** Reference definition: the texts of the parts, one after the other. */
  function PartsText(items: seq<ContentPart>): string
  {
    if items == [] then "" else PartText(items[0]) + PartsText(items[1..])
  }

  /** The prompt is empty when no turn survives; otherwise, when no kept
      content has a newline of its own, splitting the prompt on newlines
      gives back exactly the surviving lines. */
  lemma PromptSplitsIntoTurns(messages: seq<Turn>)
    ensures RenderedTurns(messages) == [] ==> Join(RenderedTurns(messages), "\n") == ""
    ensures RenderedTurns(messages) != [] &&
            (forall i :: 0 <= i < |RenderedTurns(messages)| ==> '\n' !in RenderedTurns(messages)[i]) ==>
            Split(Join(RenderedTurns(messages), "\n"), '\n') == RenderedTurns(messages)
  {
    var lines := RenderedTurns(messages);
    if lines != [] && (forall i :: 0 <= i < |lines| ==> '\n' !in lines[i]) {
      SplitJoin(lines, '\n');
    }
  }
}
