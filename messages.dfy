/** Chat messages as the Digest page receives them from its chat hook, and
    the two helpers that read them (app/page.tsx): the text to show and
    the search-tool calls in progress. */
module Messages {
  import opened Optional
  import opened JsText

  datatype Role = User | Assistant | System

  /** A tool call the model made; `args` are its named string arguments
      (the page only ever reads `searchQuery`). */
  datatype ToolInvocation = ToolInvocation(toolCallId: string, toolName: string, args: map<string, string>)

  /** One part of a message, tagged by its `type`: `"text"`,
      `"tool-invocation"`, or any other type, which both helpers skip. */
  datatype Part =
    | TextPart(text: string)
    | ToolInvocationPart(toolInvocation: ToolInvocation)
    | OtherPart

  /** A chat message. `content` is `None` when the message has no string
      content; `parts` and `toolInvocations` are `None` when the field is
      missing or not an array. */
  datatype Message = Message(
    role: Role,
    content: Option<string>,
    parts: Option<seq<Part>>,
    toolInvocations: Option<seq<ToolInvocation>>)

  /** The lifecycle states of the chat hook. */
  datatype ChatStatus = Submitted | Streaming | Ready | Error

  /** The message `append({role: 'user', content})` adds. */
  function UserMessage(content: string): Message {
    Message(User, Some(content), None, None)
  }

  /** `isLoading`: a request is in flight, so the form, the example and
      history buttons and the submit button are disabled. */
  function IsLoading(status: ChatStatus): (loading: bool)
    ensures !loading <==> status == Ready || status == Error
  {
    status == Streaming || status == Submitted
  }

  /** The texts of the text parts, in order (`filter` then `map`): a text
      is returned exactly when some text part carries it. */
  function TextsOf(ps: seq<Part>): (r: seq<string>)
    ensures |r| <= |ps|
    ensures forall t :: t in r <==> TextPart(t) in ps
  {
    if |ps| == 0 then []
    else
      var rest := TextsOf(ps[1..]);
      assert ps == [ps[0]] + ps[1..];
      (if ps[0].TextPart? then [ps[0].text] else []) + rest
  }

  /** The invocations carried by the tool-invocation parts, in order: an
      invocation is returned exactly when some tool-invocation part
      carries it. */
  function InvocationsOf(ps: seq<Part>): (r: seq<ToolInvocation>)
    ensures |r| <= |ps|
    ensures forall v :: v in r <==> ToolInvocationPart(v) in ps
  {
    if |ps| == 0 then []
    else
      var rest := InvocationsOf(ps[1..]);
      assert ps == [ps[0]] + ps[1..];
      (if ps[0].ToolInvocationPart? then [ps[0].toolInvocation] else []) + rest
  }

  /** The text parts' texts joined by newlines. */
  function PartsText(ps: seq<Part>): string {
    Join(TextsOf(ps), "\n")
  }

  /** `getMessageText`: a non-empty string content wins; otherwise the
      texts of the text parts joined by newlines; otherwise nothing. */
  function GetMessageText(m: Message): (r: string)
    ensures m.content.Some? && m.content.value != "" ==> r == m.content.value
    ensures (m.content.None? || m.content.value == "") && m.parts.None? ==> r == ""
    ensures (m.content.None? || m.content.value == "") && m.parts.Some? ==>
      r == PartsText(m.parts.value)
  {
    if m.content.Some? && m.content.value != "" then m.content.value
    else if m.parts.Some? then PartsText(m.parts.value)
    else ""
  }

  /** `getToolInvocations`: a `toolInvocations` array wins; otherwise the
      invocations of the tool-invocation parts; otherwise none. */
  function GetToolInvocations(m: Message): (r: seq<ToolInvocation>)
    ensures m.toolInvocations.Some? ==> r == m.toolInvocations.value
    ensures m.toolInvocations.None? && m.parts.None? ==> r == []
    ensures m.toolInvocations.None? && m.parts.Some? ==> r == InvocationsOf(m.parts.value)
  {
    if m.toolInvocations.Some? then m.toolInvocations.value
    else if m.parts.Some? then InvocationsOf(m.parts.value)
    else []
  }

  /** The text extractor distributes over a split of the parts list, so
      it keeps the parts' order. */
  lemma {:induction false} TextsAppend(ps: seq<Part>, qs: seq<Part>)
    ensures TextsOf(ps + qs) == TextsOf(ps) + TextsOf(qs)
  {
    if ps == [] {
      assert ps + qs == qs;
    } else {
      assert (ps + qs)[0] == ps[0];
      assert (ps + qs)[1..] == ps[1..] + qs;
      TextsAppend(ps[1..], qs);
    }
  }

  /** The tool-invocation extractor distributes over a split of the parts
      list, so it keeps the parts' order. */
  lemma {:induction false} InvocationsAppend(ps: seq<Part>, qs: seq<Part>)
    ensures InvocationsOf(ps + qs) == InvocationsOf(ps) + InvocationsOf(qs)
  {
    if ps == [] {
      assert ps + qs == qs;
    } else {
      assert (ps + qs)[0] == ps[0];
      assert (ps + qs)[1..] == ps[1..] + qs;
      InvocationsAppend(ps[1..], qs);
    }
  }

  /** Together the two extractors return at most one item per part. */
  lemma {:induction false} PartsReadOnce(ps: seq<Part>)
    ensures |TextsOf(ps)| + |InvocationsOf(ps)| <= |ps|
  {
    if ps != [] {
      PartsReadOnce(ps[1..]);
    }
  }

  /** A single part: a text part gives its text, a tool-invocation part its
      invocation, and any other part nothing; no parts give no text. */
  lemma ExtractOne(p: Part)
    ensures TextsOf([p]) == if p.TextPart? then [p.text] else []
    ensures InvocationsOf([p]) == if p.ToolInvocationPart? then [p.toolInvocation] else []
    ensures PartsText([]) == ""
  {
    assert [p][1..] == [];
  }

  /** The parts' text grows part by part: a further text part adds a
      newline and its text at the end, any other part adds nothing. */
  lemma PartsTextAppend(ps: seq<Part>, p: Part)
    ensures PartsText(ps + [p]) ==
      if !p.TextPart? then PartsText(ps)
      else if TextsOf(ps) == [] then p.text
      else PartsText(ps) + "\n" + p.text
  {
    TextsAppend(ps, [p]);
    if p.TextPart? {
      assert TextsOf([p]) == [p.text];
      JoinSnoc(TextsOf(ps), p.text, "\n");
    } else {
      assert TextsOf([p]) == [];
      assert TextsOf(ps + [p]) == TextsOf(ps);
    }
  }

  /** A message whose parts hold no text part and no string content shows
      no text at all. */
  lemma MessageTextWithoutTextParts(m: Message)
    requires m.content.None? || m.content.value == ""
    requires m.parts.Some? && forall i :: 0 <= i < |m.parts.value| ==> !m.parts.value[i].TextPart?
    ensures GetMessageText(m) == ""
  {
    NoTextParts(m.parts.value);
  }

  lemma {:induction false} NoTextParts(ps: seq<Part>)
    requires forall i :: 0 <= i < |ps| ==> !ps[i].TextPart?
    ensures TextsOf(ps) == []
  {
    if ps != [] {
      NoTextParts(ps[1..]);
    }
  }

  /** A message added by the page shows exactly the content it was sent
      with, as long as that is not empty. */
  lemma UserMessageText(content: string)
    requires content != ""
    ensures GetMessageText(UserMessage(content)) == content
    ensures GetToolInvocations(UserMessage(content)) == []
  {
  }
}
