/**
 * One chat turn: the request sent to the agent (the history followed by the new user
 * message), the retrieval configuration, and the fold over the agent's response stream
 * in which every text fragment overwrites the reply so far.
 */
module Chat {
  import opened Wrappers

  datatype Role = User | Assistant

  /** A message shown in the conversation; its timestamp is not modelled. */
  datatype Message = Message(id: string, role: Role, content: string)

  /** `{role, contents}`: one entry of the request passed to `agent.run`. */
  datatype AgentMessage = AgentMessage(role: Role, contents: string)

  /** The document polyfill returned by `getDocumentPolyfill(family)`, kept by the family it was asked for. */
  datatype Polyfill = DocumentPolyfill(family: string)

  /** `{ inference: { documentPolyfill } }`. */
  datatype InferenceConfig = InferenceConfig(documentPolyfill: Polyfill)

  /** One entry of a streamed message's `contents`: a text part or a part of some other type. */
  datatype Part = TextPart(text: string) | OtherPart(kind: string)

  /** A streamed message; `contents` may be absent. */
  datatype OutMessage = OutMessage(contents: Option<seq<Part>>)

  /** One value yielded by `agent.run`; `message` absent makes reading `resp.message.contents` throw. */
  datatype Response = Response(message: Option<OutMessage>)

  /**
   * What `agent.run` produces: the responses it yields, then either the end of the
   * stream (`failure == None`) or an error thrown after the last of them.
   */
  datatype Stream = Stream(responses: seq<Response>, failure: Option<string>)

  const PolyfillFamily: string := "Qwen3"

  /** The assistant message appended when anything in the turn throws. */
  const Fallback: string := "Sorry, I encountered an error while processing your request."

  // ---------------------------------------------------------------- request

  /** `r` is the history, mapped to `{role, contents}`, followed by the new user message. */
  predicate IsRequest(r: seq<AgentMessage>, history: seq<Message>, content: string) {
    |r| == |history| + 1
    && (forall i :: 0 <= i < |history| ==> r[i] == AgentMessage(history[i].role, history[i].content))
    && r[|history|] == AgentMessage(User, content)
  }

  /** The request for a turn, as a value. */
  function RequestFor(history: seq<Message>, content: string): (r: seq<AgentMessage>)
    ensures IsRequest(r, history, content)
    decreases |history|
  {
    if history == [] then [AgentMessage(User, content)]
    else
      var m := history[0];
      [AgentMessage(m.role, m.content)] + RequestFor(history[1..], content)
  }

  /** A request is determined by the history and the new message. */
  lemma RequestUnique(r: seq<AgentMessage>, history: seq<Message>, content: string)
    requires IsRequest(r, history, content)
    ensures r == RequestFor(history, content)
  {
    var q := RequestFor(history, content);
    assert |r| == |q|;
    forall i | 0 <= i < |r| ensures r[i] == q[i] {
      if i < |history| {
        assert r[i] == AgentMessage(history[i].role, history[i].content) == q[i];
      }
    }
  }

  /** The new user message is last and the earlier entries keep the history's order. */
  lemma RequestEndsWithUser(history: seq<Message>, content: string)
    ensures RequestFor(history, content)[|history|] == AgentMessage(User, content)
    ensures forall i :: 0 <= i < |history| ==>
      RequestFor(history, content)[i].role == history[i].role
      && RequestFor(history, content)[i].contents == history[i].content
  {
    assert IsRequest(RequestFor(history, content), history, content);
  }

  /** `messages.forEach(msg => push({role, contents}))`, then the new user message. */
  method BuildRequest(history: seq<Message>, content: string) returns (r: seq<AgentMessage>)
    ensures IsRequest(r, history, content)
  {
    r := [];
    for i := 0 to |history|
      invariant |r| == i
      invariant forall j :: 0 <= j < i ==> r[j] == AgentMessage(history[j].role, history[j].content)
    {
      r := r + [AgentMessage(history[i].role, history[i].content)];
    }
    r := r + [AgentMessage(User, content)];
  }

  /** The configuration of `agent.run`: present, with the Qwen3 polyfill, exactly when there is knowledge. */
  function ConfigFor(hasKnowledge: bool): (r: Option<InferenceConfig>)
    ensures r.Some? <==> hasKnowledge
    ensures r.Some? ==> r.value.documentPolyfill.family == PolyfillFamily
  {
    if hasKnowledge then Some(InferenceConfig(DocumentPolyfill(PolyfillFamily))) else None
  }

  // ---------------------------------------------------------------- stream

  /** `resp.message.contents?.[0]?.type === 'text'`: the text of a response whose first part is text. */
  function FirstText(m: OutMessage): (r: Option<string>)
    ensures r.Some? <==> m.contents.Some? && |m.contents.value| > 0 && m.contents.value[0].TextPart?
    ensures r.Some? ==> r.value == m.contents.value[0].text
  {
    match m.contents
    case None => None
    case Some(parts) => if |parts| > 0 && parts[0].TextPart? then Some(parts[0].text) else None
  }

  /** Whether a response carries text as its first part. */
  predicate HasText(resp: Response) {
    resp.message.Some? && FirstText(resp.message.value).Some?
  }

  /** The text of a response known to carry text first. */
  function TextOf(resp: Response): string
    requires HasText(resp)
  {
    FirstText(resp.message.value).value
  }

  /** The reply after folding `rs`: each text fragment replaces what came before. */
  function LatestText(rs: seq<Response>): (r: string)
    decreases |rs|
  {
    if rs == [] then ""
    else if HasText(rs[|rs| - 1]) then TextOf(rs[|rs| - 1])
    else LatestText(rs[..|rs| - 1])
  }

  /** No response of `rs` carries text first. */
  predicate NoText(rs: seq<Response>) {
    forall j :: 0 <= j < |rs| ==> !HasText(rs[j])
  }

  /** Response `j` is the last of `rs` that carries text first. */
  predicate LastTextAt(rs: seq<Response>, j: int) {
    0 <= j < |rs| && HasText(rs[j]) && forall i :: j < i < |rs| ==> !HasText(rs[i])
  }

  /**
   * The folded reply is the text of the last response that carries text, and the
   * empty string when none does.
   */
  lemma {:induction false} LatestTextIsLast(rs: seq<Response>)
    ensures NoText(rs) ==> LatestText(rs) == ""
    ensures forall j :: LastTextAt(rs, j) ==> LatestText(rs) == TextOf(rs[j])
    decreases |rs|
  {
    if rs != [] {
      var n := |rs| - 1;
      var front := rs[..n];
      LatestTextIsLast(front);
      if HasText(rs[n]) {
        forall j | LastTextAt(rs, j) ensures j == n {
        }
      } else {
        assert LatestText(rs) == LatestText(front);
        forall j | LastTextAt(rs, j) ensures LastTextAt(front, j) {
          LastTextInFront(rs, j);
        }
        if NoText(rs) {
          NoTextInFront(rs);
        }
      }
    }
  }

  /** When the last response carries no text, the last text is found among the earlier ones. */
  lemma LastTextInFront(rs: seq<Response>, j: int)
    requires rs != [] && !HasText(rs[|rs| - 1]) && LastTextAt(rs, j)
    ensures LastTextAt(rs[..|rs| - 1], j)
  {
    var front := rs[..|rs| - 1];
    assert j < |front|;
    assert forall i :: 0 <= i < |front| ==> front[i] == rs[i];
  }

  /** A stream without text has no text in its earlier responses either. */
  lemma NoTextInFront(rs: seq<Response>)
    requires rs != [] && NoText(rs)
    ensures NoText(rs[..|rs| - 1])
  {
    var front := rs[..|rs| - 1];
    assert forall i :: 0 <= i < |front| ==> front[i] == rs[i];
  }

  /** A later text fragment replaces the reply: fragments are never concatenated. */
  lemma LatestTextOverwrites(rs: seq<Response>, resp: Response)
    requires HasText(resp)
    ensures LatestText(rs + [resp]) == TextOf(resp)
  {
  }

  /** A response without leading text leaves the reply as it was. */
  lemma LatestTextSkips(rs: seq<Response>, resp: Response)
    requires !HasText(resp)
    ensures LatestText(rs + [resp]) == LatestText(rs)
  {
    assert (rs + [resp])[..|rs|] == rs;
  }

  /** Whether every response has a message, so reading `resp.message.contents` never throws. */
  predicate AllHaveMessages(rs: seq<Response>) {
    forall j :: 0 <= j < |rs| ==> rs[j].message.Some?
  }

  /** The reply a stream delivers, or `None` when the fold throws. */
  function Delivered(s: Stream): (r: Option<string>)
    ensures r.Some? <==> s.failure.None? && AllHaveMessages(s.responses)
  {
    if s.failure.None? && AllHaveMessages(s.responses) then Some(LatestText(s.responses)) else None
  }

  /** The content of the assistant message the turn appends. */
  function ReplyText(s: Stream): (r: string)
    ensures s.failure.Some? ==> r == Fallback
    ensures (exists j :: 0 <= j < |s.responses| && s.responses[j].message.None?) ==> r == Fallback
    ensures s.failure.None? && AllHaveMessages(s.responses) ==> r == LatestText(s.responses)
  {
    match Delivered(s)
    case Some(text) => text
    case None => Fallback
  }

  /**
   * `for await (const resp of stream) { if (text first) responseText = text }`: the
   * loop stops at the first response without a message, where the property access throws.
   */
  method FoldStream(s: Stream) returns (reply: Option<string>)
    ensures reply == Delivered(s)
  {
    var responseText := "";
    for i := 0 to |s.responses|
      invariant AllHaveMessages(s.responses[..i])
      invariant responseText == LatestText(s.responses[..i])
    {
      var resp := s.responses[i];
      assert s.responses[..i + 1] == s.responses[..i] + [resp];
      if resp.message.None? {
        assert !AllHaveMessages(s.responses);
        return None;
      }
      var text := FirstText(resp.message.value);
      if text.Some? {
        responseText := text.value;
        LatestTextOverwrites(s.responses[..i], resp);
      } else {
        LatestTextSkips(s.responses[..i], resp);
      }
    }
    assert s.responses[..|s.responses|] == s.responses;
    if s.failure.Some? {
      return None;
    }
    reply := Some(responseText);
  }

  /** Two fragments "Hel" and "Hello": the reply is "Hello", not "HelHello". */
  lemma LastFragmentExample()
    ensures ReplyText(Stream([Response(Some(OutMessage(Some([TextPart("Hel")])))),
                              Response(Some(OutMessage(Some([TextPart("Hello")]))))], None)) == "Hello"
  {
    var a := Response(Some(OutMessage(Some([TextPart("Hel")]))));
    var b := Response(Some(OutMessage(Some([TextPart("Hello")]))));
    LatestTextOverwrites([a], b);
    assert [a] + [b] == [a, b];
  }
}
