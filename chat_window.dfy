/** The chat window's message state: the list of messages, the `loading` flag
    and the input box. Sending appends the user's question and an empty
    assistant message; the stream's callbacks then fold metadata, answer
    fragments, completion and failure into the last message. React's state
    setters become field updates applied in callback order. */
module ChatWindow {
  import opened Text
  import opened StreamDecoder
  import QueryApi
  import PromptBuilder
  import StreamRoundTrip

  datatype Role = User | Assistant

  /** A message; the four optional members are set by the metadata callback. */
  datatype Message = Message(role: Role, content: string,
                             contexts: Option<seq<string>>, retrieval: Option<seq<QueryApi.RetrievalHit>>,
                             useRerank: Option<bool>, prompt: Option<string>)

  const ErrorPrefix: string := "查询失败: "

  function Plain(role: Role, content: string): Message
  {
    Message(role, content, None, None, None, None)
  }

  // ---------------------------------------------------------------------
  // The list updaters passed to setMessages: copy the list, replace the last
  // element. On an empty list there is no last element to replace.
  // ---------------------------------------------------------------------

  /** onMetadata: the last message takes the four metadata members. */
  function WithMetadata(ms: seq<Message>, retrieval: seq<QueryApi.RetrievalHit>, contexts: seq<string>,
                        useRerank: bool, prompt: string): (r: seq<Message>)
    ensures |r| == |ms|
    ensures ms != [] ==> r[..|ms| - 1] == ms[..|ms| - 1]
    ensures ms != [] ==> r[|r| - 1].role == ms[|ms| - 1].role && r[|r| - 1].content == ms[|ms| - 1].content
    ensures ms != [] ==> r[|r| - 1].retrieval == Some(retrieval) && r[|r| - 1].contexts == Some(contexts)
                         && r[|r| - 1].useRerank == Some(useRerank) && r[|r| - 1].prompt == Some(prompt)
  {
    if ms == [] then ms
    else
      var last := ms[|ms| - 1];
      ms[..|ms| - 1] + [last.(retrieval := Some(retrieval), contexts := Some(contexts),
                              useRerank := Some(useRerank), prompt := Some(prompt))]
  }

  /** onDelta: the fragment is appended to the last message's content. */
  function WithDelta(ms: seq<Message>, fragment: string): (r: seq<Message>)
    ensures |r| == |ms|
    ensures ms != [] ==> r[..|ms| - 1] == ms[..|ms| - 1]
    ensures ms != [] ==> r[|r| - 1] == ms[|ms| - 1].(content := ms[|ms| - 1].content + fragment)
  {
    if ms == [] then ms
    else ms[..|ms| - 1] + [ms[|ms| - 1].(content := ms[|ms| - 1].content + fragment)]
  }

  /** onError: the last message's content is replaced by the failure text. */
  function WithError(ms: seq<Message>, message: string): (r: seq<Message>)
    ensures |r| == |ms|
    ensures ms != [] ==> r[..|ms| - 1] == ms[..|ms| - 1]
    ensures ms != [] ==> r[|r| - 1] == ms[|ms| - 1].(content := ErrorPrefix + message)
  {
    if ms == [] then ms
    else ms[..|ms| - 1] + [ms[|ms| - 1].(content := ErrorPrefix + message)]
  }

  /** onMetadata on a payload without the four members: the spread copies
      `undefined` into each of them, so the last message no longer has any. */
  function WithoutMetadata(ms: seq<Message>): (r: seq<Message>)
    ensures |r| == |ms|
    ensures ms != [] ==> r[..|ms| - 1] == ms[..|ms| - 1]
    ensures ms != [] ==> r[|r| - 1] == Plain(ms[|ms| - 1].role, ms[|ms| - 1].content)
  {
    if ms == [] then ms
    else ms[..|ms| - 1] + [Plain(ms[|ms| - 1].role, ms[|ms| - 1].content)]
  }

  /** What onMetadata makes of the payload it is handed: the metadata payload's
      four members, or none of them for a delta's payload. */
  function MetadataApplied(ms: seq<Message>, p: QueryApi.Payload): seq<Message>
  {
    match p
    case MetadataPayload(retrieval, contexts, useRerank, prompt) => WithMetadata(ms, retrieval, contexts, useRerank, prompt)
    case DeltaPayload(_) => WithoutMetadata(ms)
  }

  /** The `content` member the decoder reads from a delta's payload. A metadata
      payload has none: the read gives `undefined`, which string concatenation
      turns into the text `undefined`. */
  function ContentOf(p: QueryApi.Payload): string
  {
    match p
    case DeltaPayload(content) => content
    case MetadataPayload(_, _, _, _) => "undefined"
  }

  /** The typing indicator: loading, and the last message still has no text. */
  predicate ShowsThinking(ms: seq<Message>, loading: bool)
  {
    loading && |ms| > 0 && ms[|ms| - 1].content == ""
  }

  // ---------------------------------------------------------------------
  // The callbacks as a fold over the decoded stream
  // ---------------------------------------------------------------------

  datatype ChatState = ChatState(messages: seq<Message>, loading: bool)

  /** One callback. The metadata handler copies the four members of whatever
      payload it is handed, and the decoder hands the delta handler the payload's
      `content` member, so a payload of the other shape is not ignored. */
  function Apply(s: ChatState, cb: Callback<QueryApi.Payload>): ChatState
  {
    match cb
    case OnMetadata(p) => s.(messages := MetadataApplied(s.messages, p))
    case OnDelta(p) => s.(messages := WithDelta(s.messages, ContentOf(p)))
    case OnDone => s.(loading := false)
    case OnError(f) => ChatState(WithError(s.messages, f.message), false)
  }

  function Fold(s: ChatState, cbs: seq<Callback<QueryApi.Payload>>): ChatState
    decreases |cbs|
  {
    if cbs == [] then s else Fold(Apply(s, cbs[0]), cbs[1..])
  }

  /** The two messages a send appends. */
  function Exchange(question: string): seq<Message>
  {
    [Plain(User, question), Plain(Assistant, "")]
  }

  class ChatWindow {
    var messages: seq<Message>
    var input: string
    var loading: bool

    constructor()
      ensures messages == [] && input == "" && !loading
    {
      messages := [];
      input := "";
      loading := false;
    }

    method OnMetadata(data: QueryApi.Payload)
      modifies this
      ensures messages == MetadataApplied(old(messages), data)
      ensures loading == old(loading) && input == old(input)
    {
      match data {
        case MetadataPayload(retrieval, contexts, useRerank, prompt) =>
          messages := WithMetadata(messages, retrieval, contexts, useRerank, prompt);
        case DeltaPayload(_) =>
          messages := WithoutMetadata(messages);
      }
    }

    method OnDelta(fragment: string)
      modifies this
      ensures messages == WithDelta(old(messages), fragment)
      ensures loading == old(loading) && input == old(input)
    {
      messages := WithDelta(messages, fragment);
    }

    method OnDone()
      modifies this
      ensures messages == old(messages) && !loading && input == old(input)
    {
      loading := false;
    }

    method OnError(error: Failure)
      modifies this
      ensures messages == WithError(old(messages), error.message)
      ensures !loading && input == old(input)
    {
      messages := WithError(messages, error.message);
      loading := false;
    }

    /** `handleSend`: nothing happens for a blank input or while loading; otherwise
        the question and an empty answer are appended, the input is cleared, and the
        callbacks of the stream `respond` yields for the question are applied in order. */
    method HandleSend(respond: string -> seq<Callback<QueryApi.Payload>>)
      modifies this
      ensures var question := Strip(old(input), JsIsSpace);
        if question == [] || old(loading) then
          messages == old(messages) && loading == old(loading) && input == old(input)
        else
          input == "" && ChatState(messages, loading)
            == Fold(ChatState(old(messages) + Exchange(question), true), respond(question))
    {
      var question := Strip(input, JsIsSpace);
      if question == [] || loading {
        return;
      }
      Submit(question);
      Consume(respond(question));
    }

    /** The synchronous half of a send: the question and an empty answer are
        appended, the input is cleared and the window starts loading. */
    method Submit(question: string)
      modifies this
      ensures messages == old(messages) + Exchange(question)
      ensures input == "" && loading
    {
      messages := messages + [Plain(User, question)];
      input := "";
      loading := true;
      messages := messages + [Plain(Assistant, "")];
      AppendedExchange(old(messages), question);
    }

    /** The awaited stream: its callbacks run one after another, in order. */
    method Consume(trace: seq<Callback<QueryApi.Payload>>)
      modifies this
      ensures ChatState(messages, loading) == Fold(old(ChatState(messages, loading)), trace)
      ensures input == old(input)
    {
      var i := 0;
      while i < |trace|
        invariant 0 <= i <= |trace|
        invariant input == old(input)
        invariant Fold(ChatState(messages, loading), trace[i..]) == Fold(old(ChatState(messages, loading)), trace)
      {
        ghost var before := ChatState(messages, loading);
        FoldStep(before, trace, i);
        Deliver(trace[i]);
        i := i + 1;
      }
      FoldDone(ChatState(messages, loading), trace, i);
    }

    /** The callback object handed to the stream: each event goes to its handler,
        the delta handler being given the payload's `content` member. */
    method Deliver(cb: Callback<QueryApi.Payload>)
      modifies this
      ensures ChatState(messages, loading) == Apply(old(ChatState(messages, loading)), cb)
      ensures input == old(input)
    {
      match cb {
        case OnMetadata(p) => OnMetadata(p);
        case OnDelta(p) => OnDelta(ContentOf(p));
        case OnDone => OnDone();
        case OnError(f) => OnError(f);
      }
    }
  }

  lemma AppendedExchange(messages: seq<Message>, question: string)
    ensures messages + [Plain(User, question)] + [Plain(Assistant, "")] == messages + Exchange(question)
  {
  }

  lemma FoldStep(s: ChatState, cbs: seq<Callback<QueryApi.Payload>>, i: nat)
    requires i < |cbs|
    ensures Fold(s, cbs[i..]) == Fold(Apply(s, cbs[i]), cbs[i + 1..])
  {
    assert cbs[i..][0] == cbs[i] && cbs[i..][1..] == cbs[i + 1..];
  }

  lemma FoldDone(s: ChatState, cbs: seq<Callback<QueryApi.Payload>>, i: nat)
    requires i == |cbs|
    ensures Fold(s, cbs[i..]) == s
  {
    assert cbs[i..] == [];
  }

  // ---------------------------------------------------------------------
  // Properties
  // ---------------------------------------------------------------------

  /** No callback shortens the list or touches any message but the last. */
  lemma {:induction false} FoldKeepsEarlier(s: ChatState, cbs: seq<Callback<QueryApi.Payload>>)
    requires s.messages != []
    ensures var t := Fold(s, cbs);
      |t.messages| == |s.messages| && t.messages[..|s.messages| - 1] == s.messages[..|s.messages| - 1]
      && t.messages[|t.messages| - 1].role == s.messages[|s.messages| - 1].role
    decreases |cbs|
  {
    if cbs != [] {
      FoldKeepsEarlier(Apply(s, cbs[0]), cbs[1..]);
    }
  }

  /** A delta event carrying a fragment appends the fragment. */
  lemma ApplyDelta(s: ChatState, fragment: string)
    ensures Apply(s, OnDelta(QueryApi.DeltaPayload(fragment))) == s.(messages := WithDelta(s.messages, fragment))
  {
  }

  /** Successive deltas concatenate, in order, with no separator. */
  lemma {:induction false} DeltasConcatenate(s: ChatState, fragments: seq<string>)
    requires s.messages != []
    ensures var t := Fold(s, StreamRoundTrip.DeltaEvents(fragments));
      t.loading == s.loading
      && t.messages == s.messages[..|s.messages| - 1]
           + [s.messages[|s.messages| - 1].(content := s.messages[|s.messages| - 1].content + PromptBuilder.Concat(fragments))]
    decreases |fragments|
  {
    var cbs := StreamRoundTrip.DeltaEvents(fragments);
    var n := |s.messages|;
    var last := s.messages[n - 1];
    if fragments == [] {
      assert last.(content := last.content + []) == last;
      assert s.messages == s.messages[..n - 1] + [last];
    } else {
      var s' := Apply(s, cbs[0]);
      ApplyDelta(s, fragments[0]);
      assert cbs[0] == OnDelta(QueryApi.DeltaPayload(fragments[0]));
      assert cbs[1..] == StreamRoundTrip.DeltaEvents(fragments[1..]);
      DeltasConcatenate(s', fragments[1..]);
      assert s'.messages[..n - 1] == s.messages[..n - 1];
      assert last.content + fragments[0] + PromptBuilder.Concat(fragments[1..]) == last.content + PromptBuilder.Concat(fragments);
    }
  }

  /** Right after a send the typing indicator shows, metadata keeps it showing, and
      the first non-empty fragment hides it. */
  lemma ThinkingIndicator(ms: seq<Message>, question: string, retrieval: seq<QueryApi.RetrievalHit>,
                          contexts: seq<string>, useRerank: bool, prompt: string, fragment: string)
    ensures ShowsThinking(ms + Exchange(question), true)
    ensures ShowsThinking(WithMetadata(ms + Exchange(question), retrieval, contexts, useRerank, prompt), true)
    ensures ShowsThinking(WithDelta(ms + Exchange(question), fragment), true) <==> fragment == ""
    ensures !ShowsThinking(ms + Exchange(question), false)
  {
  }

  /** A failure always leaves visible text, so it never leaves the indicator up. */
  lemma ErrorHidesThinking(ms: seq<Message>, message: string, loading: bool)
    requires ms != []
    ensures !ShowsThinking(WithError(ms, message), loading)
    ensures StartsWith(WithError(ms, message)[|ms| - 1].content, ErrorPrefix)
  {
    var c := WithError(ms, message)[|ms| - 1].content;
    assert c == ErrorPrefix + message;
    assert c[..|ErrorPrefix|] == ErrorPrefix;
  }

  /** The whole exchange: the server's stream for a question with hits, read in one
      piece and folded into the window, leaves earlier messages alone, stores the
      question, gives the answer message the metadata and the text of every streamed
      delta, and ends with loading cleared. */
  lemma SendAndReceive(ms: seq<Message>, question: string, hits: seq<QueryApi.Hit>, useRerank: bool,
                       reply: QueryApi.RerankReply, deltas: seq<Option<string>>,
                       dumps: (QueryApi.Payload, bool) -> string,
                       parse: string -> Result<QueryApi.Payload, string>,
                       doneValue: QueryApi.Payload, status: nat, statusText: string)
    requires forall p, ascii :: '\n' !in dumps(p, ascii) && parse(dumps(p, ascii)) == Ok(p)
    requires parse(QueryApi.DoneData) == Ok(doneValue)
    requires hits != []
    ensures var ranked := QueryApi.Ranked(hits, useRerank, reply);
      var contexts := QueryApi.Contexts(ranked);
      var t := Trace(Responded(true, status, statusText),
                     [QueryApi.Wire(QueryApi.EventStream(question, hits, useRerank, reply, deltas, dumps))],
                     EndOfStream, parse);
      var f := Fold(ChatState(ms + Exchange(question), true), t);
      !f.loading
      && f.messages == ms + [Plain(User, question),
                             Message(Assistant, PromptBuilder.DeltaText(deltas), Some(contexts),
                                     Some(QueryApi.RetrievalOf(ranked)), Some(useRerank),
                                     Some(PromptBuilder.BuildRequest(question, contexts).fullPrompt))]
  {
    var ranked := QueryApi.Ranked(hits, useRerank, reply);
    var contexts := QueryApi.Contexts(ranked);
    var meta := QueryApi.MetadataPayload(QueryApi.RetrievalOf(ranked), contexts, useRerank,
                                         PromptBuilder.BuildRequest(question, contexts).fullPrompt);
    var t := Trace(Responded(true, status, statusText),
                   [QueryApi.Wire(QueryApi.EventStream(question, hits, useRerank, reply, deltas, dumps))],
                   EndOfStream, parse);
    StreamRoundTrip.ServerStreamRoundTrip(question, hits, useRerank, reply, deltas, dumps, parse, doneValue, status, statusText);
    PromptBuilder.NonEmptyDeltasKeepText(deltas);
    FoldAnswer(ms, question, t, meta, PromptBuilder.NonEmptyDeltas(deltas));
  }

  /** The server's callbacks folded into the window right after the question was
      submitted. */
  lemma FoldAnswer(ms: seq<Message>, question: string, t: seq<Callback<QueryApi.Payload>>,
                   meta: QueryApi.Payload, fragments: seq<string>)
    requires meta.MetadataPayload?
    requires t == [OnMetadata(meta)] + StreamRoundTrip.DeltaEvents(fragments) + [OnDone]
    ensures var f := Fold(ChatState(ms + Exchange(question), true), t);
      !f.loading
      && f.messages == ms + [Plain(User, question),
                             Message(Assistant, PromptBuilder.Concat(fragments), Some(meta.contexts),
                                     Some(meta.retrieval), Some(meta.useRerank), Some(meta.prompt))]
  {
    FoldServerCallbacks(ms + [Plain(User, question)], meta, fragments);
    assert ms + Exchange(question) == (ms + [Plain(User, question)]) + [Plain(Assistant, "")];
  }

  /** Metadata, then deltas, then done, folded into a fresh empty answer. */
  lemma FoldServerCallbacks(earlier: seq<Message>, meta: QueryApi.Payload, fragments: seq<string>)
    requires meta.MetadataPayload?
    ensures var f := Fold(ChatState(earlier + [Plain(Assistant, "")], true),
                          [OnMetadata(meta)] + StreamRoundTrip.DeltaEvents(fragments) + [OnDone]);
      !f.loading
      && f.messages == earlier + [Message(Assistant, PromptBuilder.Concat(fragments), Some(meta.contexts),
                                          Some(meta.retrieval), Some(meta.useRerank), Some(meta.prompt))]
  {
    var first := [OnMetadata(meta)];
    var middle := StreamRoundTrip.DeltaEvents(fragments);
    var done: seq<Callback<QueryApi.Payload>> := [OnDone];
    var s0 := ChatState(earlier + [Plain(Assistant, "")], true);
    var answer := Message(Assistant, "", Some(meta.contexts), Some(meta.retrieval), Some(meta.useRerank), Some(meta.prompt));
    var s1 := ChatState(earlier + [answer], true);
    MetadataOnFreshAnswer(earlier, meta);
    FoldOne(s0, OnMetadata(meta));
    FoldAppend(s0, first, middle);
    var s2 := Fold(s1, middle);
    FoldAppend(s0, first + middle, done);
    FoldOne(s2, OnDone);
    DeltasConcatenate(s1, fragments);
    assert (earlier + [answer])[..|earlier|] == earlier;
    assert "" + PromptBuilder.Concat(fragments) == PromptBuilder.Concat(fragments);
    assert s2.messages == earlier + [answer.(content := PromptBuilder.Concat(fragments))];
  }

  lemma FoldOne(s: ChatState, cb: Callback<QueryApi.Payload>)
    ensures Fold(s, [cb]) == Apply(s, cb)
  {
    assert [cb][1..] == [];
  }

  lemma MetadataOnFreshAnswer(earlier: seq<Message>, meta: QueryApi.Payload)
    requires meta.MetadataPayload?
    ensures Apply(ChatState(earlier + [Plain(Assistant, "")], true), OnMetadata(meta))
         == ChatState(earlier + [Message(Assistant, "", Some(meta.contexts), Some(meta.retrieval),
                                          Some(meta.useRerank), Some(meta.prompt))], true)
  {
    var ms := earlier + [Plain(Assistant, "")];
    assert ms[..|ms| - 1] == earlier;
  }

  /** A payload of the other shape still changes the answer: a delta event
      carrying metadata appends the text `undefined`, and a metadata event carrying
      a delta strips the answer of its four members. Neither touches `loading`. */
  lemma MismatchedPayloads(s: ChatState, meta: QueryApi.Payload, delta: QueryApi.Payload)
    requires meta.MetadataPayload? && delta.DeltaPayload?
    requires s.messages != []
    ensures var n := |s.messages|;
      var last := s.messages[n - 1];
      var d := Apply(s, OnDelta(meta));
      var m := Apply(s, OnMetadata(delta));
      d.loading == s.loading && m.loading == s.loading
      && |d.messages| == n && d.messages[n - 1].content == last.content + "undefined"
      && |m.messages| == n && m.messages[n - 1] == Plain(last.role, last.content)
  {
  }

  lemma {:induction false} FoldAppend(s: ChatState, xs: seq<Callback<QueryApi.Payload>>, ys: seq<Callback<QueryApi.Payload>>)
    ensures Fold(s, xs + ys) == Fold(Fold(s, xs), ys)
    decreases |xs|
  {
    if xs == [] {
      assert xs + ys == ys;
    } else {
      assert (xs + ys)[0] == xs[0] && (xs + ys)[1..] == xs[1..] + ys;
      FoldAppend(Apply(s, xs[0]), xs[1..], ys);
    }
  }
}
