/** Prompt assembly of the answer generator (`generate_answer` and
    `stream_answer`): numbered contexts, the fixed system instruction, the user
    message, the two-message chat request and the `[System]`/`[User]` prompt
    shown to the user; and the filter of the streamed completion that drops
    empty deltas. The model client itself is not modelled: the non-streaming
    answer and the streamed deltas are inputs. */
module PromptBuilder {
  import opened Text

  datatype ChatMessage = ChatMessage(role: string, content: string)

  /** The prompt material both entry points build. */
  datatype Request = Request(messages: seq<ChatMessage>, fullPrompt: string)

  const SystemContent: string :=
    "你是一个知识库问答助手。请根据提供的参考资料回答用户问题。"
    + "如果参考资料中没有相关信息，请如实告知。不要编造信息。"

  const ReferenceHeading: string := "参考资料：\n"
  const QuestionHeading: string := "\n\n问题：\n"

  /** `f"{i+1}. {ctx}"` for every context, in order. */
  function NumberedContexts(contexts: seq<string>): (entries: seq<string>)
    ensures |entries| == |contexts|
    ensures forall k :: 0 <= k < |contexts| ==> entries[k] == NatToString(k + 1) + ". " + contexts[k]
  {
    seq(|contexts|, k requires 0 <= k < |contexts| => NatToString(k + 1) + ". " + contexts[k])
  }

  function ContextText(contexts: seq<string>): string
  {
    Join(NumberedContexts(contexts), '\n')
  }

  function UserContent(question: string, contexts: seq<string>): string
  {
    ReferenceHeading + ContextText(contexts) + QuestionHeading + question
  }

  function FullPrompt(system: string, user: string): string
  {
    "[System]\n" + system + "\n\n[User]\n" + user
  }

  /** The messages and the displayed prompt, as both entry points build them. */
  function BuildRequest(question: string, contexts: seq<string>): (r: Request)
    ensures |r.messages| == 2
    ensures r.messages[0] == ChatMessage("system", SystemContent)
    ensures r.messages[1] == ChatMessage("user", UserContent(question, contexts))
    ensures r.fullPrompt == FullPrompt(r.messages[0].content, r.messages[1].content)
  {
    var user := UserContent(question, contexts);
    Request([ChatMessage("system", SystemContent), ChatMessage("user", user)], FullPrompt(SystemContent, user))
  }

  /** `generate_answer`: the model's answer (an input here) and the prompt. */
  function GenerateAnswer(question: string, contexts: seq<string>, answer: string): (string, string)
  {
    (answer, BuildRequest(question, contexts).fullPrompt)
  }

  /** `stream_answer`: the fragments the generator yields and the prompt. */
  function StreamAnswer(question: string, contexts: seq<string>, deltas: seq<Option<string>>): (seq<string>, string)
  {
    (NonEmptyDeltas(deltas), BuildRequest(question, contexts).fullPrompt)
  }

  /** The deltas the generator yields: `if delta.content: yield delta.content`. */
  function NonEmptyDeltas(deltas: seq<Option<string>>): (fragments: seq<string>)
    ensures forall k :: 0 <= k < |fragments| ==> fragments[k] != []
    ensures |fragments| <= |deltas|
  {
    if deltas == [] then []
    else
      var rest := NonEmptyDeltas(deltas[1..]);
      match deltas[0]
      case Some(c) => if c != [] then [c] + rest else rest
      case None => rest
  }

  /** The text of a sequence of fragments run together. */
  function Concat(fragments: seq<string>): string
  {
    if fragments == [] then [] else fragments[0] + Concat(fragments[1..])
  }

  /** The text of the raw deltas, a missing content counting as empty. */
  function DeltaText(deltas: seq<Option<string>>): string
  {
    if deltas == [] then []
    else (match deltas[0] case Some(c) => c case None => []) + DeltaText(deltas[1..])
  }

  /** The async generator of `stream_answer`, as a loop over the completion's chunks. */
  method StreamDeltas(deltas: seq<Option<string>>) returns (fragments: seq<string>)
    ensures fragments == NonEmptyDeltas(deltas)
  {
    fragments := [];
    var i := |deltas|;
    // Built from the back so that each step prepends what the source yields in order.
    while i > 0
      invariant 0 <= i <= |deltas|
      invariant fragments == NonEmptyDeltas(deltas[i..])
    {
      i := i - 1;
      assert deltas[i..][1..] == deltas[i + 1..];
      var d := deltas[i];
      if d.Some? && d.value != [] {
        fragments := [d.value] + fragments;
      }
    }
  }

  // ---------------------------------------------------------------------
  // Properties
  // ---------------------------------------------------------------------

  /** Dropping empty deltas loses no text: the yielded fragments spell out the whole answer. */
  lemma {:induction false} NonEmptyDeltasKeepText(deltas: seq<Option<string>>)
    ensures Concat(NonEmptyDeltas(deltas)) == DeltaText(deltas)
  {
    if deltas != [] {
      NonEmptyDeltasKeepText(deltas[1..]);
      var rest := NonEmptyDeltas(deltas[1..]);
      match deltas[0]
      case Some(c) =>
        if c != [] {
          assert ([c] + rest)[1..] == rest;
        }
      case None =>
    }
  }

  /** Both entry points send the same messages and report the same prompt. */
  lemma GenerateAndStreamAgree(question: string, contexts: seq<string>, answer: string, deltas: seq<Option<string>>)
    ensures GenerateAnswer(question, contexts, answer).1 == StreamAnswer(question, contexts, deltas).1
    ensures GenerateAnswer(question, contexts, answer).0 == answer
    ensures StreamAnswer(question, contexts, deltas).0 == NonEmptyDeltas(deltas)
  {
  }

  /** No contexts give an empty reference block. */
  lemma ContextTextEmpty()
    ensures ContextText([]) == ""
  {
  }

  /** Appending a context appends a newline and its numbered entry. */
  lemma {:induction false} ContextTextSnoc(contexts: seq<string>, c: string)
    requires contexts != []
    ensures ContextText(contexts + [c]) == ContextText(contexts) + "\n" + NatToString(|contexts| + 1) + ". " + c
  {
    var n := NatToString(|contexts| + 1);
    var e := n + ". " + c;
    var es := NumberedContexts(contexts);
    NumberedSnoc(contexts, c);
    JoinSnoc(es, e, '\n');
    assert Join(es, '\n') + ['\n'] + e == Join(es, '\n') + "\n" + n + ". " + c;
  }

  lemma NumberedSnoc(contexts: seq<string>, c: string)
    ensures NumberedContexts(contexts + [c])
         == NumberedContexts(contexts) + [NatToString(|contexts| + 1) + ". " + c]
  {
    var es := NumberedContexts(contexts);
    var es' := NumberedContexts(contexts + [c]);
    forall k | 0 <= k < |contexts|
      ensures es'[k] == es[k]
    {
      NumberedAt(contexts, c, k);
    }
    NumberedLast(contexts, c);
    SnocByIndex(es', es, NatToString(|contexts| + 1) + ". " + c);
  }

  lemma SnocByIndex<T>(r: seq<T>, s: seq<T>, e: T)
    requires |r| == |s| + 1 && r[|s|] == e
    requires forall k :: 0 <= k < |s| ==> r[k] == s[k]
    ensures r == s + [e]
  {
  }

  lemma NumberedAt(contexts: seq<string>, c: string, k: nat)
    requires k < |contexts|
    ensures NumberedContexts(contexts + [c])[k] == NumberedContexts(contexts)[k]
  {
    assert (contexts + [c])[k] == contexts[k];
  }

  lemma NumberedLast(contexts: seq<string>, c: string)
    ensures NumberedContexts(contexts + [c])[|contexts|] == NatToString(|contexts| + 1) + ". " + c
  {
    assert (contexts + [c])[|contexts|] == c;
  }

  /** The displayed prompt is the system block, then the reference block, then the
      question, which it ends with. */
  lemma PromptLayout(question: string, contexts: seq<string>)
    ensures BuildRequest(question, contexts).fullPrompt
      == "[System]\n" + SystemContent + "\n\n[User]\n" + ReferenceHeading + ContextText(contexts) + QuestionHeading + question
    ensures EndsWith(BuildRequest(question, contexts).fullPrompt, question)
    ensures StartsWith(BuildRequest(question, contexts).fullPrompt, "[System]\n" + SystemContent)
  {
    var p := BuildRequest(question, contexts).fullPrompt;
    var head := "[System]\n" + SystemContent + "\n\n[User]\n" + ReferenceHeading + ContextText(contexts) + QuestionHeading;
    assert p == head + question;
    assert p[|p| - |question|..] == question;
    assert p[..|"[System]\n" + SystemContent|] == "[System]\n" + SystemContent;
  }
}
