/** The query endpoints: optional rerank of the search hits by model-assigned
    scores, the parallel `retrieval` and `contexts` lists, the non-streaming
    response, and the frame sequence of the streaming endpoint.

    The embedding, the vector search and the model calls are inputs: the hits,
    the rerank reply and the streamed deltas. Scores are integers (only their
    order matters to the sort). `json.dumps` is the parameter `dumps`, whose
    flag says whether non-ASCII text is escaped (the default) or kept
    (`ensure_ascii=False`). */
module QueryApi {
  import opened Text
  import PromptBuilder

  /** A search hit: `doc_id`, `content`, `score`, and `rerank_score` once reranked. */
  datatype Hit = Hit(docId: string, content: string, score: int, rerankScore: Option<int>)

  /** The `RetrievalHit` record sent to the browser. */
  datatype RetrievalHit = RetrievalHit(content: string, score: int, rerankScore: Option<int>)

  /** What the rerank call produced: the parsed `scores` list, or any failure
      (model error, reply that is not JSON, reply that is not an object). */
  datatype RerankReply = RerankFailed | Scores(scores: seq<int>)

  datatype Payload =
    | MetadataPayload(retrieval: seq<RetrievalHit>, contexts: seq<string>, useRerank: bool, prompt: string)
    | DeltaPayload(content: string)

  /** One server-sent frame: `event: <event>\ndata: <data>\n\n`. */
  datatype Frame = Frame(event: string, data: string)

  datatype QueryResponse = QueryResponse(answer: string, contexts: seq<string>,
                                         retrieval: Option<seq<RetrievalHit>>, useRerank: bool,
                                         prompt: Option<string>)

  const NotFoundAnswer: string := "未找到相关文档内容，请先上传文档。"
  const DoneData: string := "{}"

  // ---------------------------------------------------------------------
  // Rerank
  // ---------------------------------------------------------------------

  /** The sort key `x.get("rerank_score", 0)`. */
  function SortKey(h: Hit): int
  {
    match h.rerankScore
    case Some(v) => v
    case None => 0
  }

  ghost predicate SortedDesc(s: seq<Hit>)
  {
    forall i, j :: 0 <= i < j < |s| ==> SortKey(s[i]) >= SortKey(s[j])
  }

  /** Inserts `x` in front of every element whose key is not greater than its own. */
  function Insert(x: Hit, t: seq<Hit>): (r: seq<Hit>)
    ensures |r| == |t| + 1
    ensures multiset(r) == multiset(t) + multiset{x}
  {
    if t == [] || SortKey(x) >= SortKey(t[0]) then [x] + t
    else
      assert t == [t[0]] + t[1..];
      [t[0]] + Insert(x, t[1..])
  }

  lemma {:induction false} InsertSorted(x: Hit, t: seq<Hit>)
    requires SortedDesc(t)
    ensures SortedDesc(Insert(x, t))
  {
    if t == [] || SortKey(x) >= SortKey(t[0]) {
      ConsSorted(x, t);
    } else {
      InsertSorted(x, t[1..]);
      InsertBounded(x, t[1..], SortKey(t[0]));
      ConsSorted(t[0], Insert(x, t[1..]));
    }
  }

  /** A key at least every key of `t` and the key of `x` is at least every key of
      the insertion. */
  lemma {:induction false} InsertBounded(x: Hit, t: seq<Hit>, bound: int)
    requires bound >= SortKey(x)
    requires forall i :: 0 <= i < |t| ==> bound >= SortKey(t[i])
    ensures forall i :: 0 <= i < |Insert(x, t)| ==> bound >= SortKey(Insert(x, t)[i])
  {
    if !(t == [] || SortKey(x) >= SortKey(t[0])) {
      InsertBounded(x, t[1..], bound);
      var r := Insert(x, t);
      assert r == [t[0]] + Insert(x, t[1..]);
      forall i | 1 <= i < |r|
        ensures bound >= SortKey(r[i])
      {
        assert r[i] == Insert(x, t[1..])[i - 1];
      }
    }
  }

  /** A head whose key is at least every key of a sorted tail keeps it sorted. */
  lemma ConsSorted(h: Hit, t: seq<Hit>)
    requires SortedDesc(t)
    requires t == [] || SortKey(h) >= SortKey(t[0])
    ensures SortedDesc([h] + t)
  {
    var s := [h] + t;
    forall i, j | 0 <= i < j < |s|
      ensures SortKey(s[i]) >= SortKey(s[j])
    {
      if i == 0 {
        assert s[j] == t[j - 1];
        if j > 1 {
          assert SortKey(t[0]) >= SortKey(t[j - 1]);
        }
      } else {
        assert s[i] == t[i - 1] && s[j] == t[j - 1];
      }
    }
  }

  /** Python's `sort(key=..., reverse=True)`: stable, by descending key. */
  function StableSortDesc(s: seq<Hit>): (r: seq<Hit>)
    ensures |r| == |s|
    ensures multiset(r) == multiset(s)
    ensures SortedDesc(r)
  {
    if s == [] then []
    else
      assert s == [s[0]] + s[1..];
      InsertSorted(s[0], StableSortDesc(s[1..]));
      Insert(s[0], StableSortDesc(s[1..]))
  }

  /** Chunk `i` receives `scores[i]`. */
  function WithScores(s: seq<Hit>, scores: seq<int>): (r: seq<Hit>)
    requires |scores| == |s|
    ensures |r| == |s|
    ensures forall i :: 0 <= i < |s| ==> r[i] == s[i].(rerankScore := Some(scores[i]))
  {
    seq(|s|, i requires 0 <= i < |s| => s[i].(rerankScore := Some(scores[i])))
  }

  /** The order `rerank_chunks` returns. */
  function Reranked(s: seq<Hit>, reply: RerankReply): seq<Hit>
  {
    if reply.Scores? && |reply.scores| == |s| then StableSortDesc(WithScores(s, reply.scores)) else s
  }

  /** `rerank_chunks`: assigns the scores in place, then sorts the list in place. */
  method RerankChunks(chunks: array<Hit>, reply: RerankReply)
    modifies chunks
    ensures chunks[..] == Reranked(old(chunks[..]), reply)
  {
    if reply.Scores? && |reply.scores| == chunks.Length {
      ghost var original := chunks[..];
      for i := 0 to chunks.Length
        invariant chunks[..i] == WithScores(original, reply.scores)[..i]
        invariant chunks[i..] == original[i..]
      {
        chunks[i] := chunks[i].(rerankScore := Some(reply.scores[i]));
      }
      assert chunks[..] == WithScores(original, reply.scores);
      // `list.sort` is a library routine: its result is written back in place.
      var sorted := StableSortDesc(chunks[..]);
      forall k | 0 <= k < chunks.Length {
        chunks[k] := sorted[k];
      }
      assert chunks[..] == sorted;
    }
  }

  /** The rerank request lists the chunks as `[i] content`, numbered from 0. */
  function NumberedChunks(chunks: seq<Hit>): (entries: seq<string>)
    ensures |entries| == |chunks|
    ensures forall k :: 0 <= k < |chunks| ==> entries[k] == "[" + NatToString(k) + "] " + chunks[k].content
  {
    seq(|chunks|, k requires 0 <= k < |chunks| => "[" + NatToString(k) + "] " + chunks[k].content)
  }

  function RerankPrompt(question: string, chunks: seq<Hit>): string
  {
    "请对以下文本段落与问题的相关性进行打分（0-10分），返回 JSON 格式。\n"
    + "格式: {\"scores\": [分数1, 分数2, ...]}\n"
    + "只返回 JSON，不要其他内容。\n\n"
    + "问题：" + question + "\n\n"
    + "段落：\n" + Join(NumberedChunks(chunks), '\n')
  }

  // ---------------------------------------------------------------------
  // Retrieval, contexts and responses
  // ---------------------------------------------------------------------

  function ToRetrievalHit(h: Hit): RetrievalHit
  {
    RetrievalHit(h.content, h.score, h.rerankScore)
  }

  function RetrievalOf(hits: seq<Hit>): seq<RetrievalHit>
  {
    seq(|hits|, i requires 0 <= i < |hits| => ToRetrievalHit(hits[i]))
  }

  /** `[hit["content"] for hit in hits]`. */
  function Contexts(hits: seq<Hit>): (contexts: seq<string>)
    ensures |contexts| == |hits|
    ensures forall i :: 0 <= i < |hits| ==> contexts[i] == hits[i].content
  {
    seq(|hits|, i requires 0 <= i < |hits| => hits[i].content)
  }

  /** The `retrieval.append(...)` loop. */
  method BuildRetrieval(hits: seq<Hit>) returns (retrieval: seq<RetrievalHit>)
    ensures retrieval == RetrievalOf(hits)
    ensures |retrieval| == |hits|
    ensures forall i :: 0 <= i < |hits| ==> (retrieval[i].content == hits[i].content
      && retrieval[i].score == hits[i].score
      && (retrieval[i].rerankScore.None? <==> hits[i].rerankScore.None?))
  {
    retrieval := [];
    for i := 0 to |hits|
      invariant retrieval == RetrievalOf(hits[..i])
    {
      assert hits[..i + 1] == hits[..i] + [hits[i]];
      retrieval := retrieval + [ToRetrievalHit(hits[i])];
    }
    assert hits[..|hits|] == hits;
  }

  /** The hits in the order the answer uses them. */
  function Ranked(hits: seq<Hit>, useRerank: bool, reply: RerankReply): seq<Hit>
  {
    if useRerank then Reranked(hits, reply) else hits
  }

  /** `POST /query`: the non-streaming response. */
  function Query(question: string, hits: seq<Hit>, useRerank: bool, reply: RerankReply, answer: string): QueryResponse
  {
    if hits == [] then QueryResponse(NotFoundAnswer, [], None, false, None)
    else
      var ranked := Ranked(hits, useRerank, reply);
      var contexts := Contexts(ranked);
      var (a, prompt) := PromptBuilder.GenerateAnswer(question, contexts, answer);
      QueryResponse(a, contexts, Some(RetrievalOf(ranked)), useRerank, Some(prompt))
  }

  /** The frames `event_generator` yields, in order. */
  function EventStream(question: string, hits: seq<Hit>, useRerank: bool, reply: RerankReply,
                       deltas: seq<Option<string>>, dumps: (Payload, bool) -> string): seq<Frame>
  {
    if hits == [] then
      [ Frame("metadata", dumps(MetadataPayload([], [], false, ""), true)),
        Frame("delta", dumps(DeltaPayload(NotFoundAnswer), true)),
        Frame("done", DoneData) ]
    else
      var ranked := Ranked(hits, useRerank, reply);
      var contexts := Contexts(ranked);
      var (fragments, prompt) := PromptBuilder.StreamAnswer(question, contexts, deltas);
      [Frame("metadata", dumps(MetadataPayload(RetrievalOf(ranked), contexts, useRerank, prompt), false))]
      + DeltaFrames(fragments, dumps)
      + [Frame("done", DoneData)]
  }

  function DeltaFrames(fragments: seq<string>, dumps: (Payload, bool) -> string): (frames: seq<Frame>)
    ensures |frames| == |fragments|
    ensures forall k :: 0 <= k < |fragments| ==> frames[k] == Frame("delta", dumps(DeltaPayload(fragments[k]), false))
  {
    seq(|fragments|, k requires 0 <= k < |fragments| => Frame("delta", dumps(DeltaPayload(fragments[k]), false)))
  }

  /** The bytes of one frame on the wire. */
  function FrameText(f: Frame): string
  {
    "event: " + f.event + "\n" + "data: " + f.data + "\n\n"
  }

  function Wire(frames: seq<Frame>): string
  {
    if frames == [] then [] else FrameText(frames[0]) + Wire(frames[1..])
  }

  // ---------------------------------------------------------------------
  // Properties
  // ---------------------------------------------------------------------

  function FilterKey(s: seq<Hit>, v: int): seq<Hit>
  {
    if s == [] then []
    else if SortKey(s[0]) == v then [s[0]] + FilterKey(s[1..], v)
    else FilterKey(s[1..], v)
  }

  lemma {:induction false} InsertFilter(x: Hit, t: seq<Hit>, v: int)
    requires SortedDesc(t)
    ensures FilterKey(Insert(x, t), v) == if SortKey(x) == v then [x] + FilterKey(t, v) else FilterKey(t, v)
  {
    if t == [] || SortKey(x) >= SortKey(t[0]) {
      assert ([x] + t)[1..] == t;
    } else {
      var rest := Insert(x, t[1..]);
      assert ([t[0]] + rest)[1..] == rest;
      InsertFilter(x, t[1..], v);
    }
  }

  /** Stability: among chunks with equal keys the sort keeps their original order. */
  lemma {:induction false} SortIsStable(s: seq<Hit>, v: int)
    ensures FilterKey(StableSortDesc(s), v) == FilterKey(s, v)
  {
    if s != [] {
      SortIsStable(s[1..], v);
      InsertFilter(s[0], StableSortDesc(s[1..]), v);
    }
  }

  /** With one score per chunk, the result holds the scored chunks ordered by
      descending score, equal scores in retrieval order; otherwise (a length
      mismatch or a failed call) the chunks come back untouched. */
  lemma RerankOutcome(s: seq<Hit>, reply: RerankReply, v: int)
    ensures |Reranked(s, reply)| == |s|
    ensures reply.Scores? && |reply.scores| == |s| ==> (
      multiset(Reranked(s, reply)) == multiset(WithScores(s, reply.scores))
      && SortedDesc(Reranked(s, reply))
      && FilterKey(Reranked(s, reply), v) == FilterKey(WithScores(s, reply.scores), v))
    ensures !(reply.Scores? && |reply.scores| == |s|) ==> Reranked(s, reply) == s
  {
    if reply.Scores? && |reply.scores| == |s| {
      SortIsStable(WithScores(s, reply.scores), v);
    }
  }

  /** Every hit of the result came from the input: same document and text. */
  lemma RerankKeepsHits(s: seq<Hit>, reply: RerankReply, k: nat)
    requires k < |Reranked(s, reply)|
    ensures exists i :: (0 <= i < |s| && Reranked(s, reply)[k].content == s[i].content
      && Reranked(s, reply)[k].docId == s[i].docId && Reranked(s, reply)[k].score == s[i].score)
  {
    if reply.Scores? && |reply.scores| == |s| {
      var w := WithScores(s, reply.scores);
      var r := Reranked(s, reply);
      SameElements(r, w, k);
      var i :| 0 <= i < |w| && w[i] == r[k];
      assert r[k].content == s[i].content;
    } else {
      assert Reranked(s, reply)[k] == s[k];
    }
  }

  /** An element of a sequence occurs in any permutation of it. */
  lemma SameElements<T>(r: seq<T>, w: seq<T>, k: nat)
    requires multiset(r) == multiset(w) && k < |r|
    ensures exists i :: 0 <= i < |w| && w[i] == r[k]
  {
    assert r[k] in multiset(r);
    assert r[k] in w;
  }

  /** The rerank request ends with the paragraphs, numbered from 0, one per line. */
  lemma RerankPromptLists(question: string, chunks: seq<Hit>)
    ensures EndsWith(RerankPrompt(question, chunks), "段落：\n" + Join(NumberedChunks(chunks), '\n'))
  {
    var tail := "段落：\n" + Join(NumberedChunks(chunks), '\n');
    var p := RerankPrompt(question, chunks);
    var head := "请对以下文本段落与问题的相关性进行打分（0-10分），返回 JSON 格式。\n"
      + "格式: {\"scores\": [分数1, 分数2, ...]}\n"
      + "只返回 JSON，不要其他内容。\n\n"
      + "问题：" + question + "\n\n";
    assert p == head + tail;
    assert p[|p| - |tail|..] == tail;
  }

  /** `retrieval` and `contexts` are parallel to the hits: same length, same order,
      the same text at every index, and a null rerank score exactly where the hit has none. */
  lemma RetrievalParallelsContexts(hits: seq<Hit>)
    ensures |RetrievalOf(hits)| == |Contexts(hits)| == |hits|
    ensures forall i :: 0 <= i < |hits| ==>
      RetrievalOf(hits)[i].content == Contexts(hits)[i] == hits[i].content
      && (RetrievalOf(hits)[i].rerankScore.None? <==> hits[i].rerankScore.None?)
  {
  }

  /** With no hits the stream is exactly: empty metadata, the fixed answer, done. */
  lemma NoHitsStream(question: string, useRerank: bool, reply: RerankReply,
                     deltas: seq<Option<string>>, dumps: (Payload, bool) -> string)
    ensures EventStream(question, [], useRerank, reply, deltas, dumps) ==
      [ Frame("metadata", dumps(MetadataPayload([], [], false, ""), true)),
        Frame("delta", dumps(DeltaPayload(NotFoundAnswer), true)),
        Frame("done", DoneData) ]
  {
  }

  /** Otherwise: one metadata frame, one delta frame per non-empty generated
      fragment, in order, and one done frame. */
  lemma StreamShape(question: string, hits: seq<Hit>, useRerank: bool, reply: RerankReply,
                    deltas: seq<Option<string>>, dumps: (Payload, bool) -> string)
    requires hits != []
    ensures var frames := EventStream(question, hits, useRerank, reply, deltas, dumps);
      var fragments := PromptBuilder.NonEmptyDeltas(deltas);
      var ranked := Ranked(hits, useRerank, reply);
      |frames| == |fragments| + 2
      && frames[0] == Frame("metadata", dumps(MetadataPayload(RetrievalOf(ranked), Contexts(ranked), useRerank,
                                                              PromptBuilder.BuildRequest(question, Contexts(ranked)).fullPrompt), false))
      && (forall k :: 0 <= k < |fragments| ==> frames[k + 1] == Frame("delta", dumps(DeltaPayload(fragments[k]), false)))
      && frames[|frames| - 1] == Frame("done", DoneData)
  {
    var ranked := Ranked(hits, useRerank, reply);
    var fragments := PromptBuilder.NonEmptyDeltas(deltas);
    var prompt := PromptBuilder.BuildRequest(question, Contexts(ranked)).fullPrompt;
    var first := Frame("metadata", dumps(MetadataPayload(RetrievalOf(ranked), Contexts(ranked), useRerank, prompt), false));
    assert EventStream(question, hits, useRerank, reply, deltas, dumps)
        == [first] + DeltaFrames(fragments, dumps) + [Frame("done", DoneData)];
    Framed(first, DeltaFrames(fragments, dumps), Frame("done", DoneData));
  }

  /** One frame, a run of frames and one more frame, in that order. */
  lemma Framed(first: Frame, middle: seq<Frame>, last: Frame)
    ensures var frames := [first] + middle + [last];
      |frames| == |middle| + 2 && frames[0] == first && frames[|frames| - 1] == last
      && forall k :: 0 <= k < |middle| ==> frames[k + 1] == middle[k]
  {
  }

  /** The stream's metadata carries exactly the contexts, retrieval and prompt of
      the non-streaming response to the same question and hits. */
  lemma StreamMetadataMatchesQuery(question: string, hits: seq<Hit>, useRerank: bool, reply: RerankReply,
                                   deltas: seq<Option<string>>, answer: string)
    requires hits != []
    ensures var q := Query(question, hits, useRerank, reply, answer);
      var ranked := Ranked(hits, useRerank, reply);
      q.retrieval == Some(RetrievalOf(ranked)) && q.contexts == Contexts(ranked) && q.useRerank == useRerank
      && q.prompt == Some(PromptBuilder.StreamAnswer(question, Contexts(ranked), deltas).1)
  {
    PromptBuilder.GenerateAndStreamAgree(question, Contexts(Ranked(hits, useRerank, reply)), answer, deltas);
  }
}
