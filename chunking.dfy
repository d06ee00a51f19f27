/** Splitting a document's text into chunks (`chunk_service`).

    The sliding window cuts the token sequence into windows of `chunkSize`
    tokens that start `chunkSize - overlap` tokens apart; each window is
    decoded, stripped, and kept unless blank. The semantic mode asks the model
    to split the text and falls back to the sliding window with 500/100 when
    the reply is not JSON. The tokenizer is the pair of parameters `encode`
    and `decode`; the model call is the parameter `respond`, and JSON decoding
    of its reply is the parameter `parse`. */
module Chunking {
  import opened Text

  type Token = int

  /** Token positions `lo` (included) to `hi` (excluded). */
  datatype Range = Range(lo: nat, hi: nat)

  const DefaultChunkSize: nat := 500
  const DefaultOverlap: int := 100
  const SemanticTextLimit: nat := 8000

  // ---------------------------------------------------------------------
  // Windows
  // ---------------------------------------------------------------------

  function Min(a: int, b: int): int
  {
    if a <= b then a else b
  }

  /** The windows the loop visits from `start` over `n` tokens: it stops after the
      first window whose end reaches `n`. */
  function RangesFrom(start: nat, n: nat, size: nat, step: nat): (rs: seq<Range>)
    requires step > 0
    ensures forall k :: 0 <= k < |rs| ==> start <= rs[k].lo <= rs[k].hi <= n
    decreases n - start
  {
    if start >= n then []
    else if start + size >= n then [Range(start, n)]
    else [Range(start, start + size)] + RangesFrom(start + step, n, size, step)
  }

  function Ranges(n: nat, size: nat, overlap: int): (rs: seq<Range>)
    requires overlap < size
    ensures forall k :: 0 <= k < |rs| ==> rs[k].lo <= rs[k].hi <= n
  {
    RangesFrom(0, n, size, size - overlap)
  }

  /** Each range's tokens, decoded. */
  function Decoded(tokens: seq<Token>, rs: seq<Range>, decode: seq<Token> -> string): (texts: seq<string>)
    requires forall k :: 0 <= k < |rs| ==> rs[k].lo <= rs[k].hi <= |tokens|
    ensures |texts| == |rs|
    ensures forall k :: 0 <= k < |rs| ==> texts[k] == decode(tokens[rs[k].lo..rs[k].hi])
  {
    if rs == [] then [] else [decode(tokens[rs[0].lo..rs[0].hi])] + Decoded(tokens, rs[1..], decode)
  }

  /** `c.strip()` kept only when non-empty: the one-element or empty list it adds. */
  function Kept(text: string): seq<string>
  {
    var t := Strip(text, PyIsSpace);
    if t != [] then [t] else []
  }

  /** `[c.strip() for c in texts if c.strip()]`: stripped, blanks dropped. */
  function KeepNonBlank(texts: seq<string>): (r: seq<string>)
    ensures |r| <= |texts|
  {
    if texts == [] then [] else Kept(texts[0]) + KeepNonBlank(texts[1..])
  }

  /** What `sliding_window_chunk` returns for a token sequence: every window's
      text, decoded, stripped, blanks dropped. */
  function SlidingChunks(tokens: seq<Token>, size: nat, overlap: int, decode: seq<Token> -> string): seq<string>
    requires overlap < size
  {
    KeepNonBlank(Decoded(tokens, Ranges(|tokens|, size, overlap), decode))
  }

  /** Each text's contribution under `keep`, concatenated. */
  function KeepEach(texts: seq<string>, keep: string -> seq<string>): seq<string>
  {
    if texts == [] then [] else keep(texts[0]) + KeepEach(texts[1..], keep)
  }

  /** What the loop still adds once it reaches window start `start`, one window at
      a time, each window contributing `keep` of its text. */
  function ChunksFrom(tokens: seq<Token>, start: nat, size: nat, step: nat, decode: seq<Token> -> string,
                      keep: string -> seq<string>): seq<string>
    requires step > 0
    decreases |tokens| - start
  {
    if start >= |tokens| then []
    else
      keep(decode(tokens[start..Min(start + size, |tokens|)]))
        + (if start + size >= |tokens| then [] else ChunksFrom(tokens, start + step, size, step, decode, keep))
  }

  /** `sliding_window_chunk`: the window loop over the encoded text, each window's
      stripped text kept when non-blank. */
  method SlidingWindowChunk(text: string, chunkSize: nat, overlap: int,
                            encode: string -> seq<Token>, decode: seq<Token> -> string)
    returns (chunks: seq<string>)
    requires 0 < chunkSize && overlap < chunkSize
    ensures chunks == SlidingChunks(encode(text), chunkSize, overlap, decode)
  {
    var tokens := encode(text);
    var step: nat := chunkSize - overlap;
    chunks := WindowLoop(tokens, chunkSize, step, decode, Kept);
    SlidingByWindows(tokens, chunkSize, overlap, step, decode);
  }

  /** The loop of `sliding_window_chunk`: windows of `size` tokens starting `step`
      apart, stopping after the window that reaches the end; `keep` is what a
      window's decoded text adds to the output. */
  method WindowLoop(tokens: seq<Token>, size: nat, step: nat, decode: seq<Token> -> string,
                    keep: string -> seq<string>)
    returns (chunks: seq<string>)
    requires step > 0
    ensures chunks == ChunksFrom(tokens, 0, size, step, decode, keep)
  {
    ghost var total := ChunksFrom(tokens, 0, size, step, decode, keep);
    chunks := [];
    var start: nat := 0;
    while start < |tokens|
      invariant chunks + ChunksFrom(tokens, start, size, step, decode, keep) == total
      decreases |tokens| - start
    {
      var end := start + size;
      var chunkText := decode(tokens[start..Min(end, |tokens|)]);
      ghost var before := chunks;
      chunks := chunks + keep(chunkText);
      if end >= |tokens| {
        LastWindow(tokens, start, size, step, decode, keep, before, chunks, total);
        return;
      }
      NextWindow(tokens, start, size, step, decode, keep, before, chunks, total);
      start := start + step;
    }
    EmptyTail(tokens, start, size, step, decode, keep, chunks, total);
  }

  /** A turn of the window loop that is not the last keeps the loop invariant. */
  lemma NextWindow(tokens: seq<Token>, start: nat, size: nat, step: nat, decode: seq<Token> -> string,
                   keep: string -> seq<string>, done: seq<string>, next: seq<string>, total: seq<string>)
    requires step > 0 && start + size < |tokens|
    requires done + ChunksFrom(tokens, start, size, step, decode, keep) == total
    requires next == done + keep(decode(tokens[start..Min(start + size, |tokens|)]))
    ensures next + ChunksFrom(tokens, start + step, size, step, decode, keep) == total
  {
  }

  /** The turn over the window that reaches the end completes the output. */
  lemma LastWindow(tokens: seq<Token>, start: nat, size: nat, step: nat, decode: seq<Token> -> string,
                   keep: string -> seq<string>, done: seq<string>, next: seq<string>, total: seq<string>)
    requires step > 0 && start < |tokens| <= start + size
    requires done + ChunksFrom(tokens, start, size, step, decode, keep) == total
    requires next == done + keep(decode(tokens[start..Min(start + size, |tokens|)]))
    ensures next == total
  {
    assert ChunksFrom(tokens, start, size, step, decode, keep) == keep(decode(tokens[start..Min(start + size, |tokens|)])) + [];
  }

  /** Past the end no window is left. */
  lemma EmptyTail(tokens: seq<Token>, start: nat, size: nat, step: nat, decode: seq<Token> -> string,
                  keep: string -> seq<string>, done: seq<string>, total: seq<string>)
    requires step > 0 && |tokens| <= start
    requires done + ChunksFrom(tokens, start, size, step, decode, keep) == total
    ensures done == total
  {
    assert done + [] == done;
  }

  /** Window at a time or all windows decoded first: the same chunks. */
  lemma {:induction false} WindowsOneByOne(tokens: seq<Token>, start: nat, size: nat, step: nat,
                                           decode: seq<Token> -> string, keep: string -> seq<string>)
    requires step > 0
    ensures ChunksFrom(tokens, start, size, step, decode, keep)
         == KeepEach(Decoded(tokens, RangesFrom(start, |tokens|, size, step), decode), keep)
    decreases |tokens| - start
  {
    if start < |tokens| {
      var rs := RangesFrom(start, |tokens|, size, step);
      var texts := Decoded(tokens, rs, decode);
      var w := decode(tokens[start..Min(start + size, |tokens|)]);
      if start + size >= |tokens| {
        assert rs == [Range(start, |tokens|)];
        assert texts == [w];
        assert KeepEach(texts, keep) == keep(w) + [];
      } else {
        var rest := RangesFrom(start + step, |tokens|, size, step);
        assert rs == [Range(start, start + size)] + rest;
        assert rs[1..] == rest;
        assert texts == [w] + Decoded(tokens, rest, decode);
        WindowsOneByOne(tokens, start + step, size, step, decode, keep);
        assert KeepEach(texts, keep) == keep(w) + KeepEach(Decoded(tokens, rest, decode), keep);
      }
    }
  }

  /** The loop's windows, one at a time, give the sliding chunks. */
  lemma SlidingByWindows(tokens: seq<Token>, size: nat, overlap: int, step: nat, decode: seq<Token> -> string)
    requires overlap < size && step == size - overlap
    ensures ChunksFrom(tokens, 0, size, step, decode, Kept) == SlidingChunks(tokens, size, overlap, decode)
  {
    var rs := Ranges(|tokens|, size, overlap);
    assert rs == RangesFrom(0, |tokens|, size, step);
    var texts := Decoded(tokens, rs, decode);
    WindowsOneByOne(tokens, 0, size, step, decode, Kept);
    KeepEachKept(texts);
    assert SlidingChunks(tokens, size, overlap, decode) == KeepNonBlank(texts);
  }

  lemma {:induction false} KeepEachKept(texts: seq<string>)
    ensures KeepEach(texts, Kept) == KeepNonBlank(texts)
  {
    if texts != [] {
      KeepEachKept(texts[1..]);
    }
  }

  // ---------------------------------------------------------------------
  // Semantic chunking
  // ---------------------------------------------------------------------

  const SemanticInstruction: string :=
    "请将以下文本按语义段落进行分块，每个分块应该是一个完整的语义单元（如一个主题、一段论述、一组相关要点）。"
    + "分块粒度由内容语义决定，不要人为限制长度。"
    + "返回 JSON 格式，格式为: {\"chunks\": [\"chunk1\", \"chunk2\", ...]}\n"
    + "只返回 JSON，不要其他内容。\n\n"
    + "文本：\n"

  /** The prompt: the instruction, then at most the first 8000 characters. */
  function SemanticPrompt(text: string): (p: string)
    ensures p == SemanticInstruction + text[..Min(|text|, SemanticTextLimit)]
  {
    SemanticInstruction + (if |text| <= SemanticTextLimit then text else text[..SemanticTextLimit])
  }

  /** How `json.loads(cleaned)` and `data.get("chunks", [])` turn out: not JSON at all;
      an object without `chunks`; strings to iterate (a list of strings, or an object
      with string keys, whose keys are iterated); a string (iterated character by
      character); or anything else, on which the source raises (a reply that is not
      an object, a number, a list holding a non-string). */
  datatype Reply = NotJson | NoChunks | ChunkList(items: seq<string>) | ChunkString(s: string) | Unusable

  /** `re.sub(r"^```(?:json)?\s*", "", s)`. */
  function DropOpeningFence(s: string): string
  {
    if StartsWith(s, "```json") then TrimStart(s[7..], PyIsSpace)
    else if StartsWith(s, "```") then TrimStart(s[3..], PyIsSpace)
    else s
  }

  /** `re.sub(r"\s*```$", "", s)` on a string that does not end with a newline. */
  function DropClosingFence(s: string): string
  {
    if EndsWith(s, "```") then TrimEnd(s[..|s| - 3], PyIsSpace) else s
  }

  /** The markdown fences the model may wrap its JSON in, removed. */
  function CleanReply(response: string): string
  {
    DropClosingFence(DropOpeningFence(Strip(response, PyIsSpace)))
  }

  /** A JSON string in place of the list is iterated character by character:
      each character becomes a one-character chunk. */
  function Singletons(s: string): (r: seq<string>)
    ensures |r| == |s| && forall k :: 0 <= k < |s| ==> r[k] == [s[k]]
  {
    seq(|s|, k requires 0 <= k < |s| => [s[k]])
  }

  /** `semantic_chunk`; `None` where the source raises. */
  function SemanticChunk(text: string, respond: string -> string, parse: string -> Reply,
                         encode: string -> seq<Token>, decode: seq<Token> -> string): Option<seq<string>>
  {
    ReplyChunks(parse(CleanReply(respond(SemanticPrompt(text)))), text, encode, decode)
  }

  /** The chunks `semantic_chunk` makes of the parsed reply. */
  function ReplyChunks(reply: Reply, text: string, encode: string -> seq<Token>,
                       decode: seq<Token> -> string): Option<seq<string>>
  {
    match reply
    case NotJson => Some(SlidingChunks(encode(text), DefaultChunkSize, DefaultOverlap, decode))
    case NoChunks => Some([])
    case ChunkList(items) => Some(KeepNonBlank(items))
    case ChunkString(s) => Some(KeepNonBlank(Singletons(s)))
    case Unusable => None
  }

  /** `chunk_text`: `semantic` and `hybrid` ask the model, any other mode slides. */
  function ChunkText(text: string, mode: string, chunkSize: nat, overlap: int,
                     respond: string -> string, parse: string -> Reply,
                     encode: string -> seq<Token>, decode: seq<Token> -> string): Option<seq<string>>
    requires mode == "semantic" || mode == "hybrid" || (0 < chunkSize && overlap < chunkSize)
  {
    if mode == "sliding" then Some(SlidingChunks(encode(text), chunkSize, overlap, decode))
    else if mode == "semantic" then SemanticChunk(text, respond, parse, encode, decode)
    else if mode == "hybrid" then SemanticChunk(text, respond, parse, encode, decode)
    else Some(SlidingChunks(encode(text), chunkSize, overlap, decode))
  }

  // ---------------------------------------------------------------------
  // Properties
  // ---------------------------------------------------------------------

  lemma {:induction false} KeepNonBlankAppend(xs: seq<string>, ys: seq<string>)
    ensures KeepNonBlank(xs + ys) == KeepNonBlank(xs) + KeepNonBlank(ys)
  {
    if xs == [] {
      assert xs + ys == ys;
    } else {
      assert (xs + ys)[0] == xs[0] && (xs + ys)[1..] == xs[1..] + ys;
      KeepNonBlankAppend(xs[1..], ys);
    }
  }

  /** Every kept chunk is non-empty and has no whitespace at either end. */
  lemma {:induction false} KeptAreTrimmed(texts: seq<string>)
    ensures forall t <- KeepNonBlank(texts) :: t != [] && !PyIsSpace(t[0]) && !PyIsSpace(t[|t| - 1])
  {
    if texts != [] {
      KeptAreTrimmed(texts[1..]);
      var head, rest := Kept(texts[0]), KeepNonBlank(texts[1..]);
      assert KeepNonBlank(texts) == head + rest;
      forall t | t in head + rest
        ensures t != [] && !PyIsSpace(t[0]) && !PyIsSpace(t[|t| - 1])
      {
        if t in head {
          assert t == Strip(texts[0], PyIsSpace);
        }
      }
    }
  }

  /** Stripping a string with no whitespace at its ends changes nothing. */
  lemma StripStripped(s: string)
    requires s != [] && !PyIsSpace(s[0]) && !PyIsSpace(s[|s| - 1])
    ensures Strip(s, PyIsSpace) == s
  {
  }

  /** Cleaning the chunk list twice is cleaning it once. */
  lemma {:induction false} KeepNonBlankIdempotent(texts: seq<string>)
    ensures KeepNonBlank(KeepNonBlank(texts)) == KeepNonBlank(texts)
  {
    if texts != [] {
      var t := Strip(texts[0], PyIsSpace);
      var rest := KeepNonBlank(texts[1..]);
      KeepNonBlankIdempotent(texts[1..]);
      if t != [] {
        StripStripped(t);
        assert ([t] + rest)[0] == t && ([t] + rest)[1..] == rest;
      } else {
        assert [] + rest == rest;
      }
    }
  }

  /** Window k starts `k * step` tokens after `start` and ends `size` tokens later,
      clipped at `n`; every window but the last is full and ends before `n`; when
      the windows do not leave gaps (`step <= size`) the last one ends at `n`. */
  lemma {:induction false} WindowLayout(start: nat, n: nat, size: nat, step: nat)
    requires step > 0
    ensures var rs := RangesFrom(start, n, size, step);
      (rs == [] <==> start >= n)
      && (forall k :: 0 <= k < |rs| ==> rs[k].lo == start + k * step && rs[k].hi == Min(start + k * step + size, n))
      && (forall k :: 0 <= k < |rs| - 1 ==> start + k * step + size < n)
      && (rs != [] && step <= size ==> rs[|rs| - 1].hi == n)
    decreases n - start
  {
    if start < n && start + size < n {
      WindowLayout(start + step, n, size, step);
      var tail := RangesFrom(start + step, n, size, step);
      assert RangesFrom(start, n, size, step) == [Range(start, start + size)] + tail;
      LayoutCons(start, n, size, step, tail);
    }
  }

  /** A full first window in front of the windows from `start + step`. */
  lemma LayoutCons(start: nat, n: nat, size: nat, step: nat, tail: seq<Range>)
    requires step > 0 && start + size < n
    requires (tail == [] <==> start + step >= n)
    requires forall k :: 0 <= k < |tail| ==>
      tail[k].lo == start + step + k * step && tail[k].hi == Min(start + step + k * step + size, n)
    requires forall k :: 0 <= k < |tail| - 1 ==> start + step + k * step + size < n
    requires tail != [] && step <= size ==> tail[|tail| - 1].hi == n
    ensures var rs := [Range(start, start + size)] + tail;
      (forall k :: 0 <= k < |rs| ==> rs[k].lo == start + k * step && rs[k].hi == Min(start + k * step + size, n))
      && (forall k :: 0 <= k < |rs| - 1 ==> start + k * step + size < n)
      && (step <= size ==> rs[|rs| - 1].hi == n)
  {
    var rs := [Range(start, start + size)] + tail;
    forall k | 0 <= k < |rs|
      ensures rs[k].lo == start + k * step && rs[k].hi == Min(start + k * step + size, n)
    {
      if k == 0 {
        assert 0 * step == 0;
      } else {
        assert rs[k] == tail[k - 1];
        ShiftStep(start, step, k);
      }
    }
    forall k | 0 <= k < |rs| - 1
      ensures start + k * step + size < n
    {
      if k == 0 {
        assert 0 * step == 0;
      } else {
        ShiftStep(start, step, k);
      }
    }
  }

  lemma ShiftStep(start: nat, step: nat, k: nat)
    requires k >= 1
    ensures start + step + (k - 1) * step == start + k * step
  {
    assert k * step == (k - 1) * step + step;
  }

  /** No window holds more than `chunkSize` tokens, and the text of window k is the
      decoding of tokens `k * step` up to `k * step + chunkSize`, clipped at the end. */
  lemma WindowsBounded(tokens: seq<Token>, size: nat, overlap: int, decode: seq<Token> -> string)
    requires 0 < size && overlap < size
    ensures var rs := Ranges(|tokens|, size, overlap);
      forall k :: 0 <= k < |rs| ==> rs[k].hi - rs[k].lo <= size && rs[k].lo == k * (size - overlap)
  {
    WindowLayout(0, |tokens|, size, size - overlap);
  }

  /** Empty input gives no windows and no chunks. */
  lemma EmptyInputNoChunks(size: nat, overlap: int, decode: seq<Token> -> string)
    requires overlap < size
    ensures Ranges(0, size, overlap) == []
    ensures SlidingChunks([], size, overlap, decode) == []
  {
  }

  /** The window that covers token `i`. */
  function CoveringWindow(i: nat, n: nat, size: nat, step: nat): nat
    requires step > 0
  {
    var count := |RangesFrom(0, n, size, step)|;
    if count == 0 then 0 else Min(i / step, count - 1)
  }

  /** With a non-negative overlap every token lies in some window. */
  lemma Coverage(i: nat, n: nat, size: nat, overlap: int)
    requires 0 <= overlap < size && i < n
    ensures var rs := Ranges(n, size, overlap);
      var k := CoveringWindow(i, n, size, size - overlap);
      k < |rs| && rs[k].lo <= i < rs[k].hi
  {
    var step := size - overlap;
    var rs := Ranges(n, size, overlap);
    WindowLayout(0, n, size, step);
    var k := CoveringWindow(i, n, size, step);
    var q := i / step;
    DivBounds(i, step);
    if q <= |rs| - 1 {
      assert k == q;
      assert rs[k].lo == q * step && rs[k].hi == Min(q * step + size, n);
    } else {
      assert k == |rs| - 1;
      MulMonotone(k, q, step);
      assert rs[k].lo == k * step && rs[k].hi == n;
    }
  }

  lemma DivBounds(i: nat, step: nat)
    requires step > 0
    ensures (i / step) * step <= i < (i / step) * step + step
  {
  }

  lemma MulMonotone(a: nat, b: nat, c: nat)
    requires a <= b
    ensures a * c <= b * c
  {
  }

  /** Consecutive windows share exactly `overlap` token positions. */
  lemma ConsecutiveOverlap(n: nat, size: nat, overlap: int, k: nat)
    requires 0 <= overlap < size
    requires k + 1 < |Ranges(n, size, overlap)|
    ensures var rs := Ranges(n, size, overlap);
      rs[k].hi - rs[k + 1].lo == overlap && rs[k].hi - rs[k].lo == size
  {
    var step := size - overlap;
    WindowLayout(0, n, size, step);
    assert (k + 1) * step == k * step + step;
  }

  /** `chunk_text` dispatch: `hybrid` is `semantic`, and every mode other than those
      two is the sliding window with the given size and overlap. */
  lemma ModeDispatch(text: string, mode: string, chunkSize: nat, overlap: int,
                     respond: string -> string, parse: string -> Reply,
                     encode: string -> seq<Token>, decode: seq<Token> -> string)
    requires 0 < chunkSize && overlap < chunkSize
    ensures ChunkText(text, "hybrid", chunkSize, overlap, respond, parse, encode, decode)
         == ChunkText(text, "semantic", chunkSize, overlap, respond, parse, encode, decode)
    ensures mode != "semantic" && mode != "hybrid" ==>
      ChunkText(text, mode, chunkSize, overlap, respond, parse, encode, decode)
        == Some(SlidingChunks(encode(text), chunkSize, overlap, decode))
  {
  }

  /** A reply that is not JSON falls back to the 500/100 window over the whole text. */
  lemma SemanticFallback(text: string, respond: string -> string, parse: string -> Reply,
                         encode: string -> seq<Token>, decode: seq<Token> -> string)
    requires parse(CleanReply(respond(SemanticPrompt(text)))) == NotJson
    ensures SemanticChunk(text, respond, parse, encode, decode)
         == Some(SlidingChunks(encode(text), 500, 100, decode))
  {
  }

  /** A reply fenced as a `json` code block is read as the body inside the fence. */
  lemma FencedReply(body: string)
    requires body != [] && !PyIsSpace(body[0]) && !PyIsSpace(body[|body| - 1])
    ensures CleanReply("```json\n" + body + "\n```") == body
  {
    var u := body + "\n```";
    var s := "```json\n" + u;
    assert "```json\n" + body + "\n```" == s;
    StripUnfenced(s);
    OpeningFence(u);
    ClosingFence(body);
  }

  lemma OpeningFence(u: string)
    requires u != [] && !PyIsSpace(u[0])
    ensures DropOpeningFence("```json\n" + u) == u
  {
    var s := "```json\n" + u;
    assert s[..7] == "```json";
    assert s[7..] == "\n" + u;
    TrimNewlineStart(u);
  }

  lemma ClosingFence(body: string)
    requires body != [] && !PyIsSpace(body[|body| - 1])
    ensures DropClosingFence(body + "\n```") == body
  {
    var u := body + "\n```";
    assert u[|u| - 3..] == "```";
    assert u[..|u| - 3] == body + "\n";
    TrimNewlineEnd(body);
  }

  lemma StripUnfenced(s: string)
    requires |s| >= 1 && s[0] == '`' && s[|s| - 1] == '`'
    ensures Strip(s, PyIsSpace) == s
  {
  }

  lemma TrimNewlineStart(u: string)
    requires u != [] && !PyIsSpace(u[0])
    ensures TrimStart("\n" + u, PyIsSpace) == u
  {
    assert ("\n" + u)[1..] == u;
  }

  lemma TrimNewlineEnd(v: string)
    requires v != [] && !PyIsSpace(v[|v| - 1])
    ensures TrimEnd(v + "\n", PyIsSpace) == v
  {
    assert (v + "\n")[..|v|] == v;
  }

  /** A reply without fences or surrounding whitespace is read unchanged. */
  lemma UnfencedReply(reply: string)
    requires reply != [] && !PyIsSpace(reply[0]) && !PyIsSpace(reply[|reply| - 1])
    requires !StartsWith(reply, "```") && !EndsWith(reply, "```")
    ensures CleanReply(reply) == reply
  {
    StripKeeps(reply, PyIsSpace);
    assert "```json"[..3] == "```";
  }
}
