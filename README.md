# A verified model of a retrieval-augmented question-answering app

The application lets a user upload documents, which are cleaned, cut into
chunks, embedded and stored in a vector database. The user can then ask
questions. The server retrieves the closest chunks, optionally reranks them
with a language model, and streams an answer as server-sent events. A React
page decodes that stream and shows the answer.

This project models the logic of that path in Dafny:

- **Stream decoder.** The browser side of `queryKnowledgeStream`: the read
  loop, the carried buffer, the line dispatch, the final flush and the error
  handling. It is an imperative method proved against functions that state
  the callbacks it fires.
- **Chat window.** `ChatWindow` as a class holding the message list, the
  input and the loading flag. Its four stream callbacks and `handleSend` are
  methods.
- **Query endpoints.** The in-place rerank of the hits by model scores (a
  stable descending sort on an array), the `retrieval` and `contexts` lists,
  the non-streaming response and the frames of the streaming response.
- **Stream round trip.** The proof that the frames the server writes come
  out of the decoder as exactly the callbacks they stand for, when each read
  holds whole frames. There are also examples of what happens when a read
  boundary falls inside a frame.
- **Prompt assembly.** The numbered context list, the two chat messages and
  the `[System]`/`[User]` prompt text, and the filter that drops empty
  streamed deltas.
- **Text cleaning and chunking.** The six regular-expression passes of
  `clean_text` and its strips; the sliding-window chunker as a loop over
  token windows; the semantic chunker's fence stripping, JSON outcomes and
  fallback.
- **Document endpoints.** Form validation, file-type detection, the upload
  pipeline, the in-memory document registry (upload, list, chunk results,
  vector-store view, delete) and the chunk-results record.
- **Settings endpoints.** Key masking and the whitelisted, mask-aware save.
- **JSON highlighter.** The document page's `syntaxHighlight` regular
  expression, its span markup, and the text a browser shows for the
  resulting HTML.
- **Option store.** The frontend store of upload and query options with its
  setters.

External services are parameters of the functions that use them. These are
the language-model replies, the embeddings, the tokenizer, the vector
search, JSON encoding and decoding, rounding, ids and clocks. Every property
therefore holds for every value those services may return. A service call that
raises instead of returning is not modelled (see "## Left out").

## Model

| member | source | states |
|---|---|---|
| Text.Split | frontend/src/api/ragApi.ts:173 | splitting on one character gives at least one piece, no piece holds the separator, and joining the pieces gives the text back |
| Text.SplitJoin | backend/services/clean_service.py:21-22 | splitting a join of separator-free pieces gives those pieces back (the other half of the round trip) |
| Text.Strip | backend/services/clean_service.py:24 | the result is a slice of the text with no whitespace at either end, and it is empty exactly when the text is blank |
| Text.StripEnds | backend/services/clean_service.py:24 | everything `strip()` cuts away, before and after the kept slice, is whitespace |
| Text.StripKeeps | backend/services/clean_service.py:24 | a text with no whitespace at either end is left unchanged by `strip()` |
| Text.NatToStringParses | backend/api/query.py:18 | the decimal rendering of an index is non-empty, all digits, has no leading zero and parses back to the index |
| Text.NatToStringInjective | backend/services/llm_service.py:53 | distinct indexes get distinct numerals, so the numbered entries can be told apart |
| StreamDecoder.Route | frontend/src/api/ragApi.ts:183-189 | a data line fires at most one callback and never an error; it fires one exactly for `delta`, `done`, or `metadata` outside the final flush |
| StreamDecoder.ProcessLines | frontend/src/api/ragApi.ts:177-191 | the line loop fires the callbacks of `Dispatch` and stops at the first JSON parse failure |
| StreamDecoder.QueryKnowledgeStream | frontend/src/api/ragApi.ts:142-218 | the method fires exactly the callback trace of `Trace`, given the fetch outcome, the chunks read and how the stream ended |
| StreamDecoder.ReadChunks | frontend/src/api/ragApi.ts:167-193 | the read loop ends in the state `ReadLoop` describes: the callbacks fired, the first failure and the carried buffer |
| StreamDecoder.ReadSplitsAtLastNewline | frontend/src/api/ragApi.ts:172-175 | after a read, the kept buffer holds no newline, and the complete lines, a newline and the buffer make up the text read so far |
| StreamDecoder.CarriedBufferHasNoNewline | frontend/src/api/ragApi.ts:175 | the buffer carried between reads never holds a newline |
| StreamDecoder.ReadStep | frontend/src/api/ragApi.ts:168-193 | one read without error dispatches the complete lines and carries the rest into the next read |
| StreamDecoder.EventDataPair | frontend/src/api/ragApi.ts:179-190 | an `event:` line followed by a parsable `data:` line fires the event's route and resets the event name |
| StreamDecoder.DataWithoutEvent | frontend/src/api/ragApi.ts:181-190 | a `data:` line with no preceding event name fires nothing |
| StreamDecoder.DispatchAppends | frontend/src/api/ragApi.ts:178-192 | the line loop only appends to the callbacks already fired, and what it appends is never an error |
| StreamDecoder.FlushFiresNothing | frontend/src/api/ragApi.ts:196-212 | a newline-free leftover fires no callback (so `metadata` is never delivered there); it throws exactly when it is a non-blank data line whose JSON fails to parse |
| StreamDecoder.ReadLoopAppends | frontend/src/api/ragApi.ts:168-193 | the read loop only appends callbacks and appends no error |
| StreamDecoder.ReadLoopPrefix | frontend/src/api/ragApi.ts:168-193 | what the first n reads fire is a prefix of what all reads fire |
| StreamDecoder.ErrorIsLastAndNeverAbort | frontend/src/api/ragApi.ts:213-216 | at most one error is reported, it is the last callback, and it is never an abort |
| StreamDecoder.HttpErrorOnly | frontend/src/api/ragApi.ts:160-162 | a response that is not ok yields exactly one error, `HTTP <status>: <text>`, and nothing else |
| StreamDecoder.AbortIsSilent | frontend/src/api/ragApi.ts:213-216 | an abort, whether of the fetch or of a read, reports no error |
| ChatWindow.WithMetadata | frontend/src/components/ChatWindow.tsx:45-58 | only the last message changes; it keeps its role and text and gains the retrieval, contexts, rerank flag and prompt |
| ChatWindow.WithDelta | frontend/src/components/ChatWindow.tsx:59-69 | only the last message changes: the fragment is appended to its text |
| ChatWindow.WithError | frontend/src/components/ChatWindow.tsx:73-83 | only the last message changes: its text becomes `查询失败: ` and the error message |
| ChatWindow.ChatWindow.constructor | frontend/src/components/ChatWindow.tsx:16-18 | the window starts with no messages, an empty input and not loading |
| ChatWindow.ChatWindow.OnMetadata | frontend/src/components/ChatWindow.tsx:45-58 | the last message takes the payload's four metadata members, or loses them all when the payload has none; input and loading are unchanged |
| ChatWindow.WithoutMetadata | frontend/src/components/ChatWindow.tsx:45-58 | metadata from a payload without the four members leaves the last message with its role and text and none of the four |
| ChatWindow.ChatWindow.OnDelta | frontend/src/components/ChatWindow.tsx:59-69 | the messages become `WithDelta` of the old ones; input and loading are unchanged |
| ChatWindow.ChatWindow.OnDone | frontend/src/components/ChatWindow.tsx:70-72 | loading ends and nothing else changes |
| ChatWindow.ChatWindow.OnError | frontend/src/components/ChatWindow.tsx:73-83 | the messages become `WithError` of the old ones and loading ends |
| ChatWindow.ChatWindow.HandleSend | frontend/src/components/ChatWindow.tsx:26-86 | a blank question or a send while loading changes nothing; otherwise the input is cleared, the question and an empty answer are appended, and the state is the fold of the stream's callbacks |
| ChatWindow.ChatWindow.Submit | frontend/src/components/ChatWindow.tsx:30-35 | the question and an empty assistant answer are appended after the earlier messages, the input is cleared and loading starts |
| ChatWindow.ChatWindow.Consume | frontend/src/components/ChatWindow.tsx:37-85 | after the stream's callbacks the messages and loading flag are the fold of the trace over the state before; the input is untouched |
| ChatWindow.ChatWindow.Deliver | frontend/src/components/ChatWindow.tsx:45-83 | one callback changes the messages and loading flag exactly as `Apply` says, whichever of the four it is and whatever the shape of its payload; the delta handler gets the payload's `content` member (frontend/src/api/ragApi.ts:186) |
| ChatWindow.MismatchedPayloads | frontend/src/api/ragApi.ts:182-187 | a delta event carrying a metadata payload appends `undefined` to the answer, and a metadata event carrying a delta payload strips the answer of its four members; neither changes `loading` |
| ChatWindow.FoldKeepsEarlier | frontend/src/components/ChatWindow.tsx:45-83 | no callback sequence adds or removes messages, changes an earlier message or changes the last one's role |
| ChatWindow.DeltasConcatenate | frontend/src/components/ChatWindow.tsx:59-69 | a run of delta callbacks appends the concatenation of the fragments to the last message |
| ChatWindow.ThinkingIndicator | frontend/src/components/ChatWindow.tsx:178 | the typing indicator shows after sending and after the metadata, and stays after a delta exactly when the fragment is empty |
| ChatWindow.ErrorHidesThinking | frontend/src/components/ChatWindow.tsx:73-83 | after an error the indicator is gone and the last message starts with the error prefix |
| ChatWindow.SendAndReceive | frontend/src/components/ChatWindow.tsx:26-86 | a question sent against a server with hits ends with loading off and the conversation extended by the question and an answer carrying the streamed text, the contexts, the retrieval, the rerank flag and the prompt |
| ChatWindow.FoldServerCallbacks | frontend/src/components/ChatWindow.tsx:45-72 | metadata, then deltas, then done turn the empty answer into the full answer and end loading |
| ChatWindow.MetadataOnFreshAnswer | frontend/src/components/ChatWindow.tsx:45-58 | metadata on the fresh empty answer attaches the four fields and keeps it empty |
| ChatWindow.FoldAppend | frontend/src/components/ChatWindow.tsx:45-83 | applying two callback runs in turn equals applying their concatenation |
| QueryApi.Insert | backend/api/query.py:39 | inserting a hit adds exactly that hit |
| QueryApi.InsertSorted | backend/api/query.py:39 | inserting into a list sorted by descending rerank score keeps it sorted |
| QueryApi.StableSortDesc | backend/api/query.py:39 | the sort is a permutation and is sorted by descending rerank score (a missing score counts as 0) |
| QueryApi.WithScores | backend/api/query.py:36-38 | hit i gets score i and nothing else changes |
| QueryApi.RerankChunks | backend/api/query.py:12-43 | the array ends as the reranked order of its old contents |
| QueryApi.NumberedChunks | backend/api/query.py:17-18 | entry k is `[k] ` followed by chunk k's content |
| QueryApi.Contexts | backend/api/query.py:117 | the contexts are the hits' contents, in order |
| QueryApi.BuildRetrieval | backend/api/query.py:108-114 | one retrieval record per hit, in order, with the hit's content and score, and a rerank score exactly when the hit has one |
| QueryApi.DeltaFrames | backend/api/query.py:132-133 | one `delta` frame per fragment, in order, with the fragment's JSON |
| QueryApi.InsertFilter | backend/api/query.py:39 | insertion puts a hit ahead of every hit with an equal score that is already in the list |
| QueryApi.SortIsStable | backend/api/query.py:39 | the sort keeps the input order among hits with equal scores |
| QueryApi.RerankOutcome | backend/api/query.py:28-41 | with as many scores as hits, the result is the scored hits, sorted and stable; otherwise (failed call, bad JSON, wrong count) the order is unchanged |
| QueryApi.RerankKeepsHits | backend/api/query.py:36-43 | every reranked hit is one of the original hits with its content, document and score |
| QueryApi.RerankPromptLists | backend/api/query.py:20-26 | the rerank prompt ends with the numbered paragraphs, one per line |
| QueryApi.RetrievalParallelsContexts | backend/api/query.py:108-117 | retrieval and contexts have one entry per hit and agree on each entry's content |
| QueryApi.NoHitsStream | backend/api/query.py:97-101 | with no hits the stream is empty metadata, the not-found answer as one delta, then `done` |
| QueryApi.StreamShape | backend/api/query.py:90-136 | with hits the stream is one metadata frame, one delta frame per non-empty model delta, then `done` |
| QueryApi.StreamMetadataMatchesQuery | backend/api/query.py:46-83 | the non-streaming answer carries the same retrieval, contexts, rerank flag and prompt as the streaming metadata |
| StreamRoundTrip.WireLines | backend/api/query.py:129-136 | the wire text of the frames splits into their event and data lines, each frame followed by a blank line |
| StreamRoundTrip.DispatchFrames | frontend/src/api/ragApi.ts:178-191 | dispatching the lines of frames with parsable data fires one routed callback per frame |
| StreamRoundTrip.WholeFramesRead | frontend/src/api/ragApi.ts:172-191 | a read that holds whole frames leaves no carried buffer and fires the frames' callbacks |
| StreamRoundTrip.Wires | backend/api/query.py:129-136 | each read carries the wire text of its batch of frames |
| StreamRoundTrip.FrameCallbacksAppend | frontend/src/api/ragApi.ts:178-191 | the callbacks of two frame runs are the callbacks of each run, concatenated |
| StreamRoundTrip.FrameAlignedReads | frontend/src/api/ragApi.ts:168-193 | reads that end on frame boundaries fire the callbacks of all frames and leave no buffer |
| StreamRoundTrip.FrameAlignedTrace | frontend/src/api/ragApi.ts:142-218 | over an ok response with frame-aligned reads the trace is exactly the frames' callbacks |
| StreamRoundTrip.ServerStreamRoundTrip | backend/api/query.py:90-136 | the server's stream, read in one piece, is decoded into the metadata callback, one delta per non-empty model delta and `done` |
| StreamRoundTrip.ServerFramesDecoded | frontend/src/api/ragApi.ts:142-218 | a metadata frame, delta frames and a done frame decode to the matching callbacks |
| StreamRoundTrip.DeltaFramesDecoded | frontend/src/api/ragApi.ts:185-186 | delta frames decode to delta callbacks with the same fragments |
| StreamRoundTrip.DoneDoesNotStopReading | frontend/src/api/ragApi.ts:187-188 | `done` fires its callback but the decoder goes on, so a later delta is still delivered |
| StreamRoundTrip.PairInOneRead | frontend/src/api/ragApi.ts:177-191 | an event line and its data line in one read fire the event's callback |
| StreamRoundTrip.PairInTwoReads | frontend/src/api/ragApi.ts:177 | an event line and its data line in two reads fire nothing |
| StreamRoundTrip.ReadBoundaryLosesEvent | frontend/src/api/ragApi.ts:177 | the same frame fires its callback when read whole and is lost when a read ends between its two lines |
| CarriedEvent.ScanAgrees | frontend/src/api/ragApi.ts:178-191 | the corrected scan, which also returns the pending event name, fires the same callbacks as the line loop |
| CarriedEvent.ScanAppend | frontend/src/api/ragApi.ts:178-191 | scanning two line runs equals scanning the second from the state the first left |
| CarriedEvent.LinesOfConcat | frontend/src/api/ragApi.ts:172-175 | the complete lines of two reads are those of the first plus those of its leftover and the second read |
| CarriedEvent.ReadsAsOne | frontend/src/api/ragApi.ts:168-193 | with the event name carried across reads, any split of the text fires what one read of the whole text fires |
| CarriedEvent.ChunkingIrrelevant | frontend/src/api/ragApi.ts:142-218 | with the event name carried, the callback trace does not depend on how the stream is cut into reads |
| CarriedEvent.SingleReadUnchanged | frontend/src/api/ragApi.ts:168-193 | on a single read the corrected loop behaves exactly like the one written |
| CarriedEvent.CarriedPairInTwoReads | frontend/src/api/ragApi.ts:177 | with the event name carried, an event line and its data line in two reads fire the event's callback |
| PromptBuilder.NumberedContexts | backend/services/llm_service.py:53 | entry k is `k+1. ` followed by context k |
| PromptBuilder.BuildRequest | backend/services/llm_service.py:55-66 | two messages, the system instruction then the user content, and the shown prompt is built from those two |
| PromptBuilder.NonEmptyDeltas | backend/services/llm_service.py:99-102 | no emitted fragment is empty, and there are no more fragments than deltas |
| PromptBuilder.StreamDeltas | backend/services/llm_service.py:92-102 | the generator loop emits exactly the non-empty deltas, in order |
| PromptBuilder.NonEmptyDeltasKeepText | backend/services/llm_service.py:99-102 | dropping empty deltas loses no text |
| PromptBuilder.GenerateAndStreamAgree | backend/services/llm_service.py:51-104 | both entry points build the same prompt; one returns the model's answer, the other its non-empty deltas |
| PromptBuilder.ContextTextEmpty | backend/services/llm_service.py:53 | no contexts give an empty context block |
| PromptBuilder.ContextTextSnoc | backend/services/llm_service.py:53 | one more context adds a line numbered one past the previous count |
| PromptBuilder.PromptLayout | backend/services/llm_service.py:59-66 | the shown prompt is `[System]`, the instruction, `[User]`, the references and the question; it starts with the system part and ends with the question |
| Chunking.RangesFrom | backend/services/chunk_service.py:17-26 | every window lies within the tokens, from the start position on |
| Chunking.Ranges | backend/services/chunk_service.py:17-26 | every window lies within the tokens |
| Chunking.Decoded | backend/services/chunk_service.py:20-21 | text k is the decoding of window k's tokens |
| Chunking.KeepNonBlank | backend/services/chunk_service.py:22-23 | filtering never adds texts |
| Chunking.SlidingWindowChunk | backend/services/chunk_service.py:11-28 | the method returns the stripped, non-blank decodings of the windows, in order |
| Chunking.WindowLoop | backend/services/chunk_service.py:16-26 | the `while` loop collects what the window-by-window definition collects |
| Chunking.WindowsOneByOne | backend/services/chunk_service.py:16-26 | the loop's result is the filter applied to each window's decoding, in window order |
| Chunking.SlidingByWindows | backend/services/chunk_service.py:11-28 | the loop with step size minus overlap computes the sliding chunks |
| Chunking.KeepEachKept | backend/services/chunk_service.py:22-23 | keeping window by window equals filtering the whole list |
| Chunking.SemanticPrompt | backend/services/chunk_service.py:33-39 | the prompt is the instruction followed by at most the first 8000 characters of the text |
| Chunking.KeepNonBlankAppend | backend/services/chunk_service.py:60 | the filter distributes over concatenation |
| Chunking.KeptAreTrimmed | backend/services/chunk_service.py:60 | every kept chunk is non-empty with no whitespace at either end |
| Chunking.KeepNonBlankIdempotent | backend/services/chunk_service.py:60 | filtering twice equals filtering once |
| Chunking.WindowLayout | backend/services/chunk_service.py:17-26 | window k starts at start + k·step and ends at the smaller of its start plus size and the token count; only the last window reaches the end, and when step ≤ size it does reach it |
| Chunking.WindowsBounded | backend/services/chunk_service.py:19-20 | no window is longer than the chunk size, and window k starts at k·(size − overlap) |
| Chunking.EmptyInputNoChunks | backend/services/chunk_service.py:18 | no tokens give no windows and no chunks |
| Chunking.Coverage | backend/services/chunk_service.py:17-26 | with a non-negative overlap every token lies in some window |
| Chunking.ConsecutiveOverlap | backend/services/chunk_service.py:19-26 | every window but the last is full, and consecutive windows share exactly `overlap` tokens |
| Chunking.ModeDispatch | backend/services/chunk_service.py:63-79 | `hybrid` behaves as `semantic`, and any mode other than those two slides with the given size and overlap |
| Chunking.SemanticFallback | backend/services/chunk_service.py:55-58 | a reply that is not JSON falls back to the sliding window with 500 and 100 |
| Chunking.FencedReply | backend/services/chunk_service.py:49-51 | a reply wrapped in a `json` code fence is unwrapped to its body |
| Chunking.UnfencedReply | backend/services/chunk_service.py:49-51 | a stripped reply without fences is left as it is |
| SettingsApi.Mask | backend/api/settings.py:29-33 | the masked key has the key's length; a key of at most 8 characters is all stars; a longer one keeps its first and last four characters and stars the rest |
| SettingsApi.View | backend/api/settings.py:36-44 | the view has exactly the three keys: both API keys masked and the base URL as stored (missing ones as empty) |
| SettingsApi.SaveSettings | backend/api/settings.py:47-65 | the save loop computes `Saved` |
| SettingsApi.VisitKey | backend/api/settings.py:52-57 | visiting one more key writes it exactly when the body has it with a non-empty, star-free value |
| SettingsApi.MaskShowsStar | backend/api/settings.py:29-33 | every masked non-empty key holds a star, so a save never stores it |
| SettingsApi.SaveIff | backend/api/settings.py:52-57 | a key takes the body's value exactly when it is whitelisted and the value is non-empty and star-free; any other key keeps its stored value or stays absent |
| SettingsApi.IgnoresOtherKeys | backend/api/settings.py:52 | keys outside the whitelist are never written |
| SettingsApi.SaveViewUnchanged | backend/api/settings.py:36-65 | saving back what the settings view shows changes nothing |
| SettingsApi.SaveIdempotent | backend/api/settings.py:47-65 | saving the same body twice equals saving it once |
| TextCleaning.Match | backend/services/clean_service.py:7-18 | a match of each expression is longer than its replacement |
| TextCleaning.Sub | backend/services/clean_service.py:7-18 | a substitution never lengthens the text and adds no control character |
| TextCleaning.RemoveControl | backend/services/clean_service.py:12 | the result has no control character and is no longer than the input |
| TextCleaning.RemoveControlKeeps | backend/services/clean_service.py:12 | text without control characters is left unchanged |
| TextCleaning.Spaced | backend/services/clean_service.py:7-18 | after the six passes the text has no control character and no two adjacent blanks, and is no longer than before |
| TextCleaning.BlankRunsCollapsed | backend/services/clean_service.py:18 | after the blank pass no two adjacent characters are spaces or tabs |
| TextCleaning.StripEach | backend/services/clean_service.py:21 | line k is line k stripped |
| TextCleaning.StripEachKeeps | backend/services/clean_service.py:21 | stripping lines that are already trimmed leaves every one of them unchanged |
| TextCleaning.CleanText | backend/services/clean_service.py:4-24 | the cleaned text has no whitespace at either end |
| TextCleaning.CleanLinesTrimmed | backend/services/clean_service.py:21-24 | every line of the cleaned text has no whitespace at either end |
| TextCleaning.CleanNoControl | backend/services/clean_service.py:12-24 | the cleaned text holds no control character |
| TextCleaning.CleanNoDoubleBlank | backend/services/clean_service.py:18-24 | the cleaned text holds no two adjacent spaces or tabs |
| TextCleaning.CleanShrinks | backend/services/clean_service.py:4-24 | cleaning never lengthens the text |
| TextCleaning.SubNoMatch | backend/services/clean_service.py:7-18 | a substitution with no match leaves the text unchanged |
| TextCleaning.QuietPasses | backend/services/clean_service.py:7-12 | text with no page-marker lead character and no control character passes the first four passes unchanged |
| TextCleaning.NewlinePassQuiet | backend/services/clean_service.py:15 | text with no run of three newlines passes the newline pass unchanged |
| TextCleaning.BlankPassQuiet | backend/services/clean_service.py:18 | text with no two adjacent blanks passes the blank pass unchanged |
| TextCleaning.CleanNotIdempotent | backend/services/clean_service.py:15-24 | newline runs are collapsed before blank lines are emptied, so `a\n \n \nb` cleans to `a\n\n\nb` and that cleans again to `a\n\nb` |
| DocumentApi.ValidateForm | backend/api/document.py:34-41 | the form passes exactly when the size is 50 to 5000, the overlap is 0 to below the size, and the provider and mode are known; otherwise the first failing check is reported |
| DocumentApi.EffectiveName | backend/api/document.py:44 | the name used is never empty, and a non-empty client name is used as is |
| DocumentApi.AfterLastDot | backend/api/document.py:45 | the result is the suffix after the last dot: it holds no dot and is preceded by one when shorter than the name |
| DocumentApi.Lower | backend/api/document.py:45 | each character is lowered, and the length is kept |
| DocumentApi.Extension | backend/api/document.py:45 | the extension holds no dot |
| DocumentApi.ExtensionOfDotted | backend/api/document.py:45 | the extension of `stem.ext` is `ext` lowered, whatever the stem holds |
| DocumentApi.AfterDotted | backend/api/document.py:45 | the text after the last dot of `stem.ext` is `ext` |
| DocumentApi.MissingNameIsText | backend/api/document.py:44-46 | a missing or empty name becomes `unknown`, whose type is `txt`, which is accepted |
| DocumentApi.DefaultFormValid | backend/api/document.py:27-41 | the form defaults pass validation |
| DocumentApi.FormCheckedFirst | backend/api/document.py:34-37 | a bad size or overlap fails the upload before anything else is done |
| DocumentApi.StoredChunksStripped | backend/api/document.py:60-75 | an upload that succeeds has a valid size and overlap and at least one chunk, each non-empty with no whitespace at either end |
| DocumentApi.ChunksStripped | backend/services/chunk_service.py:63-79 | every chunking mode returns chunks with no whitespace at either end |
| DocumentApi.SemanticStripped | backend/services/chunk_service.py:52-60 | the semantic chunker, fallback included, returns stripped chunks |
| DocumentApi.KeptStripped | backend/services/chunk_service.py:60 | the kept chunks are all stripped |
| DocumentApi.RoundAll | backend/api/document.py:227 | value k is value k rounded |
| DocumentApi.ChunkEntries | backend/api/document.py:220-228 | one entry per chunk that has a vector, with its index, content, character count, token count, vector length and first eight rounded values |
| DocumentApi.RecordOf | backend/api/document.py:143-155 | a record holds the vector's length, its first 16 and last 4 values rounded, the id or 0, and the row's document and content |
| DocumentApi.MilvusRecords | backend/api/document.py:142-155 | record i is the view of row i |
| DocumentApi.Removed | backend/api/document.py:188 | the id is gone, every other id stays, and ids stay distinct |
| DocumentApi.DocumentRegistry.constructor | backend/api/document.py:21 | the registry starts empty |
| DocumentApi.DocumentRegistry.List | backend/api/document.py:117-120 | the list holds one record per registered document, in the order of registration |
| DocumentApi.DocumentRegistry.Insert | backend/api/document.py:106 | the record is stored under its id; a new id is listed last |
| DocumentApi.DocumentRegistry.Record | backend/api/document.py:84-106 | the chunk-results record is stored under the id and the document is registered, keeping the registry's invariant |
| DocumentApi.DocumentRegistry.Upload | backend/api/document.py:24-114 | a failure changes nothing and returns the first failure; a success registers the document as `completed` with its chunk count, stores its chunk-results record, whose entries describe the chunks and their embeddings one by one, and returns the reply built from the record |
| DocumentApi.DocumentRegistry.GetChunkResults | backend/api/document.py:123-130 | the stored chunk results, or `分块结果不存在` for an unknown id |
| DocumentApi.DocumentRegistry.MilvusData | backend/api/document.py:133-174 | an unknown document is `文档不存在`; otherwise the collection is prefix `_` provider, the dimension is the provider's or 1536, and there is one record per stored row |
| DocumentApi.DocumentRegistry.Delete | backend/api/document.py:177-190 | a known document and its chunk results are removed and its vectors deleted from the stored provider's collection; an unknown id is `文档不存在` with nothing changed |
| DocumentApi.DeleteUndoesInsert | backend/api/document.py:106-188 | deleting a freshly uploaded document restores the registry and its order |
| DocumentApi.RemovedAbsent | backend/api/document.py:188 | removing an absent id leaves the order unchanged |
| DocumentApi.RemovedLast | backend/api/document.py:188 | removing the id just appended equals removing it from the earlier order |
| JsonHighlight.StringEnd | frontend/src/pages/DocumentListPage.tsx:326 | a string body match ends after a closing quote, within the text |
| JsonHighlight.KeywordEnd | frontend/src/pages/DocumentListPage.tsx:326 | a keyword match spans exactly the keyword |
| JsonHighlight.MatchEnd | frontend/src/pages/DocumentListPage.tsx:326 | a match is non-empty and lies within the text |
| JsonHighlight.Tokenize | frontend/src/pages/DocumentListPage.tsx:325-326 | every matched token is non-empty |
| JsonHighlight.TokenizeFlatten | frontend/src/pages/DocumentListPage.tsx:325-326 | the gaps and matches, put back together, are exactly the input text |
| JsonHighlight.Classify | frontend/src/pages/DocumentListPage.tsx:328-341 | a key ends with a colon |
| JsonHighlight.QuotedClass | frontend/src/pages/DocumentListPage.tsx:329-336 | a quoted match is a key exactly when a colon follows the closing quote after optional whitespace, and a string value otherwise |
| JsonHighlight.KeywordClass | frontend/src/pages/DocumentListPage.tsx:337-341 | `null` is classed as null, and `true` and `false` as booleans |
| JsonHighlight.NumberClass | frontend/src/pages/DocumentListPage.tsx:328 | a match starting with a digit or a minus is classed as a number |
| JsonHighlight.TagHidden | frontend/src/pages/DocumentListPage.tsx:319 | a tag shows no text |
| JsonHighlight.OpenTagHidden | frontend/src/pages/DocumentListPage.tsx:333-342 | the opening span shows no text |
| JsonHighlight.CloseTagHidden | frontend/src/pages/DocumentListPage.tsx:333-342 | the closing span shows no text |
| JsonHighlight.EscapeCharShown | frontend/src/pages/DocumentListPage.tsx:319 | an escaped character shows as itself |
| JsonHighlight.KeyShown | frontend/src/pages/DocumentListPage.tsx:333 | a key's markup, with the colon outside the span, shows the key with its colon |
| JsonHighlight.ValueShown | frontend/src/pages/DocumentListPage.tsx:342 | any other match's markup shows the match |
| JsonHighlight.RenderShown | frontend/src/pages/DocumentListPage.tsx:325-343 | escaped rendering shows the gaps and matches, in order |
| JsonHighlight.EscapedShowsJson | frontend/src/pages/DocumentListPage.tsx:314-345 | with matches and gaps escaped, the page shows exactly the JSON text |
| JsonHighlight.RenderAgrees | frontend/src/pages/DocumentListPage.tsx:325-343 | on text without `<`, `>` or `&` escaping changes nothing |
| JsonHighlight.PieceAgrees | frontend/src/pages/DocumentListPage.tsx:325-343 | a gap or a match without `<`, `>` or `&` becomes the same HTML whether or not it is escaped |
| JsonHighlight.MarkupAgrees | frontend/src/pages/DocumentListPage.tsx:328-342 | the span around a match without `<`, `>` or `&`, including a key's span with its colon outside, is the same whether or not the text is escaped |
| JsonHighlight.PlainJsonShown | frontend/src/pages/DocumentListPage.tsx:314-345 | as written, the page shows the JSON text exactly when it holds no `<`, `>` or `&` |
| JsonHighlight.TagInStringHidden | frontend/src/pages/DocumentListPage.tsx:314-345 | as written, the JSON string `"<b>"` shows as `""`: the tag inside the string is taken as markup |
| AppStore.Store.constructor | frontend/src/store/appStore.ts:18-24 | the store starts at openai, sliding, 500, 100, 5 and rerank on |
| AppStore.Store.SetModelProvider | frontend/src/store/appStore.ts:25 | only the provider changes |
| AppStore.Store.SetChunkMode | frontend/src/store/appStore.ts:26 | only the chunk mode changes |
| AppStore.Store.SetChunkSize | frontend/src/store/appStore.ts:27 | only the chunk size changes |
| AppStore.Store.SetOverlap | frontend/src/store/appStore.ts:28 | only the overlap changes |
| AppStore.Store.SetTopK | frontend/src/store/appStore.ts:29 | only top-k changes |
| AppStore.Store.SetUseRerank | frontend/src/store/appStore.ts:30 | only the rerank flag changes |
| AppStore.FormOf | frontend/src/components/FileUploader.tsx:19-24 | the upload form carries the store's chunk mode, chunk size, overlap and provider |
| AppStore.InitialOptionsAccepted | frontend/src/store/appStore.ts:19-24 | the store's initial options are the server's form defaults and pass its validation |
| AppStore.UncheckedSizeRejected | frontend/src/store/appStore.ts:27 | the setter stores any size, and a size outside 50 to 5000 is rejected by the server |
| AppStore.UncheckedOverlapRejected | frontend/src/store/appStore.ts:28 | the setter stores any overlap, and one that is negative or not below a valid size is rejected by the server |

## Left out

- The network, the fetch API, the response body reader and `TextDecoder` are left out. The decoder is given the fetch outcome, the decoded chunks and how the stream ended (end, or a read rejected with some error).
- `JSON.parse`, `json.loads` and `json.dumps` are parameters. The round-trip lemmas assume that parsing what was dumped gives the value back and that dumped text holds no newline.
- Exceptions raised by the external services are not modelled: `respond`, `embed`, `encode`, `decode`, `countTokens` and the vector database are total functions. In the source an exception from `call_llm` in `semantic_chunk`, from `generate_embeddings` or `insert_chunks` during an upload, or from `get_doc_chunks` or `delete_doc_chunks` is not caught, and the request fails with HTTP 500. `Chunking.Reply` and `DocumentApi.ChunkingFailed` cover only a reply that cannot be used, not a failing call. Only the rerank catches its exception, and that case is modelled as `RerankFailed`.
- The language models, the embedding service, the vector database (search, insert, fetch by document, delete) and the `tiktoken` tokenizer are parameters or are left out. `insert_chunks` and `delete_doc_chunks` have no modelled state; `Delete` returns the provider whose collection the vectors are deleted from.
- File storage is left out: the upload file, text extraction from pdf/docx/md, the chunk-results JSON and Markdown files, and the settings file. Chunk results are kept in a map, and the settings file is the map it holds. The Markdown report, which only repeats the JSON data, is not modelled.
- `config.reload_from_settings()` after a save is not modelled.
- `uuid4` ids and `datetime.now` are parameters of `Upload`.
- Python's `round(v, 6)` is a parameter. Vector values are `real`. Search and rerank scores are integers, since only their order matters to the sort and they are copied unchanged.
- React rendering, effects and scrolling are not modelled. The React state updates are applied in the order the callbacks fire. The typing indicator is modelled as its condition, `ShowsThinking`.
- ChatWindow.WithMetadata: on an empty message list JavaScript writes index -1, which is not an element, so the model leaves the list unchanged. The same holds for `WithError` and `WithoutMetadata`.
- ChatWindow.WithDelta: on an empty message list the source reads `content` of `undefined` and throws a `TypeError` inside the state updater; the model leaves the list unchanged. None of the updaters meets an empty list after `handleSend`, which appends two messages before the stream starts.
- Pattern classes are ASCII only: `\d` is the digits 0–9, and `lower()` maps A–Z only. Python's `\d` and `str.lower` also cover other Unicode digits and letters.
- TextCleaning.CleanText: the final `strip()` is written as a strip of the start followed by a strip of the end, which is the same function.
- JsonHighlight.TextContent models how a browser reads the highlighter's HTML only for what the highlighter can produce. A `<` followed by a letter or `/` starts a tag that runs to the next `>` and shows nothing. Only `&amp;`, `&lt;` and `&gt;` are decoded. Other character references and HTML parsing rules are not modelled.
- `get_settings` and the document list are modelled as functions of the stored state. The model does not repeat the HTTP layer's serialisation.
- `DocumentApi.DocumentRegistry.Delete` ignores its `requestedProvider` argument, as the source does.
- AppStore.Options: `chunkSize`, `overlap` and `topK` are JavaScript numbers set from `Number(e.target.value)`, so the store can hold a fractional value such as 500.5 or `NaN`. FastAPI's `int` form fields then reject such an upload with HTTP 422 before the range checks run. The model's fields are integers and cannot express this, so `AppStore.UncheckedSizeRejected` and `AppStore.UncheckedOverlapRejected` are stated over integer values only.
- SettingsApi.Settings: `save_settings` takes any JSON object as its body, with values of any type. A non-zero number or `true` raises `TypeError` at the `"*" not in value` test, and a non-empty list is stored as it is. The model's body and settings are maps from strings to strings, so `SettingsApi.SaveIff` and the other save lemmas are stated over string values only.
- The option-store setters are idempotent and commute on different fields; both follow from their contracts, and no separate lemma states them.
- Chunking.SlidingWindowChunk requires `overlap < chunkSize` and `0 < chunkSize`. The first makes the step `chunk_size - overlap` positive, so the loop ends. The second is not needed for the loop to end. It keeps each slice end `start + chunk_size` above its start: Python reads a negative slice end as counted from the end of the list, which the window model does not cover. The upload validation guarantees both, and the semantic fallback uses 500 and 100.
- StreamDecoder.QueryKnowledgeStream: a payload on a metadata or delta event is one of the two objects the server sends there, a metadata object or a delta object (`StreamRoundTrip.ServerFramesDecoded`). The done frame's data `{}` is parsed to an arbitrary payload. That is sound only because `onDone` ignores its data. `{}` on a metadata or delta event is not modelled: the source would read `undefined` members, and no single `Payload` value stands for that on both events. Other JSON values are not modelled either, and `parse` must reject them. For `null` the source's `data.content` throws a `TypeError`, which reaches `onError`; the model reports the rejection as a `SyntaxError`. A number or a string reads as `undefined` members, as the other object shape does.
- QueryApi.RerankChunks: scores are integers, so a reply whose `scores` list holds non-numbers is not modelled. A failed call, a reply that is not JSON and a list of the wrong length are modelled, as `RerankFailed` or a short list.

## Findings

| source | as written | input that shows it | evidently intended | confidence | as-written member | corrected member |
|---|---|---|---|---|---|---|
| frontend/src/api/ragApi.ts:177 | `currentEvent` is reset at the start of every read, so an `event:` line and its `data:` line that arrive in different reads fire nothing | the reads `event: delta\n` and `data: {"content":"x"}\n` | the event name is carried across reads like the line buffer, so how the stream is cut into reads does not matter | not executed | StreamRoundTrip.ReadBoundaryLosesEvent | CarriedEvent.ChunkingIrrelevant |
| frontend/src/pages/DocumentListPage.tsx:325-343 | matches and the text between them are inserted into HTML unescaped, so markup inside a JSON string is rendered as markup | a document whose content is `<b>`: the JSON text `"<b>"` shows as `""` | `&`, `<` and `>` are escaped before the spans are added, so the page shows the JSON text exactly | not executed | JsonHighlight.TagInStringHidden | JsonHighlight.EscapedShowsJson |
