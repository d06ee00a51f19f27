/** The document endpoints (`document.py`): upload validation and the upload
    pipeline, the in-memory registry of documents with its list and delete
    operations, the chunk-results record written for each upload, and the view
    of a document's rows in the vector database.

    Text extraction, the uuid, the clock, the embedding model, the tokenizer's
    counter, rounding and the vector database are parameters. The chunk-results
    directory is modelled as the map from document id to the JSON record it
    holds; the Markdown file beside it is not modelled. */
module DocumentApi {
  import opened Text
  import TextCleaning
  import Chunking

  const Providers: seq<string> := ["openai", "bailian"]
  const Modes: seq<string> := ["sliding", "semantic", "hybrid"]
  const Extensions: seq<string> := ["pdf", "docx", "txt", "md"]
  const MinChunkSize: int := 50
  const MaxChunkSize: int := 5000
  const Completed: string := "completed"
  /** `EMBEDDING_DIM.get(provider, 1536)`'s default. */
  const DefaultDim: nat := 1536

  // ---------------------------------------------------------------------
  // The upload form and its validation
  // ---------------------------------------------------------------------

  /** The multipart form: the file's name (absent or empty when the client sent
      none) and the four fields. */
  datatype UploadForm = UploadForm(filename: Option<string>, chunkMode: string, chunkSize: int,
                                   overlap: int, modelProvider: string)

  /** The form with every field left at its default. */
  function DefaultForm(filename: Option<string>): UploadForm
  {
    UploadForm(filename, "sliding", 500, 100, "openai")
  }

  /** The upload's failures. All but the last are HTTP 400 with the detail below;
      `ChunkingFailed` is the exception `semantic_chunk` lets escape. */
  datatype UploadError =
    | ChunkSizeOutOfRange
    | OverlapOutOfRange
    | UnknownProvider
    | UnknownMode
    | UnsupportedType(ext: string)
    | EmptyContent
    | NothingToChunk
    | ChunkingFailed

  function Detail(e: UploadError): string
  {
    match e
    case ChunkSizeOutOfRange => "chunk_size 应在 50-5000 之间"
    case OverlapOutOfRange => "overlap 应大于等于 0 且小于 chunk_size"
    case UnknownProvider => "model_provider 仅支持 openai 或 bailian"
    case UnknownMode => "chunk_mode 仅支持 sliding/semantic/hybrid"
    case UnsupportedType(ext) => "不支持的文件类型: " + ext + "，仅支持 pdf/docx/txt/md"
    case EmptyContent => "文档内容为空"
    case NothingToChunk => "文档内容为空，无法分块"
    case ChunkingFailed => ""
  }

  predicate SizeInRange(form: UploadForm)
  {
    MinChunkSize <= form.chunkSize <= MaxChunkSize
  }

  predicate OverlapInRange(form: UploadForm)
  {
    0 <= form.overlap < form.chunkSize
  }

  /** The four parameter checks, in source order: the first that fails is reported;
      the form passes exactly when all four hold. */
  function ValidateForm(form: UploadForm): (r: Option<UploadError>)
    ensures r == None <==>
      SizeInRange(form) && OverlapInRange(form)
      && form.modelProvider in Providers && form.chunkMode in Modes
    ensures !SizeInRange(form) ==> r == Some(ChunkSizeOutOfRange)
    ensures SizeInRange(form) && !OverlapInRange(form) ==> r == Some(OverlapOutOfRange)
    ensures SizeInRange(form) && OverlapInRange(form) && form.modelProvider !in Providers ==>
      r == Some(UnknownProvider)
    ensures (SizeInRange(form) && OverlapInRange(form) && form.modelProvider in Providers
             && form.chunkMode !in Modes) ==> r == Some(UnknownMode)
  {
    if form.chunkSize < MinChunkSize || form.chunkSize > MaxChunkSize then Some(ChunkSizeOutOfRange)
    else if form.overlap < 0 || form.overlap >= form.chunkSize then Some(OverlapOutOfRange)
    else if form.modelProvider !in Providers then Some(UnknownProvider)
    else if form.chunkMode !in Modes then Some(UnknownMode)
    else None
  }

  // ---------------------------------------------------------------------
  // File name and extension
  // ---------------------------------------------------------------------

  /** `file.filename or "unknown"`. */
  function EffectiveName(filename: Option<string>): (name: string)
    ensures name != []
    ensures filename.Some? && filename.value != [] ==> name == filename.value
  {
    if filename.Some? && filename.value != [] then filename.value else "unknown"
  }

  /** `s.rsplit(".", 1)[-1]`: the text after the last dot, all of `s` when it has
      none. */
  function AfterLastDot(s: string): (r: string)
    ensures '.' !in r
    ensures |r| <= |s| && r == s[|s| - |r|..]
    ensures |r| < |s| ==> s[|s| - |r| - 1] == '.'
  {
    if s == [] then []
    else if s[|s| - 1] == '.' then []
    else
      var r := AfterLastDot(s[..|s| - 1]) + [s[|s| - 1]];
      assert s[|s| - |r|..] == s[..|s| - 1][|s| - |r|..] + [s[|s| - 1]];
      r
  }

  function LowerAscii(c: char): char
  {
    if 'A' <= c <= 'Z' then (c as int + 32) as char else c
  }

  /** `str.lower()` on the ASCII letters. */
  function Lower(s: string): (r: string)
    ensures |r| == |s| && forall k :: 0 <= k < |s| ==> r[k] == LowerAscii(s[k])
  {
    seq(|s|, k requires 0 <= k < |s| => LowerAscii(s[k]))
  }

  /** The lower-cased text after the last dot, or `"txt"` for a name without a dot. */
  function Extension(name: string): (ext: string)
    ensures '.' !in ext
  {
    if '.' in name then Lower(AfterLastDot(name)) else "txt"
  }

  // ---------------------------------------------------------------------
  // The upload pipeline as a function
  // ---------------------------------------------------------------------

  /** What the upload stores for a document, or the failure that stops it: the form
      checks, the extension check, the cleaned text's blank check, chunking and the
      empty-chunk-list check, in that order. `rawText` is what extraction returns. */
  function Prepare(form: UploadForm, rawText: string,
                   respond: string -> string, parse: string -> Chunking.Reply,
                   encode: string -> seq<Chunking.Token>, decode: seq<Chunking.Token> -> string)
    : Result<seq<string>, UploadError>
  {
    if ValidateForm(form).Some? then Err(ValidateForm(form).value)
    else
      var ext := Extension(EffectiveName(form.filename));
      if ext !in Extensions then Err(UnsupportedType(ext))
      else ChunkCleaned(form, TextCleaning.CleanText(rawText), respond, parse, encode, decode)
  }

  /** The steps of `Prepare` after cleaning: the blank check, chunking and the
      empty-chunk-list check. */
  function ChunkCleaned(form: UploadForm, cleaned: string,
                        respond: string -> string, parse: string -> Chunking.Reply,
                        encode: string -> seq<Chunking.Token>, decode: seq<Chunking.Token> -> string)
    : Result<seq<string>, UploadError>
    requires ValidateForm(form).None?
  {
    if IsBlank(cleaned, PyIsSpace) then Err(EmptyContent)
    else
      match Chunking.ChunkText(cleaned, form.chunkMode, form.chunkSize as nat, form.overlap,
                               respond, parse, encode, decode)
      case None => Err(ChunkingFailed)
      case Some(chunks) => if chunks == [] then Err(NothingToChunk) else Ok(chunks)
  }

  // ---------------------------------------------------------------------
  // Records
  // ---------------------------------------------------------------------

  /** `DocumentInfo`. */
  datatype DocumentInfo = DocumentInfo(docId: string, filename: string, chunkCount: nat, status: string,
                                       modelProvider: string, chunkMode: string, chunkSize: int, overlap: int)

  /** The upload's answer. */
  datatype UploadReply = UploadReply(docId: string, filename: string, chunkCount: nat, status: string,
                                     modelProvider: string)

  datatype ChunkConfig = ChunkConfig(chunkMode: string, chunkSize: int, overlap: int, modelProvider: string)

  /** One entry of the chunk-results JSON. */
  datatype ChunkEntry = ChunkEntry(index: nat, tokenCount: nat, charCount: nat, content: string,
                                   embeddingDim: nat, embeddingPreview: seq<real>)

  /** The chunk-results JSON written for a document. */
  datatype ChunkResults = ChunkResults(docId: string, filename: string, createdAt: string, config: ChunkConfig,
                                       totalChunks: nat, chunks: seq<ChunkEntry>)

  /** A row as the vector database returns it; absent fields are `None`. */
  datatype Row = Row(id: Option<int>, docId: Option<string>, content: Option<string>, vector: Option<seq<real>>)

  datatype VectorView = VectorView(dim: nat, valuesPreview: seq<real>, valuesTail: seq<real>)

  datatype MilvusRecord = MilvusRecord(id: int, docId: Option<string>, content: Option<string>, vector: VectorView)

  /** The collection name, the schema's vector dimension, the record count and the
      records (the rest of the schema is a constant literal). */
  datatype MilvusView = MilvusView(collection: string, schemaDim: nat, totalRecords: nat,
                                   records: seq<MilvusRecord>)

  datatype DeleteReply = DeleteReply(message: string, vectorProvider: string)

  function Info(form: UploadForm, docId: string, chunkCount: nat): DocumentInfo
  {
    DocumentInfo(docId, EffectiveName(form.filename), chunkCount, Completed,
                 form.modelProvider, form.chunkMode, form.chunkSize, form.overlap)
  }

  function Reply(info: DocumentInfo): UploadReply
  {
    UploadReply(info.docId, info.filename, info.chunkCount, info.status, info.modelProvider)
  }

  function RoundAll(values: seq<real>, round: real -> real): (r: seq<real>)
    ensures |r| == |values| && forall k :: 0 <= k < |values| ==> r[k] == round(values[k])
  {
    seq(|values|, k requires 0 <= k < |values| => round(values[k]))
  }

  // ---------------------------------------------------------------------
  // Chunk-results entries
  // ---------------------------------------------------------------------

  /** The entries describe the zipped chunks and vectors pair by pair: entry `i`
      is numbered `i` and holds chunk `i` with its length and token count, and the
      length and first eight values, rounded, of vector `i`. */
  predicate Describes(entries: seq<ChunkEntry>, chunks: seq<string>, vectors: seq<seq<real>>,
                      countTokens: string -> nat, round: real -> real)
  {
    |entries| == Chunking.Min(|chunks|, |vectors|)
    && forall i :: 0 <= i < |entries| ==>
      var e := entries[i];
      e.index == i && e.content == chunks[i] && e.charCount == |chunks[i]|
      && e.tokenCount == countTokens(chunks[i])
      && e.embeddingDim == |vectors[i]|
      && e.embeddingPreview == RoundAll(vectors[i][..Chunking.Min(8, |vectors[i]|)], round)
  }

  /** The entries loop over `enumerate(zip(chunks, vectors))`. */
  method ChunkEntries(chunks: seq<string>, vectors: seq<seq<real>>, countTokens: string -> nat,
                      round: real -> real)
    returns (entries: seq<ChunkEntry>)
    ensures Describes(entries, chunks, vectors, countTokens, round)
  {
    entries := [];
    var i := 0;
    while i < |chunks| && i < |vectors|
      invariant i <= |chunks| && i <= |vectors| && |entries| == i
      invariant forall j :: 0 <= j < i ==>
        var e := entries[j];
        e.index == j && e.content == chunks[j] && e.charCount == |chunks[j]|
        && e.tokenCount == countTokens(chunks[j])
        && e.embeddingDim == |vectors[j]|
        && e.embeddingPreview == RoundAll(vectors[j][..Chunking.Min(8, |vectors[j]|)], round)
    {
      var text, vec := chunks[i], vectors[i];
      entries := entries + [ChunkEntry(i, countTokens(text), |text|, text, |vec|,
                                       RoundAll(vec[..Chunking.Min(8, |vec|)], round))];
      i := i + 1;
    }
  }

  // ---------------------------------------------------------------------
  // Vector-database records
  // ---------------------------------------------------------------------

  /** One record of the vector-database view: the id defaults to 0 and the vector
      to empty; the view shows its length, its first sixteen and its last four
      values, rounded. */
  function RecordOf(row: Row, round: real -> real): (rec: MilvusRecord)
    ensures var vec := if row.vector.Some? then row.vector.value else [];
      rec.vector.dim == |vec|
      && |rec.vector.valuesPreview| == Chunking.Min(16, |vec|)
      && |rec.vector.valuesTail| == Chunking.Min(4, |vec|)
      && (forall k :: 0 <= k < Chunking.Min(16, |vec|) ==> rec.vector.valuesPreview[k] == round(vec[k]))
      && (forall k :: 0 <= k < Chunking.Min(4, |vec|) ==>
            rec.vector.valuesTail[k] == round(vec[|vec| - Chunking.Min(4, |vec|) + k]))
    ensures rec.id == (if row.id.Some? then row.id.value else 0)
    ensures rec.docId == row.docId && rec.content == row.content
  {
    var vec := if row.vector.Some? then row.vector.value else [];
    MilvusRecord(if row.id.Some? then row.id.value else 0, row.docId, row.content,
                 VectorView(|vec|, RoundAll(vec[..Chunking.Min(16, |vec|)], round),
                            RoundAll(vec[|vec| - Chunking.Min(4, |vec|)..], round)))
  }

  /** The records loop of `get_milvus_data`. */
  method MilvusRecords(rows: seq<Row>, round: real -> real) returns (records: seq<MilvusRecord>)
    ensures |records| == |rows|
    ensures forall i :: 0 <= i < |rows| ==> records[i] == RecordOf(rows[i], round)
  {
    records := [];
    for i := 0 to |rows|
      invariant |records| == i
      invariant forall j :: 0 <= j < i ==> records[j] == RecordOf(rows[j], round)
    {
      records := records + [RecordOf(rows[i], round)];
    }
  }

  // ---------------------------------------------------------------------
  // Key order of the registry
  // ---------------------------------------------------------------------

  predicate Distinct(ids: seq<string>)
  {
    forall i, j :: 0 <= i < j < |ids| ==> ids[i] != ids[j]
  }

  /** The key order after `d[id] = v`: a new key goes last, an old one stays put. */
  function Appended(order: seq<string>, id: string): seq<string>
  {
    if id in order then order else order + [id]
  }

  /** The key order after `del d[id]`: the others in their order. */
  function Removed(order: seq<string>, id: string): (r: seq<string>)
    ensures forall x :: x in r <==> x in order && x != id
    ensures Distinct(order) ==> Distinct(r)
  {
    if order == [] then []
    else
      var rest := Removed(order[1..], id);
      if order[0] == id then rest
      else
        var r := [order[0]] + rest;
        assert Distinct(order) ==> Distinct(r) by {
          if Distinct(order) {
            forall j | 0 < j < |r|
              ensures r[j] != r[0]
            {
              assert r[j] in order[1..];
              var k :| 0 <= k < |order[1..]| && order[1..][k] == r[j];
              assert order[k + 1] == r[j];
            }
          }
        }
        r
  }

  // ---------------------------------------------------------------------
  // The registry
  // ---------------------------------------------------------------------

  /** `_documents`, a dictionary from id to `DocumentInfo` whose iteration order is
      insertion order, kept here as `order`; and the chunk-results directory. */
  class DocumentRegistry {
    var documents: map<string, DocumentInfo>
    var order: seq<string>
    var results: map<string, ChunkResults>

    ghost predicate Valid()
      reads this
    {
      (forall id :: id in documents <==> id in order)
      && Distinct(order)
      && (forall id :: id in documents ==> documents[id].docId == id)
    }

    constructor ()
      ensures Valid() && documents == map[] && order == [] && results == map[]
    {
      documents := map[];
      order := [];
      results := map[];
    }

    /** `list(_documents.values())`. */
    function List(): (docs: seq<DocumentInfo>)
      reads this
      requires Valid()
      ensures |docs| == |order|
      ensures forall k :: 0 <= k < |order| ==> docs[k] == documents[order[k]]
    {
      seq(|order|, k requires 0 <= k < |order| && order[k] in documents reads this => documents[order[k]])
    }

    /** `_documents[info.docId] = info`. */
    method Insert(info: DocumentInfo)
      requires Valid()
      modifies this
      ensures Valid()
      ensures documents == old(documents)[info.docId := info]
      ensures order == Appended(old(order), info.docId) && results == old(results)
      ensures info.docId !in old(documents) ==> List() == old(List()) + [info]
    {
      if info.docId !in order {
        order := order + [info.docId];
      }
      documents := documents[info.docId := info];
    }

    /** `upload_document`: on success the document is registered with its chunk
        count and status `completed`, and its chunk results are stored; on any
        failure nothing changes. */
    method Upload(form: UploadForm, docId: string, rawText: string, now: string,
                  respond: string -> string, parse: string -> Chunking.Reply,
                  encode: string -> seq<Chunking.Token>, decode: seq<Chunking.Token> -> string,
                  embed: seq<string> -> seq<seq<real>>, countTokens: string -> nat, round: real -> real)
      returns (r: Result<UploadReply, UploadError>)
      requires Valid()
      modifies this
      ensures Valid()
      ensures match Prepare(form, rawText, respond, parse, encode, decode)
        case Err(e) =>
          r == Err(e) && documents == old(documents) && order == old(order) && results == old(results)
        case Ok(chunks) =>
          r == Ok(Reply(Info(form, docId, |chunks|)))
          && documents == old(documents)[docId := Info(form, docId, |chunks|)]
          && order == Appended(old(order), docId)
          && docId in results && results == old(results)[docId := results[docId]]
          && results[docId] == ChunkResults(docId, EffectiveName(form.filename), now,
                                            ChunkConfig(form.chunkMode, form.chunkSize, form.overlap,
                                                        form.modelProvider),
                                            |chunks|, results[docId].chunks)
          && Describes(results[docId].chunks, chunks, embed(chunks), countTokens, round)
    {
      var invalid := ValidateForm(form);
      if invalid.Some? {
        return Err(invalid.value);
      }
      var filename := EffectiveName(form.filename);
      var ext := Extension(filename);
      if ext !in Extensions {
        return Err(UnsupportedType(ext));
      }
      var cleaned := TextCleaning.CleanText(rawText);
      if IsBlank(cleaned, PyIsSpace) {
        return Err(EmptyContent);
      }
      var chunked := Chunking.ChunkText(cleaned, form.chunkMode, form.chunkSize as nat, form.overlap,
                                        respond, parse, encode, decode);
      if chunked.None? {
        return Err(ChunkingFailed);
      }
      var chunks := chunked.value;
      if chunks == [] {
        return Err(NothingToChunk);
      }
      var entries := ChunkEntries(chunks, embed(chunks), countTokens, round);
      var config := ChunkConfig(form.chunkMode, form.chunkSize, form.overlap, form.modelProvider);
      var info := Info(form, docId, |chunks|);
      Record(info, ChunkResults(docId, filename, now, config, |chunks|, entries));
      r := Ok(Reply(info));
    }

    /** The two writes of a successful upload: the chunk results, then the
        document itself. */
    method Record(info: DocumentInfo, result: ChunkResults)
      requires Valid()
      modifies this
      ensures Valid()
      ensures documents == old(documents)[info.docId := info]
      ensures order == Appended(old(order), info.docId)
      ensures results == old(results)[info.docId := result]
    {
      results := results[info.docId := result];
      Insert(info);
    }

    /** `get_chunk_results`: the stored record, or 404. */
    method GetChunkResults(docId: string) returns (r: Result<ChunkResults, string>)
      ensures docId in results ==> r == Ok(results[docId])
      ensures docId !in results ==> r == Err("分块结果不存在")
    {
      if docId !in results {
        return Err("分块结果不存在");
      }
      r := Ok(results[docId]);
    }

    /** `get_milvus_data`: the rows stored under the document's own provider, shaped
        into records; 404 for an unknown id. `fetch` is the database query and
        `collectionPrefix` and `dims` the configuration. */
    method MilvusData(docId: string, fetch: (string, string) -> seq<Row>, collectionPrefix: string,
                      dims: map<string, nat>, round: real -> real)
      returns (r: Result<MilvusView, string>)
      requires Valid()
      ensures docId !in documents ==> r == Err("文档不存在")
      ensures docId in documents ==>
        var provider := documents[docId].modelProvider;
        var rows := fetch(docId, provider);
        r.Ok? && r.value.collection == collectionPrefix + "_" + provider
        && r.value.schemaDim == (if provider in dims then dims[provider] else DefaultDim)
        && r.value.totalRecords == |r.value.records| == |rows|
        && forall i :: 0 <= i < |rows| ==> r.value.records[i] == RecordOf(rows[i], round)
    {
      if docId !in documents {
        return Err("文档不存在");
      }
      var provider := documents[docId].modelProvider;
      var rows := fetch(docId, provider);
      var dim := if provider in dims then dims[provider] else DefaultDim;
      var records := MilvusRecords(rows, round);
      r := Ok(MilvusView(collectionPrefix + "_" + provider, dim, |records|, records));
    }

    /** `delete_document`: removes the entry and its chunk results, and deletes the
        vectors from the collection of the stored provider (the request's provider
        is ignored); 404 with nothing changed for an unknown id. */
    method Delete(docId: string, requestedProvider: string) returns (r: Result<DeleteReply, string>)
      requires Valid()
      modifies this
      ensures Valid()
      ensures docId in old(documents) ==>
        r == Ok(DeleteReply("删除成功", old(documents)[docId].modelProvider))
        && documents == old(documents) - {docId}
        && order == Removed(old(order), docId)
        && results == old(results) - {docId}
      ensures docId !in old(documents) ==>
        r == Err("文档不存在")
        && documents == old(documents) && order == old(order) && results == old(results)
    {
      if docId in documents {
        var provider := documents[docId].modelProvider;
        results := results - {docId};
        documents := documents - {docId};
        order := Removed(order, docId);
        return Ok(DeleteReply("删除成功", provider));
      }
      r := Err("文档不存在");
    }
  }

  // ---------------------------------------------------------------------
  // Properties
  // ---------------------------------------------------------------------

  /** The form defaults pass validation. */
  lemma DefaultFormValid(filename: Option<string>)
    ensures ValidateForm(DefaultForm(filename)) == None
  {
  }

  /** The extension of `stem.ext` is `ext` lower-cased, whatever dots `stem` holds. */
  lemma {:induction false} ExtensionOfDotted(stem: string, ext: string)
    requires '.' !in ext
    ensures Extension(stem + "." + ext) == Lower(ext)
  {
    var name := stem + "." + ext;
    assert name[|stem|] == '.';
    AfterDotted(stem, ext);
  }

  lemma {:induction false} AfterDotted(stem: string, ext: string)
    requires '.' !in ext
    ensures AfterLastDot(stem + "." + ext) == ext
  {
    var name := stem + "." + ext;
    if ext != [] {
      assert name[..|name| - 1] == stem + "." + ext[..|ext| - 1];
      AfterDotted(stem, ext[..|ext| - 1]);
      assert ext[..|ext| - 1] + [ext[|ext| - 1]] == ext;
    } else {
      assert name[|name| - 1] == '.';
    }
  }

  /** A name without a dot, in particular the default for a missing name, counts as
      a text file and is accepted. */
  lemma MissingNameIsText()
    ensures Extension(EffectiveName(None)) == "txt" && "txt" in Extensions
    ensures Extension(EffectiveName(Some(""))) == "txt"
  {
    assert '.' !in "unknown";
  }

  /** Whatever the text and the model, a form that fails a check is rejected with
      that check's error. */
  lemma FormCheckedFirst(form: UploadForm, rawText: string,
                         respond: string -> string, parse: string -> Chunking.Reply,
                         encode: string -> seq<Chunking.Token>, decode: seq<Chunking.Token> -> string)
    requires !SizeInRange(form) || !OverlapInRange(form)
    ensures Prepare(form, rawText, respond, parse, encode, decode)
      == Err(if !SizeInRange(form) then ChunkSizeOutOfRange else OverlapOutOfRange)
  {
  }

  /** Every chunk an upload stores is non-empty and stripped, in every mode. */
  lemma StoredChunksStripped(form: UploadForm, rawText: string,
                             respond: string -> string, parse: string -> Chunking.Reply,
                             encode: string -> seq<Chunking.Token>, decode: seq<Chunking.Token> -> string)
    requires Prepare(form, rawText, respond, parse, encode, decode).Ok?
    ensures var chunks := Prepare(form, rawText, respond, parse, encode, decode).value;
      chunks != [] && SizeInRange(form) && OverlapInRange(form) && AllStripped(chunks)
  {
    CleanedChunksStripped(form, TextCleaning.CleanText(rawText), respond, parse, encode, decode);
  }

  lemma CleanedChunksStripped(form: UploadForm, cleaned: string,
                              respond: string -> string, parse: string -> Chunking.Reply,
                              encode: string -> seq<Chunking.Token>, decode: seq<Chunking.Token> -> string)
    requires ValidateForm(form).None?
    requires ChunkCleaned(form, cleaned, respond, parse, encode, decode).Ok?
    ensures var chunks := ChunkCleaned(form, cleaned, respond, parse, encode, decode).value;
      chunks != [] && AllStripped(chunks)
  {
    ChunksStripped(cleaned, form.chunkMode, form.chunkSize as nat, form.overlap, respond, parse, encode, decode);
  }

  /** Whatever `chunk_text` returns, in any mode, is non-empty and stripped. */
  lemma ChunksStripped(text: string, mode: string, chunkSize: nat, overlap: int,
                       respond: string -> string, parse: string -> Chunking.Reply,
                       encode: string -> seq<Chunking.Token>, decode: seq<Chunking.Token> -> string)
    requires mode == "semantic" || mode == "hybrid" || (0 < chunkSize && overlap < chunkSize)
    ensures var r := Chunking.ChunkText(text, mode, chunkSize, overlap, respond, parse, encode, decode);
      r.Some? ==> AllStripped(r.value)
  {
    if mode == "semantic" || mode == "hybrid" {
      SemanticStripped(text, respond, parse, encode, decode);
    } else {
      var tokens := encode(text);
      KeptStripped(Chunking.Decoded(tokens, Chunking.Ranges(|tokens|, chunkSize, overlap), decode));
    }
  }

  lemma SemanticStripped(text: string, respond: string -> string, parse: string -> Chunking.Reply,
                         encode: string -> seq<Chunking.Token>, decode: seq<Chunking.Token> -> string)
    ensures var r := Chunking.SemanticChunk(text, respond, parse, encode, decode);
      r.Some? ==> AllStripped(r.value)
  {
    ReplyStripped(parse(Chunking.CleanReply(respond(Chunking.SemanticPrompt(text)))), text, encode, decode);
  }

  lemma ReplyStripped(reply: Chunking.Reply, text: string, encode: string -> seq<Chunking.Token>,
                      decode: seq<Chunking.Token> -> string)
    ensures var r := Chunking.ReplyChunks(reply, text, encode, decode);
      r.Some? ==> AllStripped(r.value)
  {
    match reply {
      case NotJson =>
        var tokens := encode(text);
        KeptStripped(Chunking.Decoded(tokens, Chunking.Ranges(|tokens|, Chunking.DefaultChunkSize, Chunking.DefaultOverlap), decode));
      case ChunkList(items) => KeptStripped(items);
      case ChunkString(s) => KeptStripped(Chunking.Singletons(s));
      case NoChunks =>
      case Unusable =>
    }
  }

  predicate AllStripped(chunks: seq<string>)
  {
    forall c <- chunks :: c != [] && !PyIsSpace(c[0]) && !PyIsSpace(c[|c| - 1])
  }

  lemma KeptStripped(texts: seq<string>)
    ensures AllStripped(Chunking.KeepNonBlank(texts))
  {
    Chunking.KeptAreTrimmed(texts);
  }

  /** Deleting a freshly inserted id restores the registry it was inserted into. */
  lemma DeleteUndoesInsert(documents: map<string, DocumentInfo>, order: seq<string>, info: DocumentInfo)
    requires info.docId !in documents && info.docId !in order
    ensures documents[info.docId := info] - {info.docId} == documents
    ensures Removed(Appended(order, info.docId), info.docId) == order
  {
    RemovedAbsent(order, info.docId);
    RemovedLast(order, info.docId);
  }

  lemma {:induction false} RemovedAbsent(order: seq<string>, id: string)
    requires id !in order
    ensures Removed(order, id) == order
  {
    if order != [] {
      RemovedAbsent(order[1..], id);
    }
  }

  lemma {:induction false} RemovedLast(order: seq<string>, id: string)
    ensures Removed(order + [id], id) == Removed(order, id)
  {
    if order != [] {
      assert (order + [id])[1..] == order[1..] + [id];
      RemovedLast(order[1..], id);
    } else {
      assert [id][1..] == [];
    }
  }
}
