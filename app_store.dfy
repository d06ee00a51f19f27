/** The frontend's option store (`appStore.ts`): the provider, chunking and
    retrieval options the pages share, each with its own setter. The upload form
    sends four of them to the server, which is the only place they are checked. */
module AppStore {
  import opened Text
  import DocumentApi

  /** The options as the upload and query pages read them. */
  datatype Options = Options(modelProvider: string, chunkMode: string, chunkSize: int, overlap: int,
                             topK: int, useRerank: bool)

  const InitialOptions: Options := Options("openai", "sliding", 500, 100, 5, true)

  /** The store: one field per option; every setter overwrites its own field with
      whatever it is given. */
  class Store {
    var modelProvider: string
    var chunkMode: string
    var chunkSize: int
    var overlap: int
    var topK: int
    var useRerank: bool

    function Snapshot(): Options
      reads this
    {
      Options(modelProvider, chunkMode, chunkSize, overlap, topK, useRerank)
    }

    constructor ()
      ensures Snapshot() == InitialOptions
    {
      modelProvider := "openai";
      chunkMode := "sliding";
      chunkSize := 500;
      overlap := 100;
      topK := 5;
      useRerank := true;
    }

    method SetModelProvider(v: string)
      modifies this
      ensures Snapshot() == old(Snapshot()).(modelProvider := v)
    {
      modelProvider := v;
    }

    method SetChunkMode(v: string)
      modifies this
      ensures Snapshot() == old(Snapshot()).(chunkMode := v)
    {
      chunkMode := v;
    }

    method SetChunkSize(v: int)
      modifies this
      ensures Snapshot() == old(Snapshot()).(chunkSize := v)
    {
      chunkSize := v;
    }

    method SetOverlap(v: int)
      modifies this
      ensures Snapshot() == old(Snapshot()).(overlap := v)
    {
      overlap := v;
    }

    method SetTopK(v: int)
      modifies this
      ensures Snapshot() == old(Snapshot()).(topK := v)
    {
      topK := v;
    }

    method SetUseRerank(v: bool)
      modifies this
      ensures Snapshot() == old(Snapshot()).(useRerank := v)
    {
      useRerank := v;
    }
  }

  /** The upload form the file uploader builds from the store. */
  function FormOf(options: Options, filename: Option<string>): (form: DocumentApi.UploadForm)
    ensures form.chunkMode == options.chunkMode && form.chunkSize == options.chunkSize
    ensures form.overlap == options.overlap && form.modelProvider == options.modelProvider
  {
    DocumentApi.UploadForm(filename, options.chunkMode, options.chunkSize, options.overlap, options.modelProvider)
  }

  /** The store starts from the server's own defaults, and they pass its checks. */
  lemma InitialOptionsAccepted(filename: Option<string>)
    ensures FormOf(InitialOptions, filename) == DocumentApi.DefaultForm(filename)
    ensures DocumentApi.ValidateForm(FormOf(InitialOptions, filename)) == None
  {
    DocumentApi.DefaultFormValid(filename);
  }

  /** The setters check nothing: any chunk size is stored, and one outside 50 to
      5000 reaches the server, which rejects the upload. */
  lemma UncheckedSizeRejected(options: Options, size: int, filename: Option<string>)
    requires size < DocumentApi.MinChunkSize || size > DocumentApi.MaxChunkSize
    ensures var stored := options.(chunkSize := size);
      stored.chunkSize == size
      && DocumentApi.ValidateForm(FormOf(stored, filename)) == Some(DocumentApi.ChunkSizeOutOfRange)
  {
  }

  /** The same holds for the overlap: any value is stored, and one that is negative
      or not below the chunk size is rejected once the size is in range. */
  lemma UncheckedOverlapRejected(options: Options, overlap: int, filename: Option<string>)
    requires DocumentApi.MinChunkSize <= options.chunkSize <= DocumentApi.MaxChunkSize
    requires overlap < 0 || overlap >= options.chunkSize
    ensures var stored := options.(overlap := overlap);
      DocumentApi.ValidateForm(FormOf(stored, filename)) == Some(DocumentApi.OverlapOutOfRange)
  {
  }
}
