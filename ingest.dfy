/**
 * The `ingest-document` function: download the stored PDF, parse it to
 * Markdown, chunk it, embed the chunks in one batch, upsert one row per chunk
 * and only then mark the document `processed`.
 *
 * Storage, the PDF parser, the embedding model and the database are oracles
 * (fields of `Services`); the method returns the outcome together with the
 * list of calls it made to them, in order.
 */
module Ingest {
  import opened Wrappers
  import opened Values
  import opened Text
  import opened Chunker

  /** The event the function is registered for; it runs for no other. */
  const TriggerEvent := "documents/uploaded"
  const StorageBucket := "documents"
  const ChunkTable := "document_chunks"
  const DocumentTable := "documents"
  const DownloadErrorPrefix := "Failed to download file: "

  /** The data of a `documents/uploaded` event. */
  datatype IngestEvent = IngestEvent(documentId: string, storagePath: string)

  /** An event of this name starts the workflow. */
  predicate Triggers(eventName: string)
  {
    eventName == TriggerEvent
  }

  /** One row the workflow upserts into `document_chunks`; `embedding` is `embeddings[idx]`, absent past its end. */
  datatype ChunkInsert = ChunkInsert(documentId: string, content: string, embedding: Option<Embedding>)

  /** The external services, each answering with a value or an error message. */
  datatype Services = Services(
    download: (string, string) -> Result<Bytes, string>,
    parse: Bytes -> Result<string, string>,
    /** `embedMany({ model, values })` */
    embedMany: (string, seq<string>) -> Result<seq<Embedding>, string>,
    upsert: seq<ChunkInsert> -> Option<string>)

  /** A call to a service, as the workflow issues it. */
  datatype Effect =
    | Download(bucket: string, path: string)
    | Parse(file: Bytes)
    | Embed(model: string, values: seq<string>)
    | Upsert(table: string, rows: seq<ChunkInsert>)
    | UpdateStatus(table: string, documentId: string, status: string)

  /** `{ success: true, chunksProcessed }`, or the error the function throws. */
  datatype Outcome = Completed(chunksProcessed: nat) | Thrown(message: string)

  /** `chunks.map((content, idx) => ({ document_id, content, embedding: embeddings[idx] }))` */
  function BuildRows(documentId: string, chunks: seq<string>, embeddings: seq<Embedding>): (rows: seq<ChunkInsert>)
    ensures |rows| == |chunks|
    ensures forall i :: 0 <= i < |rows| ==>
              rows[i].documentId == documentId && rows[i].content == chunks[i]
              && rows[i].embedding == (if i < |embeddings| then Some(embeddings[i]) else None)
  {
    seq(|chunks|, i requires 0 <= i < |chunks| =>
      ChunkInsert(documentId, chunks[i], if i < |embeddings| then Some(embeddings[i]) else None))
  }

  /** The contents of the rows, in row order. */
  function Contents(rows: seq<ChunkInsert>): seq<string>
  {
    if rows == [] then [] else [rows[0].content] + Contents(rows[1..])
  }

  /** The embeddings of the rows, in row order, when every row has one. */
  function Vectors(rows: seq<ChunkInsert>): Option<seq<Embedding>>
  {
    if rows == [] then Some([])
    else match (rows[0].embedding, Vectors(rows[1..]))
      case (Some(e), Some(es)) => Some([e] + es)
      case _ => None
  }

  /**
   * The rows unzip to the chunks and, when the embedder answered one vector per
   * chunk, to the embeddings.
   */
  lemma {:induction false} RowsUnzip(documentId: string, chunks: seq<string>, embeddings: seq<Embedding>)
    ensures Contents(BuildRows(documentId, chunks, embeddings)) == chunks
    ensures |embeddings| == |chunks| <==> Vectors(BuildRows(documentId, chunks, embeddings)) == Some(embeddings)
    decreases |chunks|
  {
    var rows := BuildRows(documentId, chunks, embeddings);
    if chunks != [] {
      var tailEmb := if embeddings == [] then [] else embeddings[1..];
      var tail := BuildRows(documentId, chunks[1..], tailEmb);
      assert rows[1..] == tail by {
        forall i | 0 <= i < |tail| ensures rows[1..][i] == tail[i] {
          assert i + 1 < |embeddings| <==> (i < |tailEmb|);
        }
      }
      RowsUnzip(documentId, chunks[1..], tailEmb);
      if embeddings == [] {
        assert rows[0].embedding == None;
      } else {
        assert embeddings == [embeddings[0]] + tailEmb;
      }
    } else {
      assert rows == [];
    }
  }

  /** Every step answers without an error: download, parse, embed and upsert. */
  ghost predicate AllStepsSucceed(event: IngestEvent, svc: Services)
  {
    var dl := svc.download(StorageBucket, event.storagePath);
    && dl.Ok?
    && var parsed := svc.parse(dl.value);
    && parsed.Ok?
    && var chunks := Chunks(parsed.value);
    && var embedded := svc.embedMany(EmbeddingModel, chunks);
    && embedded.Ok?
    && svc.upsert(BuildRows(event.documentId, chunks, embedded.value)).None?
  }

  /** The workflow writes a status, and that status is `processed`. */
  predicate MarksProcessed(effects: seq<Effect>, documentId: string)
  {
    UpdateStatus(DocumentTable, documentId, ProcessedStatus) in effects
  }

  /**
   * A status is written only as the last call, only as `processed` for this
   * document, and only right after an upsert that succeeded.
   */
  predicate StatusWrittenLast(effects: seq<Effect>, documentId: string, svc: Services)
  {
    forall j :: 0 <= j < |effects| && effects[j].UpdateStatus? ==>
      && effects[j] == UpdateStatus(DocumentTable, documentId, ProcessedStatus)
      && j == |effects| - 1 && j > 0
      && effects[j - 1].Upsert? && svc.upsert(effects[j - 1].rows).None?
  }

  /** The outcome of a run and the calls it made, in order. */
  datatype Run = Run(outcome: Outcome, effects: seq<Effect>)

  /** The workflow as a function of the event and the services' answers. */
  function IngestRun(event: IngestEvent, svc: Services): Run
  {
    var download := Download(StorageBucket, event.storagePath);
    match svc.download(StorageBucket, event.storagePath)
    case Err(e) => Run(Thrown(DownloadErrorPrefix + e), [download])
    case Ok(file) =>
      match svc.parse(file)
      case Err(e) => Run(Thrown(e), [download, Parse(file)])
      case Ok(markdown) =>
        var chunks := Chunks(markdown);
        match svc.embedMany(EmbeddingModel, chunks)
        case Err(e) => Run(Thrown(e), [download, Parse(file), Embed(EmbeddingModel, chunks)])
        case Ok(embeddings) =>
          var rows := BuildRows(event.documentId, chunks, embeddings);
          var upsert := Upsert(ChunkTable, rows);
          match svc.upsert(rows)
          case Some(e) => Run(Thrown(e), [download, Parse(file), Embed(EmbeddingModel, chunks), upsert])
          case None =>
            Run(Completed(|chunks|),
                [download, Parse(file), Embed(EmbeddingModel, chunks), upsert,
                 UpdateStatus(DocumentTable, event.documentId, ProcessedStatus)])
  }

  /**
   * The run completes exactly when every step succeeds, and then reports one
   * processed chunk per chunk: none exactly for a blank document.
   */
  lemma IngestRunOutcome(event: IngestEvent, svc: Services)
    ensures IngestRun(event, svc).outcome.Completed? <==> AllStepsSucceed(event, svc)
    ensures IngestRun(event, svc).outcome.Completed? ==>
              var markdown := svc.parse(svc.download(StorageBucket, event.storagePath).value).value;
              && IngestRun(event, svc).outcome.chunksProcessed == |Chunks(markdown)|
              && (IngestRun(event, svc).outcome.chunksProcessed == 0 <==> !HasContent(markdown))
  {
    var dl := svc.download(StorageBucket, event.storagePath);
    if dl.Ok? && svc.parse(dl.value).Ok? {
      ChunksEmptyIff(svc.parse(dl.value).value);
    }
  }

  /**
   * `processed` is written exactly when the run completes, as its last call and
   * right after an upsert that succeeded.
   */
  lemma IngestRunStatus(event: IngestEvent, svc: Services)
    ensures MarksProcessed(IngestRun(event, svc).effects, event.documentId) <==> IngestRun(event, svc).outcome.Completed?
    ensures StatusWrittenLast(IngestRun(event, svc).effects, event.documentId, svc)
  {
  }

  /**
   * A download error stops the run after the download with "Failed to download
   * file: …"; an upsert error is thrown as it is; a completed run made the five
   * calls in order.
   */
  lemma IngestRunSteps(event: IngestEvent, svc: Services)
    ensures var dl := svc.download(StorageBucket, event.storagePath);
            dl.Err? ==> IngestRun(event, svc) == Run(Thrown("Failed to download file: " + dl.error),
                                                     [Download("documents", event.storagePath)])
    ensures var dl := svc.download(StorageBucket, event.storagePath);
            dl.Ok? ==>
              var parsed := svc.parse(dl.value);
              parsed.Ok? ==>
                var chunks := Chunks(parsed.value);
                var embedded := svc.embedMany(EmbeddingModel, chunks);
                embedded.Ok? ==>
                  var rows := BuildRows(event.documentId, chunks, embedded.value);
                  && (svc.upsert(rows).Some? ==> IngestRun(event, svc).outcome == Thrown(svc.upsert(rows).value))
                  && (svc.upsert(rows).None? ==>
                        IngestRun(event, svc).effects
                        == [Download("documents", event.storagePath), Parse(dl.value), Embed("text-embedding-004", chunks),
                            Upsert("document_chunks", rows), UpdateStatus("documents", event.documentId, "processed")])
  {
  }

  /** What a run of the workflow says about itself, for a run known to be `IngestRun(event, svc)`. */
  lemma RunFacts(event: IngestEvent, svc: Services, r: Run)
    requires r == IngestRun(event, svc)
    ensures r.outcome.Completed? <==> AllStepsSucceed(event, svc)
    ensures MarksProcessed(r.effects, event.documentId) <==> r.outcome.Completed?
  {
    IngestRunOutcome(event, svc);
    IngestRunStatus(event, svc);
  }

  /** The `ingest-document` function, one step after another. */
  method IngestDocument(event: IngestEvent, svc: Services) returns (outcome: Outcome, effects: seq<Effect>)
    ensures Run(outcome, effects) == IngestRun(event, svc)
    ensures outcome.Completed? <==> AllStepsSucceed(event, svc)
    ensures MarksProcessed(effects, event.documentId) <==> outcome.Completed?
  {
    // 1. download-file
    effects := [Download(StorageBucket, event.storagePath)];
    var downloaded := svc.download(StorageBucket, event.storagePath);
    if downloaded.Err? {
      outcome := Thrown(DownloadErrorPrefix + downloaded.error);
      RunFacts(event, svc, Run(outcome, effects));
      return;
    }
    // 2. parse-pdf
    effects := effects + [Parse(downloaded.value)];
    var parsed := svc.parse(downloaded.value);
    if parsed.Err? {
      outcome := Thrown(parsed.error);
      RunFacts(event, svc, Run(outcome, effects));
      return;
    }
    var markdownContent := parsed.value;
    // 3. chunk-content
    var chunks := ChunkContent(markdownContent);
    // 4. generate-embeddings
    effects := effects + [Embed(EmbeddingModel, chunks)];
    var embedded := svc.embedMany(EmbeddingModel, chunks);
    if embedded.Err? {
      outcome := Thrown(embedded.error);
      RunFacts(event, svc, Run(outcome, effects));
      return;
    }
    // 5. upsert-chunks, then the status update
    var rows := BuildRows(event.documentId, chunks, embedded.value);
    effects := effects + [Upsert(ChunkTable, rows)];
    var upsertError := svc.upsert(rows);
    if upsertError.Some? {
      outcome := Thrown(upsertError.value);
      RunFacts(event, svc, Run(outcome, effects));
      return;
    }
    effects := effects + [UpdateStatus(DocumentTable, event.documentId, ProcessedStatus)];
    outcome := Completed(|chunks|);
    RunFacts(event, svc, Run(outcome, effects));
  }
}
