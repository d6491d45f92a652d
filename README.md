# Poodle ingestion and study core, modelled in Dafny

Poodle is a study tool for Cambridge economics papers. Lecturers upload PDFs for a week of a paper, and a background workflow turns each PDF into embedded chunks. Students then chat with, or get practice questions from, that week's material. This project models the core of that pipeline:

- **Admin page** (`UploadQueue`). The submit handler checks the form and queues one pending entry per file. It then calls the upload action and merges the per-file results into the list by file name. Realtime status updates from the `documents` table are applied to the entries that carry the updated document id.
- **Upload action** (`Upload`). It validates the five form fields and finds the week, creating it when the lookup fails. Then it loops over the files. Each file is uploaded to storage under a `paper-…/term/week-…/type/name` path. A `documents` row with status `uploading` is recorded and an `app/process.file` event is sent. A failed upload or insert is reported for that file and the loop goes on.
- **Ingest workflow** (`Chunker`, `Ingest`). It downloads the file, parses it to Markdown and chunks it line by line. A chunk breaks at a heading once it is past 500 characters, or as soon as it grows past 3500. Blank chunks are dropped. The workflow then embeds the chunks in one batch with `text-embedding-004` and upserts one row per chunk. Only after a successful upsert does it mark the document `processed`.
- **Chat route** (`Chat`). It embeds the last message with `text-embedding-004`, the model that embedded the stored chunks. It then asks the `match_documents` search for up to five chunks of the week above similarity 0.5. The chunk contents are joined with `\n\n---\n\n` into the context of a fixed system prompt, and the answer is streamed. A retrieval error gives a 500 response.
- **Question route** (`Questions`). It formats every chunk of the week as `[source_type] content` and cuts the joined context to 20000 characters. It asks the model for questions and extracts the answer's JSON object, from the first `{` to the last `}`. When there is no such object the answer is an empty question list; when the object cannot be parsed the answer is a 500 response.

External services are parameters, given as function-valued fields of a `Services` datatype: storage, the database, the PDF parser, the embedding and language models, `parseInt`, `JSON.parse` and the event client. Each operation that calls them returns its answer together with the list of calls it made, in order. Per-file calls take the file's position, so two files may get different answers.

Some of what the code does is easy to misread, or does not fit together. The model keeps the code's behaviour:

- A chunk can be longer than 3500 characters although no line is, so 3500 is not a cap on chunk size. The size check runs after a line has been appended (`ChunkerExamples.OverlongChunkExample`: a 3400- and a 200-character line give one chunk of 3602 characters).
- A document that yields no chunks is not treated as a failure. The workflow embeds and upserts an empty batch, marks the document `processed` and reports `chunksProcessed` 0 (`Ingest.IngestRunOutcome`, `Ingest.IngestRunStatus`).
- The upload action sends `app/process.file` and stores files in the `materials` bucket. The ingest function listens for `documents/uploaded` and downloads from the `documents` bucket. So no event the action sends starts the workflow, and the workflow never reads what the action stored (`Pipeline.UploadCallsMissIngest`).
- The prompts ask the models for LaTeX notation, for answers drawn only from the context, and for a mix of essay and quantitative questions. Nothing in the code checks what the models return against those instructions; only the instruction texts are modelled.

Other behaviours of the code that the model keeps:

- The chat system prompt contains `int f(x)` without a backslash. `\int` in a template literal is not an escape sequence, so the backslash is dropped.
- A `null` source type prints as `null`.
- After the upload action returns, an earlier queue entry with the same file name as a new file is also rewritten with the new result (`UploadQueue.MergeResultsSpec`).
- An empty file selection passes the page's check, because an empty `FileList` is an object. The action then rejects it with "Missing required fields".

## Model

| member | source | states |
|---|---|---|
| Chunker.ChunkContent | src/inngest/functions.ts:44-64 | The imperative line loop returns exactly `Chunks(markdown)`. Every chunk has non-whitespace content and ends with "\n". Apart from its last line, it is within 3500 characters or is a single heading line. Every chunk but the last is longer than 500 characters. |
| Chunker.ChunksShape | src/inngest/functions.ts:49-63 | Every kept chunk is non-blank and ends with a newline. Apart from its last line, each is within 3500 characters or is a single heading line. All but the last exceed 500 characters. |
| Chunker.GroupShape | src/inngest/functions.ts:49-61 | Before filtering, every group ends with "\n" and obeys the size bound. Between consecutive groups, the first is past 500 characters, and past 3500 unless the next starts with '#'. |
| Chunker.GroupConcat | src/inngest/functions.ts:45-61 | Concatenating the groups gives back the Markdown followed by one newline, so no text is lost or reordered. |
| Chunker.ChunksContent | src/inngest/functions.ts:45-63 | With whitespace stripped, the chunks concatenate to the document: the blank filter drops only whitespace. |
| Chunker.ChunksEmptyIff | src/inngest/functions.ts:61-63 | There are no chunks exactly when the document is all whitespace. |
| Chunker.ShortDocument | src/inngest/functions.ts:49-63 | A non-blank document shorter than 500 characters is one chunk: the text plus "\n". |
| Chunker.KeepNonBlankSpec | src/inngest/functions.ts:63 | The filter keeps only chunks of the list that have something left after `trim()`, and never adds any. |
| Chunker.KeepNonBlankOrder | src/inngest/functions.ts:63 | The kept chunks are a subsequence of the input: the filter keeps their order. |
| Chunker.KeepNonBlankCount | src/inngest/functions.ts:63 | Each non-blank chunk is kept as often as it occurs in the input, and no blank chunk is kept. |
| Chunker.KeepNonBlankKeeps | src/inngest/functions.ts:63 | Every chunk with something left after `trim()` survives the filter. |
| ChunkerExamples.IntroMethodsExample | src/inngest/functions.ts:50-52 | A heading that arrives after 500 characters starts a new chunk. |
| ChunkerExamples.OverlongChunkExample | src/inngest/functions.ts:54-58 | Lines of at most 3500 characters can still give a 3602-character chunk, because the check runs after appending. |
| Ingest.RowsUnzip | src/inngest/functions.ts:78-82 | The rows keep the chunks in order. The rows carry the embeddings exactly when the embedder returned one vector per chunk. |
| Ingest.BuildRows | src/inngest/functions.ts:78-82 | One row per chunk, with the document id, the chunk and `embeddings[idx]` (absent past the end). |
| Ingest.IngestRunOutcome | src/inngest/functions.ts:23-96 | A run completes if and only if download, parse, embed and upsert all succeed. A completed run reports one processed chunk per chunk, so 0 exactly for a blank document. |
| Ingest.IngestRunStatus | src/inngest/functions.ts:84-94 | `processed` is written if and only if the run completes. The write is the last call, for this document, right after an upsert that succeeded. |
| Ingest.IngestRunSteps | src/inngest/functions.ts:23-94 | A download error throws "Failed to download file: …" after the download alone. An upsert error is thrown as it is. A successful upsert means the five calls, in order: download from `documents`, parse, embed with `text-embedding-004`, upsert into `document_chunks`, status update. |
| Ingest.IngestDocument | src/inngest/functions.ts:13-97 | The step-by-step workflow makes exactly the run `IngestRun` describes: the same outcome and the same calls. It completes if and only if every step succeeds, and it marks the document `processed` if and only if it completes. |
| Chat.RetrievalParams | src/app/api/chat/route.ts:24-29 | The search uses the query embedding, threshold 0.5, five matches and the week id. |
| Chat.PromptRoundTrip | src/app/api/chat/route.ts:40-50 | The context follows "CONTEXT:\n" verbatim in the system prompt and can be read back from it. |
| Chat.ChunkInPrompt | src/app/api/chat/route.ts:37-50 | Each retrieved chunk appears verbatim in the system prompt, at its offset in retrieval order. |
| Chat.SeparatorInPrompt | src/app/api/chat/route.ts:37 | Between each retrieved chunk and the next, the system prompt holds exactly "\n\n---\n\n". |
| Chat.EmptyContext | src/app/api/chat/route.ts:37-50 | A null or empty retrieval result gives an empty context, and the prompt then ends with "CONTEXT:\n\n". |
| Chat.LastQueryAppend | src/app/api/chat/route.ts:14-15 | The query is the newest message and nothing earlier; there is none for an empty conversation. |
| Chat.HandleChat | src/app/api/chat/route.ts:8-61 | No messages throws the `TypeError` of reading `content` from `undefined`. The query is embedded with `text-embedding-004`, and a failure throws its error. The search is asked for threshold 0.5, five matches and the week. A retrieval error gives exactly the 500 "Error retrieving documents". Otherwise the answer streams the whole conversation with gemini-1.5-flash at temperature 0.2, under the system prompt built from the retrieved chunks. |
| Questions.WeekChunksScoped | src/app/api/generate-questions/route.ts:13-19 | A chunk is in the context exactly when it is stored and one of the week's documents owns it. |
| Questions.WeekDocumentIdsSpec | src/app/api/generate-questions/route.ts:13-14 | An id is selected exactly when a document with that id belongs to the week. |
| Questions.ChunksOfSpec | src/app/api/generate-questions/route.ts:16-19 | A chunk is selected exactly when its document id is among the selected ids. |
| Questions.ChunkInContext | src/app/api/generate-questions/route.ts:21 | Each formatted chunk appears at its offset in the context, in query order, and exactly "\n\n" stands between it and the next. |
| Questions.EmptyContext | src/app/api/generate-questions/route.ts:21-35 | A null or empty query result gives an empty context, and the prompt is then "CONTEXT:\n" alone. |
| Questions.FormatChunkParts | src/app/api/generate-questions/route.ts:21 | A formatted chunk is the bracketed source type, a space, then the content unchanged. |
| Questions.QuestionPrompt | src/app/api/generate-questions/route.ts:35 | The prompt is "CONTEXT:\n" followed by a prefix of the context of length min(20000, length). It is the whole context when that fits. |
| Questions.JsonMatchIsLeftmostLongest | src/app/api/generate-questions/route.ts:39 | The extraction fails exactly when no '}' follows any '{'. Otherwise it runs from the leftmost '{' to the rightmost '}', and every other `{…}` span lies inside it. |
| Questions.ParseQuestions | src/app/api/generate-questions/route.ts:38-45 | No match gives `{ questions: [] }`. A parse error gives exactly the 500 "Error generating questions". A parsed object is returned as is, and parsing never throws out of the handler. |
| Questions.HandleGenerateQuestions | src/app/api/generate-questions/route.ts:7-46 | The model `gemini-1.5-pro` gets the examiner instructions and the truncated prompt of the week's chunks. Its failure throws, and its text is handled as in `ParseQuestions`. |
| Upload.ResolveWeek | src/app/actions/upload-actions.ts:22-49 | The week is looked up by paper, term and parsed week number. A found id is used as is. Otherwise the week is created with topic "Week n - term", and a creation error becomes "Failed to create week: …". |
| Upload.UploadFiles | src/app/actions/upload-actions.ts:6-100 | "Missing required fields" comes exactly when a field is empty or there are no files, and then no call is made. A week error is returned after only the lookup calls. Otherwise the action completes exactly when no event send is rejected. On completion its results are the per-file outcomes in file order, and its calls are the lookup followed by each file's calls. A rejected send for file i throws that send's message; no earlier send was rejected, and the calls are the lookup followed by the calls of files 0 to i, with no later file touched. |
| Upload.UploadOne | src/app/actions/upload-actions.ts:53-96 | One loop turn has the file's outcome and makes the file's calls, in order: upload, then insert, then send. It hands back the send's answer when the file succeeded and nothing otherwise. |
| Upload.FileOutcomeCases | src/app/actions/upload-actions.ts:53-96 | A file succeeds exactly when its upload and its insert both succeed, with the inserted id. A failure carries the failing step's message. |
| Upload.Results | src/app/actions/upload-actions.ts:51-97 | There is one result per file, the i-th being the i-th file's outcome. |
| Upload.EventsMatchUploads | src/app/actions/upload-actions.ts:87-96 | Exactly one processing event is sent per successful file and none per failed one. |
| Upload.FileEffectsShape | src/app/actions/upload-actions.ts:55-94 | Each file is first uploaded to `materials` with its type and upsert on. Any inserted row is in the week, has status `uploading` and uses the same path. Any event is `app/process.file` with the id the insert returned. |
| Upload.StoragePathSegments | src/app/actions/upload-actions.ts:55 | A path built from slash-free fields splits on '/' into exactly its five segments. |
| Upload.StoragePathInjective | src/app/actions/upload-actions.ts:55 | Within one form, two files share a path exactly when they share a name. |
| Pipeline.UploadCallsMissIngest | src/app/actions/upload-actions.ts:58-94 | No call of the upload action sends `documents/uploaded`, the event the ingest function is registered for, or stores into `documents`, the bucket it downloads from. |
| UploadQueue.StatusUpdateSpec | src/app/admin/page.tsx:55-61 | A realtime update changes the status of exactly the entries with that document id, and nothing else. Entries without an id are untouched. |
| UploadQueue.StatusUpdateLastWins | src/app/admin/page.tsx:55-61 | Of two updates for one document, only the later status remains. |
| UploadQueue.StatusUpdateIdempotent | src/app/admin/page.tsx:55-61 | Replaying an update changes nothing. |
| UploadQueue.StatusUpdatesCommute | src/app/admin/page.tsx:55-61 | Updates for different documents commute. |
| UploadQueue.PrependPendingSpec | src/app/admin/page.tsx:92-97 | The new batch comes first as `uploading` entries without ids, in file order, followed by the old list intact. |
| UploadQueue.LookupLastWins | src/app/admin/page.tsx:111 | The result map gives the last result with a name, and nothing for a name with no result. |
| UploadQueue.MergeResultsSpec | src/app/admin/page.tsx:111-115 | Merging keeps length and names. An entry whose name has no result is unchanged; any other takes the status and id of the last result with its name. |
| UploadQueue.BatchGetsItsResults | src/app/admin/page.tsx:92-115 | When names are distinct, the i-th new entry ends with the i-th file's status and document id. |
| UploadQueue.AdminPage.HandleUpload | src/app/admin/page.tsx:77-124 | With a missing field or no file list, the page shows "Missing fields" and changes nothing. Otherwise it prepends the pending entries and calls the action on the page's form. The response and the calls are those the action makes: the week lookup first, then each file's calls, with the per-file results in file order. After a rejected send for file i, the calls stop after that file's. Results are merged on success, the toast matches the response, and `uploading` ends false. An empty selection is rejected by the action. |
| UploadQueue.AdminPage.ApplyRealtimeUpdate | src/app/admin/page.tsx:54-68 | The list becomes the realtime update of the old list, nothing else changes, and the page reports ready exactly for `processed`. |
| UploadQueue.AdminPage.constructor | src/app/admin/page.tsx:21-27 | The page starts with empty fields, no files, not uploading and an empty list. |
| Text.JoinSplit | src/inngest/functions.ts:45 | Joining the split lines with "\n" gives the text back. |
| Text.SplitJoin | src/inngest/functions.ts:45 | Splitting a join of newline-free lines gives the lines back. |
| Text.JoinSeparator | src/app/api/chat/route.ts:37 | Inside a join, exactly the separator stands between each part and the next. |
| Text.TrimNonEmpty | src/inngest/functions.ts:63 | `trim()` leaves something exactly when the text has a non-whitespace character. |

## Left out

- The services are function parameters, not modelled code: storage, the database, LlamaParse, the embedding and language models, `parseInt`, `JSON.parse`, the Inngest client and the Supabase realtime channel. Their answers are whatever the parameters return.
- Step memoisation and retries of the workflow engine are not modelled. Each step runs once, in order, and a thrown error ends the run.
- The base64 round trip between the download and parse steps is not modelled: the parser receives the downloaded bytes directly.
- A failure of the `processed` status update is ignored by the code, and the model does not represent it: the update is recorded as a call with no answer.
- Ingest.BuildRows: when the embedder returns fewer vectors than chunks, the rows past the end have no embedding. The model records this, but does not model what the database does with such rows.
- Failed database queries in the question route are not modelled. The source ignores their errors, so a `null` result behaves like an empty one. The tables are given as a snapshot, and `FormatContext(None)` is the empty context.
- Length limits count Dafny characters (Unicode scalar values). JavaScript counts UTF-16 code units, which agree on the Basic Multilingual Plane.
- Streaming of the chat answer is not modelled: the model stops at the `streamText` request.
- The `console.error` logging in the chat route (line 32) and the question route (line 43) is output only and is left out.
- Questions.WeekChunksScoped: the "exactly when" holds only if every row comes back. The database caps each response at its configured maximum row count, and the model does not represent that cap.
- The exact message of a `TypeError` depends on the JavaScript engine. `Chat.NoLastMessage` is V8's wording.
- The page interleaving is not modelled. A realtime update arriving while the action is awaited is modelled before or after the whole handler, not between its state updates.
- Rendering is left out: the toasts' icons and wording, and everything else the page draws (selects, cards, animations).
- The client creation and configuration-error effect (admin page lines 31-39) and the realtime subscription lifecycle are set-up code around the modelled reducers.
- The `week.id` read after a created week whose insert reports neither error nor row is not modelled: `createWeek` returns an id or an error.
