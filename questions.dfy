/**
 * The question-generation route: gather every chunk of the week's documents,
 * format each as "[source_type] content", cut the joined context to its first
 * 20000 characters, ask the model for questions, and pull the JSON object out
 * of its answer (from the first '{' to the last '}'), falling back to no
 * questions when there is none.
 *
 * The database is a snapshot of its two tables; the model and `JSON.parse`
 * are oracles.
 */
module Questions {
  import opened Wrappers
  import opened Text

  /** The `source_type` column of `document_chunks`. */
  datatype SourceType = Lecture | Textbook | Supervision

  datatype DocumentRow = DocumentRow(id: string, weekId: string)
  /** A stored row of `document_chunks`, as the route selects it: `content, source_type` and the owning document. */
  datatype StoredChunk = StoredChunk(documentId: string, content: string, sourceType: Option<SourceType>)
  datatype Tables = Tables(documents: seq<DocumentRow>, chunks: seq<StoredChunk>)

  /** A parsed JSON value. */
  datatype Json =
    | JNull
    | JBool(b: bool)
    | JNumber(n: real)
    | JString(s: string)
    | JArray(items: seq<Json>)
    | JObject(fields: seq<(string, Json)>)

  /** The arguments of the `generateText` call. */
  datatype TextRequest = TextRequest(model: string, system: string, prompt: string)

  datatype QuestionServices = QuestionServices(
    /** `generateText({ model, system, prompt })`: the model's text, or the error it throws. */
    generateText: TextRequest -> Result<string, string>,
    parseJson: string -> Result<Json, string>)

  datatype QuestionsResponse =
    | JsonResponse(json: Json)
    | ErrorResponse(status: nat, body: string)
    /** The model call failed; it stands outside the `try`, so the exception leaves the handler. */
    | Thrown(message: string)

  const QuestionModel := "gemini-1.5-pro"
  const ContextLimit: nat := 20000
  const PromptHeader := "CONTEXT:\n"
  const ChunkSeparator := "\n\n"
  const ParseErrorBody := "Error generating questions"
  /** `{ questions: [] }` */
  const NoQuestions := JObject([("questions", JArray([]))])

  const ExaminerInstructions :=
    "You are a Cambridge Economics Examiner for Tripos Part IIA.\n"
    + "        Your goal is to generate challenging, application-oriented practice questions based on the provided notes.\n"
    + "        \n"
    + "        RULES:\n"
    + "        - Generate 2 short-essay questions (require 200-300 word answers).\n"
    + "        - Generate 1 quantitative question (requires step-by-step mathematical derivation).\n"
    + "        - Focus on \"application of theory\" and \"critical evaluation,\" not just definitions.\n"
    + "        - Style: Academic, rigorous, and specific to the theories in the context.\n"
    + "        - Formatting: Return a JSON object with a 'questions' array. Each object has 'id', 'type' (essay/quantitative), 'text', and 'hint'."

  // ---------------------------------------------------------------------------
  // The week's chunks.

  /** `from('documents').select('id').eq('week_id', weekId)`, as a list of ids. */
  function WeekDocumentIds(documents: seq<DocumentRow>, weekId: string): seq<string>
  {
    if documents == [] then []
    else (if documents[0].weekId == weekId then [documents[0].id] else []) + WeekDocumentIds(documents[1..], weekId)
  }

  /** `from('document_chunks').select('content, source_type').in('document_id', ids)` */
  function ChunksOf(chunks: seq<StoredChunk>, ids: seq<string>): seq<StoredChunk>
  {
    if chunks == [] then []
    else (if chunks[0].documentId in ids then [chunks[0]] else []) + ChunksOf(chunks[1..], ids)
  }

  function WeekChunks(db: Tables, weekId: string): seq<StoredChunk>
  {
    ChunksOf(db.chunks, WeekDocumentIds(db.documents, weekId))
  }

  /** Some document of the table with this id belongs to the week. */
  ghost predicate InWeek(documents: seq<DocumentRow>, documentId: string, weekId: string)
  {
    exists d :: d in documents && d.id == documentId && d.weekId == weekId
  }

  lemma {:induction false} WeekDocumentIdsSpec(documents: seq<DocumentRow>, weekId: string, id: string)
    ensures id in WeekDocumentIds(documents, weekId) <==> InWeek(documents, id, weekId)
  {
    if documents != [] {
      WeekDocumentIdsSpec(documents[1..], weekId, id);
      var head := if documents[0].weekId == weekId then [documents[0].id] else [];
      assert WeekDocumentIds(documents, weekId) == head + WeekDocumentIds(documents[1..], weekId);
      if InWeek(documents, id, weekId) {
        var d :| d in documents && d.id == id && d.weekId == weekId;
        if d != documents[0] {
          assert d in documents[1..];
        }
      }
      if InWeek(documents[1..], id, weekId) {
        var d :| d in documents[1..] && d.id == id && d.weekId == weekId;
        assert d in documents;
      }
    }
  }

  lemma {:induction false} ChunksOfSpec(chunks: seq<StoredChunk>, ids: seq<string>, c: StoredChunk)
    ensures c in ChunksOf(chunks, ids) <==> c in chunks && c.documentId in ids
  {
    if chunks != [] {
      ChunksOfSpec(chunks[1..], ids, c);
      var head := if chunks[0].documentId in ids then [chunks[0]] else [];
      assert ChunksOf(chunks, ids) == head + ChunksOf(chunks[1..], ids);
      assert chunks == [chunks[0]] + chunks[1..];
    }
  }

  /** A chunk is used exactly when it is stored and its document belongs to the requested week. */
  lemma WeekChunksScoped(db: Tables, weekId: string, c: StoredChunk)
    ensures c in WeekChunks(db, weekId) <==> c in db.chunks && InWeek(db.documents, c.documentId, weekId)
  {
    ChunksOfSpec(db.chunks, WeekDocumentIds(db.documents, weekId), c);
    WeekDocumentIdsSpec(db.documents, weekId, c.documentId);
  }

  // ---------------------------------------------------------------------------
  // The context and the prompt.

  /** The text of the source type in a template: a null column prints as "null". */
  function SourceTypeText(t: Option<SourceType>): string
  {
    match t
    case None => "null"
    case Some(Lecture) => "Lecture"
    case Some(Textbook) => "Textbook"
    case Some(Supervision) => "Supervision"
  }

  /** `[${c.source_type}] ${c.content}` */
  function FormatChunk(c: StoredChunk): string
  {
    "[" + SourceTypeText(c.sourceType) + "] " + c.content
  }

  function FormatAll(chunks: seq<StoredChunk>): (lines: seq<string>)
    ensures |lines| == |chunks|
    ensures forall i :: 0 <= i < |chunks| ==> lines[i] == FormatChunk(chunks[i])
  {
    seq(|chunks|, i requires 0 <= i < |chunks| => FormatChunk(chunks[i]))
  }

  /** `contextChunks?.map(...).join('\n\n') || ""` */
  function FormatContext(chunks: Option<seq<StoredChunk>>): string
  {
    match chunks
    case None => ""
    case Some(cs) => Join(FormatAll(cs), ChunkSeparator)
  }

  /** The formatted chunk opens with its bracketed source type and then holds the content intact. */
  lemma FormatChunkParts(c: StoredChunk)
    ensures var tag := "[" + SourceTypeText(c.sourceType) + "] ";
            FormatChunk(c)[..|tag|] == tag && FormatChunk(c)[|tag|..] == c.content
    ensures FormatChunk(c)[0] == '['
  {
  }

  /**
   * The `i`-th chunk appears formatted at its offset in the context, in query
   * order, with "\n\n" before the next one.
   */
  lemma ChunkInContext(chunks: seq<StoredChunk>, i: nat)
    requires i < |chunks|
    ensures var at := Offset(FormatAll(chunks), ChunkSeparator, i);
            && at + |FormatChunk(chunks[i])| <= |FormatContext(Some(chunks))|
            && FormatContext(Some(chunks))[at..at + |FormatChunk(chunks[i])|] == FormatChunk(chunks[i])
    ensures i + 1 < |chunks| ==>
              var end := Offset(FormatAll(chunks), ChunkSeparator, i) + |FormatChunk(chunks[i])|;
              && end + 2 == Offset(FormatAll(chunks), ChunkSeparator, i + 1)
              && end + 2 <= |FormatContext(Some(chunks))|
              && FormatContext(Some(chunks))[end..end + 2] == "\n\n"
  {
    var parts := FormatAll(chunks);
    assert FormatContext(Some(chunks)) == Join(parts, ChunkSeparator);
    assert parts[i] == FormatChunk(chunks[i]);
    JoinSlice(parts, ChunkSeparator, i);
    if i + 1 < |chunks| {
      JoinSeparator(parts, ChunkSeparator, i);
    }
  }

  /** A null query result gives an empty context, and so does an empty one; the prompt is then the header alone. */
  lemma EmptyContext()
    ensures FormatContext(None) == "" && FormatContext(Some([])) == ""
    ensures QuestionPrompt("") == "CONTEXT:\n"
  {
  }

  function Min(a: nat, b: nat): nat
  {
    if a <= b then a else b
  }

  /** `CONTEXT:\n${context.slice(0, 20000)}` */
  function QuestionPrompt(context: string): (prompt: string)
    ensures |prompt| == |PromptHeader| + Min(ContextLimit, |context|)
    ensures prompt[..|PromptHeader|] == PromptHeader
    ensures prompt[|PromptHeader|..] <= context
    ensures |context| <= ContextLimit ==> prompt[|PromptHeader|..] == context
  {
    PromptHeader + context[..Min(ContextLimit, |context|)]
  }

  // ---------------------------------------------------------------------------
  // The JSON object in the model's answer.

  /** `text[i..j+1]` is a match of `/\{.*\}/s`: it opens with '{' and closes with '}'. */
  predicate IsMatch(text: string, i: int, j: int)
  {
    0 <= i < j < |text| && text[i] == '{' && text[j] == '}'
  }

  /** `text.match(/\{.*\}/s)?.[0]` */
  function ExtractJsonObject(text: string): Option<string>
  {
    if '{' !in text then None
    else
      var i := IndexOf(text, '{');
      if '}' !in text[i..] then None
      else Some(text[i..LastIndexOf(text, '}') + 1])
  }

  /**
   * The regular expression's answer: the leftmost '{' that has a '}' after it,
   * up to the last '}'; no answer exactly when no '}' follows any '{'.
   */
  lemma JsonMatchIsLeftmostLongest(text: string)
    ensures ExtractJsonObject(text).None? <==> forall i, j :: !IsMatch(text, i, j)
    ensures ExtractJsonObject(text).Some? ==>
              var i, j := IndexOf(text, '{'), LastIndexOf(text, '}');
              && IsMatch(text, i, j)
              && ExtractJsonObject(text).value == text[i..j + 1]
              && forall i', j' :: IsMatch(text, i', j') ==> i <= i' && j' <= j
  {
    if '{' in text {
      if '}' in text[IndexOf(text, '{')..] {
        JsonMatchFound(text);
      } else {
        JsonNoClose(text);
      }
    } else {
      Absent(text, '{', 0, |text|);
    }
  }

  /** With a '}' after the first '{', that '{' and the last '}' bound every match. */
  lemma JsonMatchFound(text: string)
    requires '{' in text && '}' in text[IndexOf(text, '{')..]
    ensures var i, j := IndexOf(text, '{'), LastIndexOf(text, '}');
            && IsMatch(text, i, j)
            && forall i', j' :: IsMatch(text, i', j') ==> i <= i' && j' <= j
  {
    var i := IndexOf(text, '{');
    Absent(text, '{', 0, i);
    var k := IndexOf(text[i..], '}');
    var j := LastIndexOf(text, '}');
    assert text[i + k] == '}';
    Absent(text, '}', j + 1, |text|);
  }

  /** With no '}' after the first '{', nothing matches. */
  lemma JsonNoClose(text: string)
    requires '{' in text && '}' !in text[IndexOf(text, '{')..]
    ensures forall i, j :: !IsMatch(text, i, j)
  {
    var i := IndexOf(text, '{');
    Absent(text, '{', 0, i);
    Absent(text, '}', i, |text|);
  }

  /** A character missing from a slice is missing at each of its positions. */
  lemma Absent(s: string, c: char, lo: nat, hi: nat)
    requires lo <= hi <= |s| && c !in s[lo..hi]
    ensures forall x :: lo <= x < hi ==> s[x] != c
  {
    forall x | lo <= x < hi ensures s[x] != c {
      assert s[x] == s[lo..hi][x - lo];
    }
  }

  /** The `try` block: no match gives no questions, an unparsable match a 500 response. */
  function ParseQuestions(text: string, parseJson: string -> Result<Json, string>): (r: QuestionsResponse)
    ensures ExtractJsonObject(text).None? ==> r == JsonResponse(NoQuestions)
    ensures ExtractJsonObject(text).Some? ==>
              var parsed := parseJson(ExtractJsonObject(text).value);
              (parsed.Err? <==> r == ErrorResponse(500, "Error generating questions"))
              && (parsed.Ok? ==> r == JsonResponse(parsed.value))
    ensures !r.Thrown?
  {
    match ExtractJsonObject(text)
    case None => JsonResponse(NoQuestions)
    case Some(matched) =>
      match parseJson(matched)
      case Ok(value) => JsonResponse(value)
      case Err(_) => ErrorResponse(500, ParseErrorBody)
  }

  /** The POST handler of the question-generation route. */
  function HandleGenerateQuestions(weekId: string, db: Tables, svc: QuestionServices): (r: QuestionsResponse)
    ensures var prompt := QuestionPrompt(FormatContext(Some(WeekChunks(db, weekId))));
            var answer := svc.generateText(TextRequest("gemini-1.5-pro", ExaminerInstructions, prompt));
            (answer.Err? ==> r == Thrown(answer.error))
            && (answer.Ok? ==> r == ParseQuestions(answer.value, svc.parseJson))
  {
    var context := FormatContext(Some(WeekChunks(db, weekId)));
    match svc.generateText(TextRequest(QuestionModel, ExaminerInstructions, QuestionPrompt(context)))
    case Err(e) => Thrown(e)
    case Ok(text) => ParseQuestions(text, svc.parseJson)
  }
}
