/**
 * The chat route: take the last message of the conversation as the query,
 * embed it, retrieve at most five chunks of the week above a similarity of 0.5,
 * join their contents into a context and stream an answer under a system
 * prompt that carries that context.
 *
 * The embedding model, the `match_documents` search and the text stream are
 * oracles; the handler's answer says which call it would start.
 */
module Chat {
  import opened Wrappers
  import opened Values
  import opened Text

  datatype Message = Message(role: string, content: string)

  /** The arguments of the `match_documents` call. */
  datatype MatchParams = MatchParams(queryEmbedding: Embedding, matchThreshold: real, matchCount: nat, filterWeekId: string)

  /** A retrieved chunk; only its content is used. */
  datatype MatchedChunk = MatchedChunk(content: string)

  datatype ChatServices = ChatServices(
    /** `embed({ model, value })` */
    embed: (string, string) -> Result<Embedding, string>,
    /** `{ data, error }`: an error, or data that may be null. */
    matchDocuments: MatchParams -> Result<Option<seq<MatchedChunk>>, string>)

  /** The arguments of the `streamText` call. */
  datatype StreamRequest = StreamRequest(model: string, system: string, messages: seq<Message>, temperature: real)

  datatype ChatResponse =
    | ErrorResponse(status: nat, body: string)
    | TextStream(request: StreamRequest)
    /** An exception leaves the handler (no message to read, or the embedding call failed). */
    | Thrown(message: string)

  const MatchThreshold: real := 0.5
  const MatchCount: nat := 5
  const ChatModel := "gemini-1.5-flash"
  const Temperature: real := 0.2
  const RetrievalErrorBody := "Error retrieving documents"
  /** The `TypeError` V8 raises for `lastMessage.content` when `lastMessage` is `undefined`. */
  const NoLastMessage := "Cannot read properties of undefined (reading 'content')"
  const ContextSeparator := "\n\n---\n\n"
  const ContextHeader := "CONTEXT:\n"

  /**
   * The instructions before the context. In the source's template literal
   * `\int` is not an escape sequence, so the text holds "int" without a backslash.
   */
  const SupervisorInstructions :=
    "You are a rigid Cambridge Economics Supervisor.\n\nYou must:\n"
    + "- Use standard LaTeX notation for all mathematics (e.g. $ x^2 $, $$ int f(x) dx $$)\n"
    + "- Only reason using the provided context\n"
    + "- Never introduce variables, assumptions, or steps not present in the context\n"
    + "- If the context is insufficient, state explicitly that the notes do not justify the claim\n\n"

  /** `messages[messages.length - 1].content`; nothing when there is no message. */
  function LastQuery(messages: seq<Message>): Option<string>
  {
    if |messages| == 0 then None else Some(messages[|messages| - 1].content)
  }

  /** A conversation's newest message is the query, whatever came before it. */
  lemma LastQueryAppend(history: seq<Message>, latest: Message)
    ensures LastQuery(history + [latest]) == Some(latest.content)
    ensures LastQuery([]) == None
  {
  }

  /** The retrieval request: always threshold 0.5, five chunks, scoped to the week. */
  function RetrievalParams(queryEmbedding: Embedding, weekId: string): (p: MatchParams)
    ensures p.queryEmbedding == queryEmbedding && p.filterWeekId == weekId
    ensures p.matchThreshold == 0.5 && p.matchCount == 5
  {
    MatchParams(queryEmbedding, MatchThreshold, MatchCount, weekId)
  }

  function ContentsOf(chunks: seq<MatchedChunk>): (contents: seq<string>)
    ensures |contents| == |chunks|
    ensures forall i :: 0 <= i < |chunks| ==> contents[i] == chunks[i].content
  {
    seq(|chunks|, i requires 0 <= i < |chunks| => chunks[i].content)
  }

  /** `chunks?.map(c => c.content).join("\n\n---\n\n") || ""` */
  function BuildContext(chunks: Option<seq<MatchedChunk>>): string
  {
    match chunks
    case None => ""
    case Some(cs) => Join(ContentsOf(cs), ContextSeparator)
  }

  /** The system prompt: the instructions, "CONTEXT:\n", the context and a newline. */
  function SystemPrompt(context: string): string
  {
    SupervisorInstructions + ContextHeader + context + "\n"
  }

  /** Where the context begins inside the system prompt. */
  function ContextStart(): nat
  {
    |SupervisorInstructions + ContextHeader|
  }

  /** The context read back out of a system prompt. */
  function PromptContext(prompt: string): string
    requires |prompt| > ContextStart()
  {
    prompt[ContextStart()..|prompt| - 1]
  }

  /** The prompt holds the context verbatim right after "CONTEXT:\n", and gives it back. */
  lemma PromptRoundTrip(context: string)
    ensures |SystemPrompt(context)| > ContextStart()
    ensures SystemPrompt(context)[..ContextStart()] == SupervisorInstructions + ContextHeader
    ensures SystemPrompt(context)[ContextStart() - |ContextHeader|..ContextStart()] == "CONTEXT:\n"
    ensures PromptContext(SystemPrompt(context)) == context
  {
    var head := SupervisorInstructions + ContextHeader;
    assert SystemPrompt(context) == head + (context + "\n");
    assert head[|SupervisorInstructions|..] == ContextHeader;
  }

  /** Each content stands at its offset after any head placed before the joined contents. */
  lemma ContentAfterHead(head: string, chunks: seq<MatchedChunk>, i: nat)
    requires i < |chunks|
    ensures var at := |head| + Offset(ContentsOf(chunks), ContextSeparator, i);
            var text := head + BuildContext(Some(chunks)) + "\n";
            && at + |chunks[i].content| <= |text|
            && text[at..at + |chunks[i].content|] == chunks[i].content
  {
    var contents := ContentsOf(chunks);
    var context := BuildContext(Some(chunks));
    JoinSlice(contents, ContextSeparator, i);
    var o := Offset(contents, ContextSeparator, i);
    assert head + context + "\n" == head + (context + "\n");
    assert (context + "\n")[o..o + |contents[i]|] == context[o..o + |contents[i]|];
  }

  /** The separator after each content but the last, after any head placed before the joined contents. */
  lemma SeparatorAfterHead(head: string, chunks: seq<MatchedChunk>, i: nat)
    requires i + 1 < |chunks|
    ensures var end := |head| + Offset(ContentsOf(chunks), ContextSeparator, i) + |chunks[i].content|;
            var text := head + BuildContext(Some(chunks)) + "\n";
            && end + |ContextSeparator| == |head| + Offset(ContentsOf(chunks), ContextSeparator, i + 1)
            && end + |ContextSeparator| <= |text|
            && text[end..end + |ContextSeparator|] == ContextSeparator
  {
    var contents := ContentsOf(chunks);
    var context := BuildContext(Some(chunks));
    JoinSeparator(contents, ContextSeparator, i);
    var e := Offset(contents, ContextSeparator, i) + |contents[i]|;
    assert head + context + "\n" == head + (context + "\n");
    assert (context + "\n")[e..e + |ContextSeparator|] == context[e..e + |ContextSeparator|];
  }

  /**
   * The `i`-th retrieved chunk stands verbatim in the system prompt, at its
   * offset in retrieval order.
   */
  lemma ChunkInPrompt(chunks: seq<MatchedChunk>, i: nat)
    requires i < |chunks|
    ensures var at := ContextStart() + Offset(ContentsOf(chunks), ContextSeparator, i);
            && at + |chunks[i].content| <= |SystemPrompt(BuildContext(Some(chunks)))|
            && SystemPrompt(BuildContext(Some(chunks)))[at..at + |chunks[i].content|] == chunks[i].content
  {
    ContentAfterHead(SupervisorInstructions + ContextHeader, chunks, i);
  }

  /** Between the `i`-th retrieved chunk and the next, the system prompt holds exactly "\n\n---\n\n". */
  lemma SeparatorInPrompt(chunks: seq<MatchedChunk>, i: nat)
    requires i + 1 < |chunks|
    ensures var end := ContextStart() + Offset(ContentsOf(chunks), ContextSeparator, i) + |chunks[i].content|;
            && end + 7 == ContextStart() + Offset(ContentsOf(chunks), ContextSeparator, i + 1)
            && end + 7 <= |SystemPrompt(BuildContext(Some(chunks)))|
            && SystemPrompt(BuildContext(Some(chunks)))[end..end + 7] == "\n\n---\n\n"
  {
    SeparatorAfterHead(SupervisorInstructions + ContextHeader, chunks, i);
  }

  /** A null search result gives an empty context; so does an empty one. */
  lemma EmptyContext()
    ensures BuildContext(None) == "" && BuildContext(Some([])) == ""
    ensures SystemPrompt("") == SupervisorInstructions + "CONTEXT:\n\n"
  {
  }

  /** The POST handler of the chat route. */
  function HandleChat(messages: seq<Message>, weekId: string, svc: ChatServices): (r: ChatResponse)
    ensures |messages| == 0 ==> r == Thrown(NoLastMessage)
    ensures r.TextStream? ==> r.request.messages == messages && r.request.model == ChatModel
                              && r.request.temperature == Temperature
    ensures |messages| > 0 ==>
              var query := messages[|messages| - 1].content;
              var embedded := svc.embed("text-embedding-004", query);
              (embedded.Err? ==> r == Thrown(embedded.error))
              && (embedded.Ok? ==>
                    var found := svc.matchDocuments(MatchParams(embedded.value, 0.5, 5, weekId));
                    && (found.Err? <==> r == ErrorResponse(500, "Error retrieving documents"))
                    && (found.Ok? ==> r.TextStream? && r.request.system == SystemPrompt(BuildContext(found.value))))
  {
    match LastQuery(messages)
    case None => Thrown(NoLastMessage)
    case Some(query) =>
      match svc.embed(EmbeddingModel, query)
      case Err(e) => Thrown(e)
      case Ok(embedding) =>
        match svc.matchDocuments(RetrievalParams(embedding, weekId))
        case Err(_) => ErrorResponse(500, RetrievalErrorBody)
        case Ok(chunks) =>
          TextStream(StreamRequest(ChatModel, SystemPrompt(BuildContext(chunks)), messages, Temperature))
  }
}
