/**
 * `ChatService`: turning retrieved chunks into a prompt, the fallback answer
 * when the language model cannot be reached, and the per-session chat
 * history store. The language model, the clock and `uuid4` are parameters;
 * the history directory is a map from session id to the stored file.
 */
module Chat {
  import opened Text
  import opened Wrappers
  import Index

  // ---------------------------------------------------------------------
  // Context

  const NoDocuments: string := "No relevant documents found."
  const ContextHeader: string := "Based on the following document excerpts:\n\n"

  /** The block one retrieved chunk contributes, numbered from 1. */
  function ContextEntry(i: nat, doc: Index.Hit): string {
    "Document " + NatToString(i) + " (from " + doc.metadata.filename + "):\n" + doc.content + "\n\n"
  }

  /** The blocks of the first `n` chunks, in retrieval order. */
  function Entries(docs: seq<Index.Hit>, n: nat): string
    requires n <= |docs|
  {
    if n == 0 then "" else Entries(docs, n - 1) + ContextEntry(n, docs[n - 1])
  }

  /** The context `_build_context` produces for the retrieved chunks. */
  function ContextText(docs: seq<Index.Hit>): string {
    if docs == [] then NoDocuments else ContextHeader + Entries(docs, |docs|)
  }

  /** `_build_context(relevant_docs)`. */
  method BuildContext(docs: seq<Index.Hit>) returns (context: string)
    ensures context == ContextText(docs)
  {
    if docs == [] {
      return NoDocuments;
    }
    context := ContextHeader;
    var i := 0;
    while i < |docs|
      invariant 0 <= i <= |docs|
      invariant context == ContextHeader + Entries(docs, i)
    {
      context := context + ContextEntry(i + 1, docs[i]);
      i := i + 1;
    }
  }

  /** The blocks of the first `k` chunks begin the blocks of the first `n`. */
  lemma {:induction false} EntriesPrefix(docs: seq<Index.Hit>, k: nat, n: nat)
    requires k <= n <= |docs|
    ensures Entries(docs, k) <= Entries(docs, n)
    decreases n
  {
    if k < n {
      EntriesPrefix(docs, k, n - 1);
    }
  }

  /**
   * Chunk `k` appears in the context as block number `k + 1`, right after the
   * header and the blocks of the chunks before it.
   */
  lemma ContextPlacesEntry(docs: seq<Index.Hit>, k: nat)
    requires k < |docs|
    ensures ContextHeader + Entries(docs, k) + ContextEntry(k + 1, docs[k]) <= ContextText(docs)
  {
    EntriesPrefix(docs, k + 1, |docs|);
    PrefixAfterHead(ContextHeader, Entries(docs, k + 1), Entries(docs, |docs|));
    ConcatAssoc(ContextHeader, Entries(docs, k), ContextEntry(k + 1, docs[k]));
  }

  lemma ConcatAssoc<T>(a: seq<T>, b: seq<T>, c: seq<T>)
    ensures a + b + c == a + (b + c)
  {
  }

  lemma PrefixAfterHead<T>(h: seq<T>, a: seq<T>, b: seq<T>)
    requires a <= b
    ensures h + a <= h + b
  {
    assert (h + b)[..|h| + |a|] == h + a;
  }

  /** Retrieving more chunks only appends to the context. */
  lemma ContextExtends(docs: seq<Index.Hit>, n: nat)
    requires 1 <= n <= |docs|
    ensures ContextText(docs[..n]) <= ContextText(docs)
  {
    EntriesOfPrefix(docs, n, n);
    EntriesPrefix(docs, n, |docs|);
    PrefixAfterHead(ContextHeader, Entries(docs, n), Entries(docs, |docs|));
  }

  /** The blocks of the first `m` chunks depend only on those chunks. */
  lemma {:induction false} EntriesOfPrefix(docs: seq<Index.Hit>, n: nat, m: nat)
    requires m <= n <= |docs|
    ensures Entries(docs[..n], m) == Entries(docs, m)
    decreases m
  {
    if m > 0 {
      EntriesOfPrefix(docs, n, m - 1);
      assert docs[..n][m - 1] == docs[m - 1];
    }
  }

  /** The context is the "no documents" sentence exactly when nothing was retrieved. */
  lemma ContextEmptyIff(docs: seq<Index.Hit>)
    ensures ContextText(docs) == NoDocuments <==> docs == []
  {
    if docs != [] {
      var c := ContextText(docs);
      assert c[0] == ContextHeader[0] != NoDocuments[0];
    }
  }

  // ---------------------------------------------------------------------
  // System prompt

  const PromptPreamble: string :=
    "You are a helpful AI assistant that answers questions based on provided documents. \n\n"
  const PromptInstructions: string :=
    "\n\nInstructions:\n"
    + "1. Answer questions based primarily on the provided document excerpts\n"
    + "2. If the documents don't contain relevant information, clearly state that\n"
    + "3. Be concise and accurate in your responses\n"
    + "4. Always cite which document your information comes from when possible\n"
    + "5. If you're unsure about something, say so\n"
    + "6. Maintain a helpful and professional tone\n\n"
    + "Remember: Your knowledge comes from the documents provided above. "
    + "Focus on providing accurate information based on these sources."

  /** `_build_system_prompt(context)`: the context between a fixed preamble and fixed instructions. */
  function SystemPrompt(context: string): string {
    PromptPreamble + context + PromptInstructions
  }

  /** The context can be read back out of the prompt, so different contexts give different prompts. */
  lemma SystemPromptHoldsContext(context: string)
    ensures var p := SystemPrompt(context);
      |p| == |PromptPreamble| + |context| + |PromptInstructions|
      && p[..|PromptPreamble|] == PromptPreamble
      && p[|PromptPreamble|..|PromptPreamble| + |context|] == context
      && p[|PromptPreamble| + |context|..] == PromptInstructions
  {
  }

  lemma SystemPromptInjective(c1: string, c2: string)
    requires SystemPrompt(c1) == SystemPrompt(c2)
    ensures c1 == c2
  {
    SystemPromptHoldsContext(c1);
    SystemPromptHoldsContext(c2);
  }

  // ---------------------------------------------------------------------
  // Messages for the language model

  datatype Role = System | User | Assistant

  /** `MessageRole.value`. */
  function RoleName(r: Role): string {
    match r
    case System => "system"
    case User => "user"
    case Assistant => "assistant"
  }

  /** A stored `ChatMessage`. */
  datatype ChatMessage = ChatMessage(id: string, role: Role, content: string, timestamp: nat, sessionId: string)

  /** One `{"role", "content"}` dictionary sent to the model; the role is its `.value` string. */
  datatype PromptMessage = PromptMessage(role: string, content: string)

  /** Number of earlier messages replayed to the model. */
  const HistoryWindow: nat := 10

  /** The messages replayed to the model: the oldest dropped until at most ten remain (RecentIsLastTen). */
  function Recent(history: seq<ChatMessage>): seq<ChatMessage>
  {
    if |history| <= HistoryWindow then history else Recent(history[1..])
  }

  /** `history[-10:]`: the replayed messages are the last `min(10, |history|)` ones. */
  lemma {:induction false} RecentIsLastTen(history: seq<ChatMessage>)
    ensures Recent(history) == history[|history| - Min(HistoryWindow, |history|)..]
  {
    if |history| > HistoryWindow {
      RecentIsLastTen(history[1..]);
      assert history[1..][|history| - 1 - HistoryWindow..] == history[|history| - HistoryWindow..];
    }
  }

  /** `{"role": msg.role.value, "content": msg.content}` for each message, in order. */
  function Replay(msgs: seq<ChatMessage>): seq<PromptMessage> {
    if msgs == [] then []
    else Replay(msgs[..|msgs| - 1]) + [PromptMessage(RoleName(msgs[|msgs| - 1].role), msgs[|msgs| - 1].content)]
  }

  /** Replaying keeps each message's role and content at its own position. */
  lemma {:induction false} ReplayShape(msgs: seq<ChatMessage>)
    ensures |Replay(msgs)| == |msgs|
    ensures forall k :: 0 <= k < |msgs| ==> Replay(msgs)[k] == PromptMessage(RoleName(msgs[k].role), msgs[k].content)
  {
    if msgs != [] {
      ReplayShape(msgs[..|msgs| - 1]);
    }
  }

  /** The list `generate_response` sends: system prompt, recent history, the user's message. */
  function PromptMessages(systemPrompt: string, history: seq<ChatMessage>, userMessage: string): seq<PromptMessage> {
    [PromptMessage(RoleName(System), systemPrompt)] + Replay(Recent(history)) + [PromptMessage(RoleName(User), userMessage)]
  }

  /**
   * The message list is the system prompt, then the last `min(10, |history|)`
   * stored messages in their order with role and content, then the user's
   * message: `min(10, |history|) + 2` messages.
   */
  lemma PromptMessagesShape(systemPrompt: string, history: seq<ChatMessage>, userMessage: string)
    ensures var ms := PromptMessages(systemPrompt, history, userMessage);
      var w := Min(HistoryWindow, |history|);
      && |ms| == w + 2
      && ms[0] == PromptMessage("system", systemPrompt)
      && ms[|ms| - 1] == PromptMessage("user", userMessage)
      && forall k :: 1 <= k <= w ==>
           ms[k] == PromptMessage(RoleName(history[|history| - w + k - 1].role), history[|history| - w + k - 1].content)
  {
    var recent := Recent(history);
    RecentIsLastTen(history);
    ReplayShape(recent);
    var ms := PromptMessages(systemPrompt, history, userMessage);
    forall k | 1 <= k <= |recent|
      ensures ms[k] == PromptMessage(RoleName(recent[k - 1].role), recent[k - 1].content)
    {
      assert ms[k] == Replay(recent)[k - 1];
    }
  }

  /** After a turn, the next prompt replays that turn's two messages last. */
  lemma NextPromptEndsWithTurn(history: seq<ChatMessage>, u: ChatMessage, a: ChatMessage)
    ensures var r := Recent(history + [u, a]);
      |r| >= 2 && r[|r| - 2..] == [u, a]
  {
    RecentIsLastTen(history + [u, a]);
  }

  /** The message-list construction of `generate_response`. */
  method BuildMessages(systemPrompt: string, history: seq<ChatMessage>, userMessage: string)
    returns (messages: seq<PromptMessage>)
    ensures messages == PromptMessages(systemPrompt, history, userMessage)
  {
    messages := [PromptMessage(RoleName(System), systemPrompt)];
    var recent := history[|history| - Min(HistoryWindow, |history|)..];
    RecentIsLastTen(history);
    var i := 0;
    while i < |recent|
      invariant 0 <= i <= |recent| && recent == Recent(history)
      invariant messages == [PromptMessage(RoleName(System), systemPrompt)] + Replay(recent[..i])
    {
      assert recent[..i + 1][..i] == recent[..i];
      messages := messages + [PromptMessage(RoleName(recent[i].role), recent[i].content)];
      i := i + 1;
    }
    assert recent[..i] == recent;
    messages := messages + [PromptMessage(RoleName(User), userMessage)];
  }

  // ---------------------------------------------------------------------
  // Sources

  /** `[doc["metadata"]["filename"] for doc in relevant_docs]`. */
  function Filenames(docs: seq<Index.Hit>): (fs: seq<string>)
    ensures |fs| == |docs|
    ensures forall k :: 0 <= k < |docs| ==> fs[k] == docs[k].metadata.filename
  {
    seq(|docs|, k requires 0 <= k < |docs| => docs[k].metadata.filename)
  }

  predicate NoDuplicates<T(==)>(xs: seq<T>) {
    forall i, j :: 0 <= i < j < |xs| ==> xs[i] != xs[j]
  }

  /**
   * `list(set(xs))`: the distinct elements of `xs`, each once. Python leaves
   * the order open; this keeps first occurrences.
   */
  function Distinct(xs: seq<string>): (r: seq<string>)
    ensures NoDuplicates(r)
    ensures forall x :: x in r <==> x in xs
    ensures |r| <= |xs|
  {
    if xs == [] then []
    else
      var rest := Distinct(xs[..|xs| - 1]);
      if xs[|xs| - 1] in rest then rest else rest + [xs[|xs| - 1]]
  }

  // ---------------------------------------------------------------------
  // Fallback answer

  const Apology: string :=
    "I apologize, but I couldn't find relevant information in the uploaded documents to answer your question. "
    + "Could you please try rephrasing your question or upload more relevant documents?"
  const FallbackHeader: string := "Based on the uploaded documents, I found some relevant information:\n\n"
  const FallbackNote: string :=
    "Note: I'm currently unable to provide a more detailed analysis. Please try your question again."

  /** Number of chunks the fallback answer quotes, and characters quoted from each. */
  const FallbackDocs: nat := 2
  const ExcerptLength: nat := 300

  /** `content[:300]`. */
  function Excerpt(content: string): string {
    content[..Min(ExcerptLength, |content|)]
  }

  function FallbackEntry(doc: Index.Hit): string {
    "From " + doc.metadata.filename + ":\n" + Excerpt(doc.content) + "...\n\n"
  }

  /** The fallback blocks of the first `n` chunks. */
  function FallbackEntries(docs: seq<Index.Hit>, n: nat): string
    requires n <= |docs|
  {
    if n == 0 then "" else FallbackEntries(docs, n - 1) + FallbackEntry(docs[n - 1])
  }

  /** `relevant_docs[:2]`. */
  function Quoted(docs: seq<Index.Hit>): seq<Index.Hit> {
    docs[..Min(FallbackDocs, |docs|)]
  }

  /** The text `_generate_fallback_response` produces. */
  function FallbackText(docs: seq<Index.Hit>): string {
    if docs == [] then Apology
    else FallbackHeader + FallbackEntries(Quoted(docs), |Quoted(docs)|) + FallbackNote
  }

  /** `_generate_fallback_response(user_message, relevant_docs)`; the user's message is not used. */
  method GenerateFallbackResponse(userMessage: string, docs: seq<Index.Hit>) returns (response: string)
    ensures response == FallbackText(docs)
  {
    if docs == [] {
      return Apology;
    }
    response := FallbackHeader;
    var quoted := docs[..Min(FallbackDocs, |docs|)];
    var i := 0;
    while i < |quoted|
      invariant 0 <= i <= |quoted| && quoted == Quoted(docs)
      invariant response == FallbackHeader + FallbackEntries(quoted, i)
    {
      response := response + FallbackEntry(quoted[i]);
      i := i + 1;
    }
    response := response + FallbackNote;
  }

  /** An excerpt is the start of the chunk, at most 300 characters long, and all of a short chunk. */
  lemma ExcerptShape(content: string)
    ensures |Excerpt(content)| <= ExcerptLength
    ensures Excerpt(content) <= content
    ensures |content| <= ExcerptLength ==> Excerpt(content) == content
  {
  }

  /**
   * With chunks retrieved, the fallback quotes the first one, then the
   * second if there is one, and always ends with the note.
   */
  lemma FallbackQuotesFirstTwo(docs: seq<Index.Hit>)
    requires docs != []
    ensures FallbackText(docs) ==
      FallbackHeader + FallbackEntry(docs[0])
      + (if |docs| >= 2 then FallbackEntry(docs[1]) else "")
      + FallbackNote
  {
    var q := Quoted(docs);
    assert FallbackText(docs) == FallbackHeader + FallbackEntries(q, |q|) + FallbackNote;
    if |docs| >= 2 {
      assert |q| == 2 && q[0] == docs[0] && q[1] == docs[1];
      assert FallbackEntries(q, 1) == FallbackEntry(docs[0]);
      assert FallbackEntries(q, 2) == FallbackEntry(docs[0]) + FallbackEntry(docs[1]);
      ConcatAssoc(FallbackHeader, FallbackEntry(docs[0]), FallbackEntry(docs[1]));
    } else {
      assert q == docs;
      assert FallbackEntries(q, 1) == FallbackEntry(docs[0]);
    }
  }

  /** Chunks after the second never change the fallback answer. */
  lemma FallbackIgnoresRest(docs: seq<Index.Hit>, more: seq<Index.Hit>)
    requires |docs| >= FallbackDocs
    ensures FallbackText(docs + more) == FallbackText(docs)
  {
    FallbackQuotesFirstTwo(docs);
    FallbackQuotesFirstTwo(docs + more);
  }

  /** The fallback answer ends with the note exactly when something was retrieved. */
  lemma FallbackEndsWithNote(docs: seq<Index.Hit>)
    ensures docs != [] ==>
      |FallbackNote| <= |FallbackText(docs)|
      && FallbackText(docs)[|FallbackText(docs)| - |FallbackNote|..] == FallbackNote
    ensures docs == [] ==> FallbackText(docs) == Apology
  {
  }

  // ---------------------------------------------------------------------
  // History store

  /** `ChatHistory`: a session's messages with its creation and last-update times. */
  datatype History = History(sessionId: string, messages: seq<ChatMessage>, createdAt: nat, updatedAt: nat)

  /** The file of a session: a history, or a file that does not parse. */
  datatype StoredHistory = Stored(history: History) | Unreadable

  /** The id `uuid4()` and the time `datetime.now()` give a new message. */
  datatype Stamp = Stamp(id: string, time: nat)

  /** `f"{session_id}.json"`. */
  function HistoryFile(sessionId: string): string {
    sessionId + ".json"
  }

  /** The file name's stem gives back the session id when the id names a plain file. */
  lemma HistoryFileStem(sessionId: string)
    requires sessionId != [] && '/' !in sessionId
    ensures Stem(HistoryFile(sessionId)) == sessionId
  {
    var f := HistoryFile(sessionId);
    assert f[|f| - 1] == 'n';
    assert RFind(f, '/') == -1;
    assert Name(f) == f;
    assert RFind(f, '.') == |sessionId| by {
      assert f[|sessionId|] == '.';
      assert forall k :: |sessionId| < k < |f| ==> f[k] != '.';
    }
  }

  /** The session id `get_all_sessions` reads off a history file's name. */
  function SessionName(sessionId: string): string {
    Stem(HistoryFile(sessionId))
  }

  function SessionNames(files: map<string, StoredHistory>): set<string> {
    set id | id in files :: SessionName(id)
  }

  /** When every session id names a plain file, the sessions listed are exactly the stored ones. */
  lemma SessionNamesArePlainIds(files: map<string, StoredHistory>)
    requires forall id :: id in files ==> id != [] && '/' !in id
    ensures SessionNames(files) == files.Keys
  {
    forall id | id in files ensures SessionName(id) == id {
      HistoryFileStem(id);
    }
  }

  /** What `get_chat_history` returns: the stored messages, or [] for an unknown or unreadable session. */
  function StoredMessages(files: map<string, StoredHistory>, sessionId: string): seq<ChatMessage> {
    if sessionId in files && files[sessionId].Stored? then files[sessionId].history.messages else []
  }

  /** Saving fails only on a session file that cannot be read. */
  predicate CanSave(files: map<string, StoredHistory>, sessionId: string) {
    sessionId !in files || files[sessionId].Stored?
  }

  /** The history after `_save_message_to_history` appends `msg` at time `now`. */
  function Appended(files: map<string, StoredHistory>, sessionId: string, msg: ChatMessage, now: nat): History
    requires CanSave(files, sessionId)
  {
    if sessionId in files then
      var h := files[sessionId].history;
      h.(messages := h.messages + [msg], updatedAt := now)
    else History(sessionId, [msg], now, now)
  }

  function WithMessage(files: map<string, StoredHistory>, sessionId: string, msg: ChatMessage, now: nat)
    : (r: map<string, StoredHistory>)
    requires CanSave(files, sessionId)
    ensures CanSave(r, sessionId)
  {
    files[sessionId := Stored(Appended(files, sessionId, msg, now))]
  }

  /**
   * Appending adds exactly that message after the old ones and stamps the
   * update time; a new session starts with that one message and is created
   * at that time; an existing session keeps its creation time.
   */
  lemma AppendedEffect(files: map<string, StoredHistory>, sessionId: string, msg: ChatMessage, now: nat)
    requires CanSave(files, sessionId)
    ensures var after := WithMessage(files, sessionId, msg, now);
      && StoredMessages(after, sessionId) == StoredMessages(files, sessionId) + [msg]
      && after[sessionId].history.updatedAt == now
      && (sessionId !in files ==> StoredMessages(after, sessionId) == [msg]
                                  && after[sessionId].history.createdAt == now)
      && (sessionId in files ==> after[sessionId].history.createdAt == files[sessionId].history.createdAt)
      && forall s :: s != sessionId ==> StoredMessages(after, s) == StoredMessages(files, s)
  {
  }

  /** After clearing, the session reads back as empty and other sessions are as before. */
  lemma ClearedIsEmpty(files: map<string, StoredHistory>, sessionId: string)
    ensures StoredMessages(files - {sessionId}, sessionId) == []
    ensures forall s :: s != sessionId ==> StoredMessages(files - {sessionId}, s) == StoredMessages(files, s)
  {
  }

  /**
   * The `usage` of a completion: absent (`tokens_used` is then 0), None
   * (reading `total_tokens` then raises), or the total token count.
   */
  datatype Usage = NoUsage | NullUsage | Tokens(total: nat)

  /** A completion: the answer's text and its usage. */
  datatype Completion = Completion(content: string, usage: Usage)

  /** `response.usage.total_tokens if hasattr(response, 'usage') else 0`, or None where it raises. */
  function TokensUsed(u: Usage): Option<nat> {
    match u
    case NoUsage => Some(0)
    case NullUsage => None
    case Tokens(n) => Some(n)
  }

  /** `str(e)` for the `AttributeError` raised by a None `usage`. */
  const UsageError: string := "'NoneType' object has no attribute 'total_tokens'"

  /** `ChatResponse.metadata`: the document count and token usage, or the error. */
  datatype ReplyMetadata = Counts(relevantDocsCount: nat, tokensUsed: nat) | Failed(error: string)

  /** `ChatResponse` without the response time. */
  datatype ChatReply = ChatReply(message: string, sources: seq<string>, sessionId: string, metadata: ReplyMetadata)

  /** The `try` block of `generate_response` runs to its `return`: the model answered with a readable usage. */
  predicate ModelAnswered(outcome: Result<Completion, string>) {
    outcome.Success? && TokensUsed(outcome.value.usage).Some?
  }

  /** The exception the `except` branch reports. */
  function TurnError(outcome: Result<Completion, string>): string
    requires !ModelAnswered(outcome)
  {
    if outcome.Failure? then outcome.error else UsageError
  }

  /** The text that is returned as the assistant's answer. */
  function AnswerText(docs: seq<Index.Hit>, outcome: Result<Completion, string>): string {
    if ModelAnswered(outcome) then outcome.value.content else FallbackText(docs)
  }

  /** The messages a turn sends: the prompt from the chunks, the stored history, the user's message. */
  function TurnPrompt(docs: seq<Index.Hit>, history: seq<ChatMessage>, userMessage: string): seq<PromptMessage> {
    PromptMessages(SystemPrompt(ContextText(docs)), history, userMessage)
  }

  /**
   * What a reply promises: the model's answer with the distinct filenames of
   * the chunks as sources, in no particular order, the document count and
   * the token usage; or, when the `try` block raised, the fallback text with
   * every filename in retrieval order and the error.
   */
  ghost predicate ReplyFor(reply: ChatReply, docs: seq<Index.Hit>, sessionId: string, outcome: Result<Completion, string>) {
    && reply.sessionId == sessionId
    && reply.message == AnswerText(docs, outcome)
    && (ModelAnswered(outcome) ==>
          && reply.metadata == Counts(|docs|, TokensUsed(outcome.value.usage).value)
          && NoDuplicates(reply.sources)
          && forall f :: f in reply.sources <==> f in Filenames(docs))
    && (!ModelAnswered(outcome) ==> reply.metadata == Failed(TurnError(outcome)) && reply.sources == Filenames(docs))
  }

  /** The history directory after a turn stores the user's message and the answer. */
  function AfterTurn(files: map<string, StoredHistory>, sessionId: string, userMessage: string, answer: string,
                     userStamp: Stamp, replyStamp: Stamp): (r: map<string, StoredHistory>)
    requires CanSave(files, sessionId)
    ensures CanSave(r, sessionId)
  {
    var mid := WithMessage(files, sessionId,
                           ChatMessage(userStamp.id, User, userMessage, userStamp.time, sessionId), userStamp.time);
    WithMessage(mid, sessionId, ChatMessage(replyStamp.id, Assistant, answer, replyStamp.time, sessionId), replyStamp.time)
  }

  /**
   * A turn stores exactly two messages after the earlier ones, the user's
   * then the answer, stamps the session's update time, and leaves every
   * other session alone.
   */
  lemma TurnAppendsTwo(files: map<string, StoredHistory>, sessionId: string, userMessage: string, answer: string,
                       userStamp: Stamp, replyStamp: Stamp)
    requires CanSave(files, sessionId)
    ensures var after := AfterTurn(files, sessionId, userMessage, answer, userStamp, replyStamp);
      && StoredMessages(after, sessionId) == StoredMessages(files, sessionId) + [
           ChatMessage(userStamp.id, User, userMessage, userStamp.time, sessionId),
           ChatMessage(replyStamp.id, Assistant, answer, replyStamp.time, sessionId)]
      && after[sessionId].history.updatedAt == replyStamp.time
      && forall s :: s != sessionId ==> StoredMessages(after, s) == StoredMessages(files, s)
  {
    var u := ChatMessage(userStamp.id, User, userMessage, userStamp.time, sessionId);
    var mid := WithMessage(files, sessionId, u, userStamp.time);
    AppendedEffect(files, sessionId, u, userStamp.time);
    AppendedEffect(mid, sessionId, ChatMessage(replyStamp.id, Assistant, answer, replyStamp.time, sessionId),
                   replyStamp.time);
  }

  /**
   * The history directory after `generate_response`, the `i`-th message
   * saved being stamped `stamps(i)`. The user's message and the answer are
   * saved inside the `try`; when the model fails they are the user's message
   * and the fallback instead. When the usage then cannot be read, the
   * `except` branch saves the user's message again, and the fallback.
   */
  function StoredTurn(files: map<string, StoredHistory>, sessionId: string, userMessage: string,
                      docs: seq<Index.Hit>, outcome: Result<Completion, string>, stamps: nat -> Stamp)
    : map<string, StoredHistory>
    requires CanSave(files, sessionId)
  {
    if outcome.Failure? then AfterTurn(files, sessionId, userMessage, FallbackText(docs), stamps(0), stamps(1))
    else
      var answered := AfterTurn(files, sessionId, userMessage, outcome.value.content, stamps(0), stamps(1));
      if ModelAnswered(outcome) then answered
      else AfterTurn(answered, sessionId, userMessage, FallbackText(docs), stamps(2), stamps(3))
  }

  /**
   * A turn appends the user's message and the returned answer, except when
   * the model answered but its usage could not be read: then the user's
   * message, the model's answer, the user's message again and the fallback
   * are appended. Other sessions are left alone.
   */
  lemma StoredTurnMessages(files: map<string, StoredHistory>, sessionId: string, userMessage: string,
                           docs: seq<Index.Hit>, outcome: Result<Completion, string>, stamps: nat -> Stamp)
    requires CanSave(files, sessionId)
    ensures var after := StoredTurn(files, sessionId, userMessage, docs, outcome, stamps);
      var before := StoredMessages(files, sessionId);
      && (outcome.Failure? || ModelAnswered(outcome) ==>
            StoredMessages(after, sessionId) == before + [
              ChatMessage(stamps(0).id, User, userMessage, stamps(0).time, sessionId),
              ChatMessage(stamps(1).id, Assistant, AnswerText(docs, outcome), stamps(1).time, sessionId)])
      && (outcome.Success? && !ModelAnswered(outcome) ==>
            StoredMessages(after, sessionId) == before + [
              ChatMessage(stamps(0).id, User, userMessage, stamps(0).time, sessionId),
              ChatMessage(stamps(1).id, Assistant, outcome.value.content, stamps(1).time, sessionId),
              ChatMessage(stamps(2).id, User, userMessage, stamps(2).time, sessionId),
              ChatMessage(stamps(3).id, Assistant, FallbackText(docs), stamps(3).time, sessionId)])
      && forall s :: s != sessionId ==> StoredMessages(after, s) == StoredMessages(files, s)
  {
    var answer := AnswerText(docs, outcome);
    if outcome.Failure? || ModelAnswered(outcome) {
      TurnAppendsTwo(files, sessionId, userMessage, answer, stamps(0), stamps(1));
    } else {
      var content := outcome.value.content;
      var answered := AfterTurn(files, sessionId, userMessage, content, stamps(0), stamps(1));
      TurnAppendsTwo(files, sessionId, userMessage, content, stamps(0), stamps(1));
      TurnAppendsTwo(answered, sessionId, userMessage, FallbackText(docs), stamps(2), stamps(3));
    }
  }

  class ChatService {
    /** The history directory: session id to the content of `<session_id>.json`. */
    var files: map<string, StoredHistory>

    /** Opening the history directory with whatever it already holds. */
    constructor(stored: map<string, StoredHistory>)
      ensures files == stored
    {
      files := stored;
    }

    /**
     * `_save_message_to_history(session_id, content, role)`: append a new
     * message; a file that cannot be read makes the call fail and changes
     * nothing.
     */
    method SaveMessageToHistory(sessionId: string, content: string, role: Role, stamp: Stamp)
      returns (saved: Outcome<string>)
      modifies this
      ensures !CanSave(old(files), sessionId) ==> saved.Fail? && files == old(files)
      ensures CanSave(old(files), sessionId) ==>
        saved.Pass? && files == WithMessage(old(files), sessionId,
                                            ChatMessage(stamp.id, role, content, stamp.time, sessionId), stamp.time)
    {
      var message := ChatMessage(stamp.id, role, content, stamp.time, sessionId);
      var history: History;
      if sessionId !in files {
        history := History(sessionId, [], stamp.time, stamp.time);
        assert history.messages + [message] == [message];
      } else if files[sessionId].Unreadable? {
        return Fail("cannot read history file " + HistoryFile(sessionId));
      } else {
        history := files[sessionId].history;
      }
      history := history.(messages := history.messages + [message], updatedAt := stamp.time);
      files := files[sessionId := Stored(history)];
      saved := Pass;
    }

    /** `get_chat_history(session_id)`. */
    method GetChatHistory(sessionId: string) returns (messages: seq<ChatMessage>)
      ensures messages == StoredMessages(files, sessionId)
    {
      if sessionId !in files {
        return [];
      }
      match files[sessionId]
      case Unreadable =>
        messages := [];
      case Stored(h) =>
        messages := h.messages;
    }

    /** `clear_chat_history(session_id)`: remove the session's file if there is one. */
    method ClearChatHistory(sessionId: string)
      modifies this
      ensures files == old(files) - {sessionId}
    {
      if sessionId in files {
        files := files - {sessionId};
      }
    }

    /**
     * `get_all_sessions()`: the stem of every history file, each file once,
     * in the order the directory lists them.
     */
    method GetAllSessions() returns (sessions: seq<string>)
      ensures |sessions| == |files|
      ensures forall s :: s in sessions ==> s in SessionNames(files)
      ensures forall id :: id in files ==> SessionName(id) in sessions
    {
      var remaining := files.Keys;
      sessions := [];
      while remaining != {}
        invariant remaining <= files.Keys
        invariant |sessions| + |remaining| == |files|
        invariant forall s :: s in sessions ==> s in SessionNames(files)
        invariant forall id :: id in files && id !in remaining ==> SessionName(id) in sessions
        decreases |remaining|
      {
        var id :| id in remaining;
        sessions := sessions + [Stem(HistoryFile(id))];
        remaining := remaining - {id};
      }
    }

    /**
     * `generate_response(user_message, relevant_docs, session_id)`. The
     * prompt is built from the chunks and the history as it was before this
     * turn; `complete` stands for the language model, whose failure selects
     * the fallback answer, and `stamps(i)` for the id and time of the `i`-th
     * message saved. A history file that cannot be read makes the turn fail
     * and changes nothing.
     */
    method GenerateResponse(userMessage: string, docs: seq<Index.Hit>, sessionId: string,
                            complete: seq<PromptMessage> -> Result<Completion, string>, stamps: nat -> Stamp)
      returns (r: Result<ChatReply, string>)
      modifies this
      ensures r.Success? <==> CanSave(old(files), sessionId)
      ensures r.Failure? ==> files == old(files)
      ensures r.Success? ==>
        var outcome := complete(TurnPrompt(docs, StoredMessages(old(files), sessionId), userMessage));
        && ReplyFor(r.value, docs, sessionId, outcome)
        && files == StoredTurn(old(files), sessionId, userMessage, docs, outcome, stamps)
    {
      var messages := Prompt(docs, sessionId, userMessage);
      var outcome := complete(messages);
      if outcome.Failure? {
        r := AnswerWithFallback(userMessage, docs, sessionId, outcome.error, stamps(0), stamps(1));
        return;
      }
      var saved := SaveTurn(sessionId, userMessage, outcome.value.content, stamps(0), stamps(1));
      if saved.Fail? {
        // The `except` branch fails again on the same file.
        r := AnswerWithFallback(userMessage, docs, sessionId, saved.error, stamps(0), stamps(1));
        return;
      }
      var tokens := TokensUsed(outcome.value.usage);
      if tokens.None? {
        r := AnswerWithFallback(userMessage, docs, sessionId, UsageError, stamps(2), stamps(3));
        return;
      }
      r := Success(ChatReply(outcome.value.content, Distinct(Filenames(docs)), sessionId, Counts(|docs|, tokens.value)));
    }

    /**
     * The `except` branch of `generate_response`: store the user's message
     * and the fallback answer, and report the error; it fails, changing
     * nothing, on a history file that cannot be read.
     */
    method AnswerWithFallback(userMessage: string, docs: seq<Index.Hit>, sessionId: string, error: string,
                              userStamp: Stamp, replyStamp: Stamp)
      returns (r: Result<ChatReply, string>)
      modifies this
      ensures !CanSave(old(files), sessionId) ==> r.Failure? && files == old(files)
      ensures CanSave(old(files), sessionId) ==>
        && r == Success(ChatReply(FallbackText(docs), Filenames(docs), sessionId, Failed(error)))
        && files == AfterTurn(old(files), sessionId, userMessage, FallbackText(docs), userStamp, replyStamp)
    {
      var fallback := GenerateFallbackResponse(userMessage, docs);
      var saved := SaveTurn(sessionId, userMessage, fallback, userStamp, replyStamp);
      if saved.Fail? {
        return Failure(saved.error);
      }
      r := Success(ChatReply(fallback, Filenames(docs), sessionId, Failed(error)));
    }

    /** The messages `generate_response` sends, from the history as stored before the turn. */
    method Prompt(docs: seq<Index.Hit>, sessionId: string, userMessage: string) returns (messages: seq<PromptMessage>)
      ensures messages == TurnPrompt(docs, StoredMessages(files, sessionId), userMessage)
    {
      var context := BuildContext(docs);
      var systemPrompt := SystemPrompt(context);
      var history := GetChatHistory(sessionId);
      messages := BuildMessages(systemPrompt, history, userMessage);
    }

    /**
     * Storing a turn: the user's message, then the answer. A save that fails
     * after a successful completion raises inside the `try`; the fallback
     * path then fails on the same file, so the turn fails either way.
     */
    method SaveTurn(sessionId: string, userMessage: string, answer: string, userStamp: Stamp, replyStamp: Stamp)
      returns (saved: Outcome<string>)
      modifies this
      ensures !CanSave(old(files), sessionId) ==> saved.Fail? && files == old(files)
      ensures CanSave(old(files), sessionId) ==>
        saved.Pass? && files == AfterTurn(old(files), sessionId, userMessage, answer, userStamp, replyStamp)
    {
      saved := SaveMessageToHistory(sessionId, userMessage, User, userStamp);
      if saved.Pass? {
        saved := SaveMessageToHistory(sessionId, answer, Assistant, replyStamp);
      }
    }
  }
}
