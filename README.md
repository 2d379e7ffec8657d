# RAGify services in Dafny

A model of the three backend services of RAGify, a retrieval-augmented chat
application:

- **DocumentService** (`backend/services/document_service.py`):
  - storing an uploaded file under `data/documents/<id><suffix>`;
  - the metadata table (`self.metadata`, a dictionary from document id to record);
  - picking a reader from the file suffix;
  - the chunker `_split_text_into_chunks`;
  - the newest-first document list;
  - deletion.
- **EmbeddingService** (`backend/services/embedding_service.py`):
  - the ids and metadata under which each chunk is filed;
  - reshaping a vector query's answer into search hits;
  - deleting and listing one document's chunks;
  - counting the collection.
- **ChatService** (`backend/services/chat_service.py`):
  - the context block and the system prompt;
  - the message list sent to the language model (system prompt, last ten stored messages, the user's message);
  - the source list;
  - the fallback answer used when the model cannot be reached;
  - the per-session chat history store.

## Modules

| file | module | what it holds |
|---|---|---|
| `wrappers.dfy` | `Wrappers` | `Option`, `Result`, `Outcome` |
| `text.dfy` | `Text` | Python's `str.strip`, ASCII `lower`, `str(int)`, and `pathlib`'s `name`/`suffix`/`stem` for POSIX paths |
| `chunker.dfy` | `Chunker` | `_split_text_into_chunks`, as a `while` loop proved against a recursive specification, plus its properties |
| `documents.dfy` | `Documents` | class `DocumentService` over `map<string, DocumentRecord>` |
| `index.dfy` | `Index` | class `EmbeddingService` over `map<string, Entry>` (the vector collection) |
| `chat.dfy` | `Chat` | context, prompt, fallback and reply; class `ChatService` over the history directory, as `map<string, StoredHistory>` |

Things the services reach but do not own become parameters of the methods:

- the file readers: `read: Format -> Result<string, string>`;
- the sentence encoder: `encode`;
- the vector search: `respond(query, topK)`;
- the language model: `complete(messages)`;
- the clock and `uuid4`: `now`, and the `Stamp` values.

A history file that does not parse is the `Unreadable` variant.

### Behaviour of the code worth knowing

- **The chunker has no guard on its configuration.**
  - `_split_text_into_chunks` neither checks `chunk_size`/`overlap` nor forces the cursor forward.
  - The model states the condition under which the loop always advances: `Chunker.ValidConfig`, which requires `overlap` to be shorter than the shortest possible window.
  - `Chunker.PlainCutWithLargeOverlapStalls` shows that the cursor can stand still outside that condition.
- **A chunk can be one character longer than `chunk_size`.** The backward scan starts at index `start + chunk_size` itself, so the window can end one past it (`Chunker.WindowMayExceedChunkSize`).
- **The example sentence yields three chunks.** "Paris is the capital of France. It is known for the Eiffel Tower." with `chunk_size = 40, overlap = 5` yields "Paris is the capital of France.", "ance. It is known for the Eiffel Tower." and the trailing fragment "wer." (`Chunker.ParisExample`).
- **Search has no similarity cutoff.** `SIMILARITY_THRESHOLD` in backend/config.py:22 is never read, so every hit the collection returns is passed on.
- **Source order depends on the branch.** When the model answers, the sources come from `list(set(...))`, so their order is not promised and duplicates are dropped. The fallback keeps every filename, in retrieval order.
- **An unreadable history file fails the whole turn.**
  - Saving raises inside the `try`, and the `except` branch's own save raises again on the same file.
  - So nothing is stored and no reply is returned (`Chat.ChatService.GenerateResponse`).
- **A completion whose `usage` is None is stored twice.**
  - Reading `total_tokens` raises after both saves.
  - The `except` branch then saves the user's message again, and the fallback.
  - So the session gains four messages and the reply is the fallback (`Chat.StoredTurnMessages`).

## Model

| member | source | states |
|---|---|---|
| Text.StripFacts | backend/services/document_service.py:144 | `strip()` removes only whitespace on either side, and a non-empty result neither starts nor ends with whitespace |
| Text.StripEmptyIffBlank | backend/services/document_service.py:127-128 | `text.strip()` is empty exactly when the text is empty or all whitespace |
| Text.Lower | backend/services/document_service.py:65-69 | lower-casing keeps the length and maps each character to its lower-case form (ASCII) |
| Text.Trimmed | backend/services/document_service.py:39 | pathlib's normalised path is a prefix of the path that is empty or ends in a real component: no trailing separator and no trailing "." component |
| Text.TrimmedIsLongest | backend/services/document_service.py:39 | the normalised path is the longest prefix ending in a real component: no longer prefix ends in one |
| Text.Name | backend/services/document_service.py:39 | `Path.name` has no separator, is not ".", and ends the normalised path |
| Text.NameIsLastComponent | backend/services/document_service.py:39 | `Path.name` is the whole last component: it starts the normalised path or follows a separator |
| Text.TrailingSeparatorIgnored | backend/services/document_service.py:39 | a trailing separator changes neither the name, the suffix nor the stem |
| Text.SuffixShape | backend/services/document_service.py:39 | a non-empty `Path.suffix` is a dot plus at least one character, with no further dot or slash, and it ends the name |
| Text.NameIsStemPlusSuffix | backend/services/document_service.py:78 | a path's name is its stem followed by its suffix |
| Text.ParseNatToString | backend/services/embedding_service.py:35 | `int(str(i)) == i` for the chunk ordinal |
| Text.NatToStringInjective | backend/services/embedding_service.py:35 | different ordinals print differently |
| Chunker.ScanBack | backend/services/document_service.py:139-142 | the backward `for` scan finds the highest boundary index in the range, and none exactly when the range has no boundary |
| Chunker.WindowEnd | backend/services/document_service.py:134-142 | a window is at least `MinWindow(chunk_size)` and at most `chunk_size + 1` long |
| Chunker.WindowEndCases | backend/services/document_service.py:136-142 | the cut is `start + chunk_size` when that reaches the end or no boundary lies in `(max(start + chunk_size//2, end - 200), end]`; otherwise it falls just after the highest boundary in that range |
| Chunker.CutWindow | backend/services/document_service.py:134-142 | the scan loop with its `break` computes WindowEnd |
| Chunker.ChunkAt | backend/services/document_service.py:134-148 | one loop iteration yields the window's stripped text and the next cursor `end - overlap` |
| Chunker.SplitTextIntoChunks | backend/services/document_service.py:125-150 | the loop, early return included, returns exactly SplitText |
| Chunker.ChunksFromStep | backend/services/document_service.py:144-148 | the chunks from a cursor are this window's chunk, if non-empty, then those from `end - overlap` |
| Chunker.CursorChunkIsChunkOf | backend/services/document_service.py:144 | the loop's chunk at a cursor is the stripped text of the window cut there |
| Chunker.CutAtEnd | backend/services/document_service.py:134-137 | a window reaching the end of the text is cut at `start + chunk_size` without a scan, and its chunk is the stripped rest of the text |
| Chunker.HalfOverlapIsValid | backend/services/document_service.py:148 | any overlap from 0 to `chunk_size//2` keeps the loop advancing |
| Chunker.DefaultsAreValid | backend/services/document_service.py:125 | the defaults 1000/100 keep the loop advancing; the shortest window is 802 |
| Chunker.WindowsFromShape | backend/services/document_service.py:131-148 | the windows start at 0 and inside the text, each starts at the previous end minus the overlap, and the loop stops once the next start reaches the end |
| Chunker.WindowsAreCuts | backend/services/document_service.py:134-142 | every window ends where WindowEnd cuts it |
| Chunker.Candidates | backend/services/document_service.py:144 | one candidate per window: that window's stripped text |
| Chunker.Without | backend/services/document_service.py:145-146 | dropping empty candidates never lengthens the list |
| Chunker.WithoutCounts | backend/services/document_service.py:145-146 | the filter drops every empty candidate and keeps every other one as often as it occurs |
| Chunker.ChunksFromWindows | backend/services/document_service.py:133-148 | the loop's output is the windows' stripped texts with the empty ones dropped |
| Chunker.SplitTextWindows | backend/services/document_service.py:125-150 | the same, for the whole text |
| Chunker.BlankTextHasNoChunks | backend/services/document_service.py:127-128 | empty or whitespace-only text gives no chunks |
| Chunker.ChunkShape | backend/services/document_service.py:144-146 | every chunk is non-empty, has no whitespace at either end and is at most `chunk_size + 1` long |
| Chunker.ChunkSources | backend/services/document_service.py:144-146 | chunk `i` is `text[start:end].strip()` of some window, and later chunks come from later windows |
| Chunker.CoveringWindow | backend/services/document_service.py:133-148 | with a non-negative overlap, every index of the text lies in some window |
| Chunker.SplitNonEmptyIffNotBlank | backend/services/document_service.py:127-150 | with a non-negative overlap, there is at least one chunk exactly when the text has a non-whitespace character |
| Chunker.WindowStartsIncrease | backend/services/document_service.py:133-148 | window starts strictly increase |
| Chunker.PlainCutWithLargeOverlapStalls | backend/services/document_service.py:134-148 | with `overlap >= chunk_size` and a plain cut, the next start is not beyond the current one |
| Chunker.TrailingFragment | backend/services/document_service.py:133-148 | when a window reaching the end still has `end - overlap` inside the text, another window follows, and its text is a suffix of the previous window's |
| Chunker.WindowMayExceedChunkSize | backend/services/document_service.py:139-141 | a boundary exactly at `start + chunk_size` gives a window of `chunk_size + 1` |
| Chunker.ScanBackSkips | backend/services/document_service.py:139-142 | the scan passes over a stretch without boundaries |
| Chunker.StripKeepsTrimmed | backend/services/document_service.py:144 | stripping a string with no whitespace at either end returns it unchanged |
| Chunker.ParisFirstCut | backend/services/document_service.py:136-142 | the Paris text's first window is cut just after "France." |
| Chunker.WindowToEnd | backend/services/document_service.py:137-148 | a window reaching the end of the text is the stripped rest of the text |
| Chunker.ParisLast | backend/services/document_service.py:133-148 | from index 61 the Paris text gives only "wer." |
| Chunker.ParisTail | backend/services/document_service.py:133-148 | from index 26 the Paris text gives the rest of the text, then "wer." |
| Chunker.ParisExample | backend/services/document_service.py:125-150 | the Paris text with 40/5 gives "Paris is the capital of France.", "ance. It is known for the Eiffel Tower." and "wer." |
| Documents.DispatchByExtension | backend/services/document_service.py:65-70 | a reader is chosen exactly when the lower-cased suffix is its extension |
| Documents.DispatchRejects | backend/services/document_service.py:71-72 | every other suffix is rejected |
| Documents.StoredPathRoundTrip | backend/services/document_service.py:39-40 | the stored file keeps the upload's suffix and reader, and its stem is the document id |
| Documents.StoredName | backend/services/document_service.py:40 | the stored file's name is the id followed by the suffix, whose dot is the name's last |
| Documents.TrailingSeparatorUpload | backend/services/document_service.py:39-40 | an upload named with a trailing separator ("report.pdf/") is stored where the plain name would be, and read with the same reader |
| Documents.NewRecord | backend/services/document_service.py:48-55 | a saved record is unprocessed, has no chunk count and points at the stored path |
| Documents.MarkProcessedEffect | backend/services/document_service.py:78-82 | extraction marks only the record named by the stem, sets `processed` and `chunk_count`, and changes nothing for an unknown id |
| Documents.SavedEffect | backend/services/document_service.py:48-55 | saving adds or replaces one record and leaves the others |
| Documents.SaveThenExtract | backend/services/document_service.py:40-82 | extracting the stored file marks exactly the saved document as processed |
| Documents.InfoOf | backend/services/document_service.py:156-163 | the listed entry carries the record's key and upload date |
| Documents.SortNewestFirst | backend/services/document_service.py:166 | the sorted list is a permutation, ordered by upload date, newest first |
| Documents.InsertKeepsOrder | backend/services/document_service.py:166 | inserting into a newest-first list keeps it newest first |
| Documents.DocumentService.constructor | backend/services/document_service.py:22-30 | the table is the stored one, or empty when the file is missing or unreadable |
| Documents.DocumentService.SaveDocument | backend/services/document_service.py:37-58 | returns the stored path and files a fresh record under the id |
| Documents.DocumentService.ExtractText | backend/services/document_service.py:60-84 | an unknown suffix raises "Unsupported file type: <suffix>" and a reader failure raises its error, both changing nothing; otherwise the chunks of the text, with the record marked processed |
| Documents.DocumentService.GetDocumentList | backend/services/document_service.py:152-166 | one entry per record, under its key, newest first |
| Documents.DocumentService.DeleteDocument | backend/services/document_service.py:168-180 | a known id is removed; an unknown one raises "Document <id> not found" and changes nothing |
| Documents.DeleteEffect | backend/services/document_service.py:177 | deletion removes exactly that key |
| Documents.SaveThenDelete | backend/services/document_service.py:168-180 | saving and then deleting a new document restores the table |
| Index.ChunkIdSeparator | backend/services/embedding_service.py:35 | the id's last underscore separates document id and ordinal |
| Index.ChunkIdInjective | backend/services/embedding_service.py:35 | a chunk id determines its document and ordinal |
| Index.ChunkIds | backend/services/embedding_service.py:35 | one id per chunk, in chunk order |
| Index.ChunkIdsDistinct | backend/services/embedding_service.py:35 | the ids of one call are pairwise distinct |
| Index.ChunkMetadatas | backend/services/embedding_service.py:36-44 | metadata `i` names the document, the file, ordinal `i` and the length of chunk `i` |
| Index.ChunkEntries | backend/services/embedding_service.py:47-52 | one entry per chunk |
| Index.ChunkEntriesAligned | backend/services/embedding_service.py:47-52 | entry `i` holds chunk `i`, its vector and its metadata |
| Index.Insert | backend/services/embedding_service.py:47-52 | after adding, the collection holds the old ids plus the batch's ids |
| Index.FreshBatch | backend/services/embedding_service.py:47-52 | with new, distinct ids, entry `k` is filed under id `k` and old entries stay |
| Index.HitsUpTo | backend/services/embedding_service.py:69-76 | the hits are the formatted results, index by index |
| Index.SearchResultShape | backend/services/embedding_service.py:69-82 | one hit per returned document, with content, metadata and distance from the same index and distance 0 without distances; [] for a failed query, for no documents, and for lists too short to read |
| Index.AlignedIsReadable | backend/services/embedding_service.py:69-76 | a response with aligned lists is formatted in full |
| Index.WithoutDocumentEffect | backend/services/embedding_service.py:88-94 | deleting a document removes exactly its chunks and keeps the other entries |
| Index.WithoutAbsentDocument | backend/services/embedding_service.py:92 | deleting a document without chunks changes nothing |
| Index.WithoutDocumentKeepsOthers | backend/services/embedding_service.py:88-94 | other documents keep all their chunks |
| Index.EmbeddingService.constructor | backend/services/embedding_service.py:21-24 | the collection opens with what it holds |
| Index.EmbeddingService.CreateEmbeddings | backend/services/embedding_service.py:26-52 | no chunks leave the collection unchanged; otherwise the batch is added under the chunk ids |
| Index.EmbeddingService.SearchSimilarDocuments | backend/services/embedding_service.py:56-82 | the hits are SearchResult of the query's outcome for `n_results = top_k` |
| Index.EmbeddingService.DeleteDocumentEmbeddings | backend/services/embedding_service.py:84-98 | the collection without that document's chunks |
| Index.EmbeddingService.GetDocumentCount | backend/services/embedding_service.py:100-106 | the number of stored chunks |
| Index.EmbeddingService.GetDocumentsById | backend/services/embedding_service.py:108-128 | exactly the document's chunks, each once, with text, metadata and id |
| Index.CreateThenDelete | backend/services/embedding_service.py:35-94 | adding a new document's chunks and deleting that document restores the collection |
| Chat.BuildContext | backend/services/chat_service.py:118-129 | the loop builds ContextText |
| Chat.ContextEmptyIff | backend/services/chat_service.py:120-121 | the context is "No relevant documents found." exactly when there are no documents |
| Chat.ContextPlacesEntry | backend/services/chat_service.py:123-129 | document `k` appears as block `k + 1`, after the header and the earlier blocks |
| Chat.EntriesPrefix | backend/services/chat_service.py:125-127 | the blocks of the first `k` documents begin those of the first `n` |
| Chat.EntriesOfPrefix | backend/services/chat_service.py:125-127 | the blocks of the first `m` documents depend only on those documents |
| Chat.ContextExtends | backend/services/chat_service.py:123-129 | more documents only append to the context |
| Chat.SystemPromptHoldsContext | backend/services/chat_service.py:131-145 | the prompt is the preamble, the context verbatim, then the instructions |
| Chat.SystemPromptInjective | backend/services/chat_service.py:131-145 | different contexts give different prompts |
| Chat.RecentIsLastTen | backend/services/chat_service.py:44 | the replayed messages are the last `min(10, len(history))` |
| Chat.ReplayShape | backend/services/chat_service.py:44-48 | each replayed message keeps its role, as its `.value` string, and its content, in order |
| Chat.PromptMessagesShape | backend/services/chat_service.py:41-51 | the "system" message, the last `min(10, len(history))` messages in order with their role names, the "user" message; length `min(10, len(history)) + 2` |
| Chat.NextPromptEndsWithTurn | backend/services/chat_service.py:38-74 | after a turn, the next prompt replays that turn's user message and answer last |
| Chat.BuildMessages | backend/services/chat_service.py:41-51 | the loop builds PromptMessages |
| Chat.Filenames | backend/services/chat_service.py:112 | one filename per document, in retrieval order |
| Chat.Distinct | backend/services/chat_service.py:78 | no duplicates, the same filenames, no more of them |
| Chat.GenerateFallbackResponse | backend/services/chat_service.py:147-161 | the loop builds FallbackText |
| Chat.ExcerptShape | backend/services/chat_service.py:157 | an excerpt is the chunk's first characters, at most 300 of them, and all of a short chunk |
| Chat.FallbackQuotesFirstTwo | backend/services/chat_service.py:153-159 | the fallback is the header, the first document's block, the second's if any, then the note |
| Chat.FallbackIgnoresRest | backend/services/chat_service.py:155 | documents after the second never change the fallback |
| Chat.FallbackEndsWithNote | backend/services/chat_service.py:149-159 | with documents the fallback ends with the note; without documents it is the apology |
| Chat.HistoryFileStem | backend/services/chat_service.py:228-229 | the stem of `<session_id>.json` is the session id |
| Chat.SessionNamesArePlainIds | backend/services/chat_service.py:225-230 | for plain ids the listed sessions are exactly the stored ones |
| Chat.AppendedEffect | backend/services/chat_service.py:177-191 | an append stores the old messages plus the new one and stamps `updated_at`; a new session starts with that one message; other sessions are unchanged |
| Chat.ClearedIsEmpty | backend/services/chat_service.py:218-223 | after clearing, the session reads as empty and the others are unchanged |
| Chat.TurnAppendsTwo | backend/services/chat_service.py:64-106 | a turn appends exactly the user's message and then the answer, and leaves the other sessions alone |
| Chat.ChatService.constructor | backend/services/chat_service.py:18-20 | the history directory opens with what it holds |
| Chat.ChatService.SaveMessageToHistory | backend/services/chat_service.py:163-195 | appends the message, or fails on an unreadable file and changes nothing |
| Chat.ChatService.GetChatHistory | backend/services/chat_service.py:197-216 | the stored messages, or [] for an unknown or unreadable session |
| Chat.ChatService.ClearChatHistory | backend/services/chat_service.py:218-223 | the session's file is gone |
| Chat.ChatService.GetAllSessions | backend/services/chat_service.py:225-230 | one name per history file, each the stem of a stored session, all of them listed |
| Chat.ChatService.Prompt | backend/services/chat_service.py:31-51 | the messages are built from the history as stored before the turn |
| Chat.ChatService.SaveTurn | backend/services/chat_service.py:64-74 | stores the user's message, then the answer, or fails and changes nothing |
| Chat.StoredTurnMessages | backend/services/chat_service.py:64-106 | a turn appends the user's message and the returned answer; when the usage cannot be read it appends the user's message, the model's answer, the user's message again and the fallback; other sessions are untouched |
| Chat.ChatService.GenerateResponse | backend/services/chat_service.py:22-116 | succeeds exactly when the history can be saved. On success the reply is the model's answer with distinct sources, the document count and the token usage, or the fallback with every filename and the error when the model failed or its usage was None, and the history is StoredTurn. A failure changes nothing |
| Chat.ChatService.AnswerWithFallback | backend/services/chat_service.py:93-116 | stores the user's message and the fallback and returns it with every filename and the error, or fails and changes nothing |

## Left out

- File contents on disk, the JSON files of the metadata table and of the chat histories, and `mkdir`. The table and the history directory are maps; the file bytes are not modelled.
- The PDF, DOCX and TXT readers and their encoding fallbacks. They are the `read` parameter of `ExtractText`.
- The sentence encoder, the vector store's cosine nearest-neighbour search and all floating-point arithmetic. They are the `encode` and `respond` parameters, and a vector is a sequence of reals.
- The language-model call and its `max_tokens`/`temperature`. The call is the `complete` parameter, and its answer is a `Completion` holding the text and the token usage.
- The response time.
- `uuid4()` and `datetime.now()`. They are the `Stamp`, `stamps` and `now` parameters, and dates are natural-number timestamps. The ISO text form of dates is not modelled.
- Text.Name: follows pathlib for POSIX paths only. Backslashes and drive letters, which Windows paths use, are ordinary characters here.
- async/await and concurrency. The code takes no locks.
- `print` logging.
- backend/models/chat_model.py is not part of this model. Its records appear here as datatypes with the fields the services use.
- Index.EmbeddingService.CreateEmbeddings: what the vector store does with an id it already holds is library-defined. It is a `DuplicatePolicy` parameter, and nothing is claimed about which policy applies. Under `RejectBatch` the model returns normally with the collection unchanged, whereas a store that rejects the batch makes `create_embeddings` raise to its caller.
- Index.EmbeddingService.GetDocumentCount: does not model the `0` returned when counting raises, because the modelled collection cannot fail.
- Index.EmbeddingService.DeleteDocumentEmbeddings: does not model the swallowed store errors, because the modelled collection cannot fail.
- Index.EmbeddingService.GetDocumentsById: does not model the `[]` returned on a store error. It does not promise the store's order, only which chunks are listed.
- Documents.DocumentService.GetDocumentList: entries with equal upload dates may come in any order. Python's stable sort keeps the dictionary's insertion order for them, which a map does not have.
- Documents.DocumentService.ExtractText: the chunker's defaults 1000/100 are fixed, as in the code.
- Chunker.SplitTextIntoChunks: requires `Chunker.ValidConfig`. Outside it the source loop need not terminate, and Chunker.PlainCutWithLargeOverlapStalls shows the stall.
- Chat.Distinct: `list(set(...))` has an unspecified order. The model keeps first occurrences, but `Chat.ReplyFor` promises only membership and no duplicates.
- Chat.ChatService.GetAllSessions: other `*.json` files in the directory are not modelled. The listing order is not promised.
- Chat.ChatService.GenerateResponse: does not model a `None` answer text from the model: the answer is always a string. It does not model `response_time`. A save error that the source raises is a `Failure` result.
