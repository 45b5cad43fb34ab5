# Speech-to-chat demo and its knowledge bases, modelled in Dafny

The repository is a voice assistant for Zendalona's accessibility projects.
A browser page records speech with the Web Speech API and shows the live
transcript. On "stop" it sends the transcript to a chat route, which asks a
Groq language model for a reply, and the page speaks that reply aloud. Around
this sit several Python scripts that build the knowledge bases the chat can
draw on, and a small Flask service that searches one of them.

This project models the deterministic logic of those pieces and proves
properties about it. Every ML model, vector store, network call and browser
API becomes a parameter of the member that uses it: Groq, the retrieval
service, FAISS, the sentence-embedding models, speech synthesis, `fetch`,
`Date.now()`, and "does this call throw".

| module | file | source |
|---|---|---|
| `Options`, `Strings` | options.dfy, strings.dfy | shared primitives: `Option`, `join`, `strip`/`trim`, `split()`, ASCII `lower()`, `str(n)`, list flattening |
| `Chat` | chat.dfy | what both chat routes share: messages, model id, token bound, sentinel reply, 500 body |
| `ChatRoute` | chat_route.dfy | frontend/src/app/api/chat/route.ts (retrieval-augmented route with history) |
| `LegacyChatRoute` | legacy_chat_route.dfy | src/app/api/chat/route.ts (earlier two-message route) |
| `SpeechRecognition` | speech_recognition.dfy | frontend/src/hooks/useSpeechRecognition.ts, and the copy of the same logic in src/components/SpeechInterface.tsx:55-180 |
| `ConversationPanel` | conversation_panel.dfy | frontend/src/components/SpeechInterface.tsx |
| `NotesPanel` | notes_panel.dfy | src/components/SpeechInterface.tsx (notes, chat call) |
| `TrainProject` | train_project.dfy | backend-rag/train/train_project.py |
| `TrainSummary` | train_summary.dfy | backend-rag/train/train_summary.py |
| `BackendTrain` | backend_train.dfy | backend/train.py |
| `BackendQuery` | backend_query.dfy | backend/query.py |
| `RagService` | rag_service.dfy | backend-rag/main.py |

The model follows the source's own form:

- The two chat routes are pure functions of the request and the oracles.
- The speech hook is the class `SpeechRecognition.Recognizer`. Its fields are
  `isListening`, `currentTranscript` and `error`, and its handlers are methods.
  The 5-second timer that clears an error is the explicit step `ErrorTimeout`.
- The earlier page (src/components/SpeechInterface.tsx:55-180) repeats the hook's handlers almost line for line, so the same `Recognizer` models both. Its `onresult`, `onerror` and `startListening` are at lines 72-84, 86-122 and 142-154.
- Both pages are classes holding a `Recognizer`. The frontend page
  (`ConversationPanel.Page`) also keeps the history ref as a field. The
  invariant `Valid()` says the ref always equals the committed history.
- Loading and searching a FAISS index in backend-rag/main.py is one parameter,
  `search`. Its outcome tells a `FileNotFoundError` (answered with 404) apart
  from any other exception (answered with 500).
- The Python loops are methods with loop invariants. Each is proved equal to a
  specification function, and the properties are proved about that function.

The recogniser's error codes and messages are exactly the strings the hook's
`onerror` handler switches on (frontend/src/hooks/useSpeechRecognition.ts),
for example "not-allowed" and "service-not-available".

Cross-file results are proved as well:

- The frontend page threads the chat route's history so that it grows by
  exactly the question and the reply (`ConversationPanel.TurnAgainstRoute`).
- `sanitize_filename` is `sanitize_id` with the outer underscores stripped
  (`TrainSummary.FilenameIsStrippedId`).
- A name that differs only in case and spacing still collides under `sanitize_id` (`TrainSummary.IdCollision`).
- Documents built by the indexer always come back from `/query` with section
  "unknown" (`RagService.TrainedDocumentsHaveNoSection`).
- The indexer saves under a fixed absolute directory, while `/query` looks
  under `./indexes`. The two are the same directory exactly when the server
  runs from the indexer's `rag` directory (`RagService.ServedIsSaved`). The
  next two results assume that working directory: they take the saved index
  to be `./indexes/<slug>` as the server sees it.
- Under that assumption, `/query` finds an index when the project is named by
  the slug it was saved under (`RagService.TrainedSlugFound`).
- Under that assumption, `/query` misses the index when the project is named
  by a display name with an inner space (`RagService.SpacedNameMissesIndex`).

## Model

| member | source | states |
|---|---|---|
| Strings.TrimEmptyIff | frontend/src/components/SpeechInterface.tsx:30 | a string strips to "" exactly when it is all whitespace, so `transcript.trim()` is falsy exactly for blank transcripts |
| Strings.TrimIdempotent | backend-rag/main.py:35-36 | stripping a stripped string changes nothing |
| Strings.WordsOfJoin | backend-rag/train/train_project.py:18-22 | splitting a single-space join of words gives back the words |
| Chat.ReplyOf | frontend/src/app/api/chat/route.ts:72 | the reply is never empty: the first choice's content when it is present and non-empty, else "No response generated" |
| ChatRoute.LoadConfig | frontend/src/app/api/chat/route.ts:4-9 | loading succeeds exactly when both `GROQ_API_KEY` and `RETRIEVAL_API_URL` are present and non-empty, and the config carries their values |
| ChatRoute.Post | frontend/src/app/api/chat/route.ts:15-93 | success exactly when the body parses, retrieval is ok, a history is present and the completion returns; the reply is then `ReplyOf` the completion sent for the user's content, the history and the passages retrieved for `{question: content}` (so non-empty, the first choice's content when that is non-empty), and the history is the input history followed by the user turn and the assistant turn (two longer, prefix untouched); every failure is status 500 "Failed to generate response" with no history |
| ChatRoute.RenderHistoryEmptyIff | frontend/src/app/api/chat/route.ts:42-47 | the rendered history is "" exactly when the history is empty |
| ChatRoute.RenderHistorySnoc | frontend/src/app/api/chat/route.ts:44-46 | one more turn adds one more line after a newline |
| ChatRoute.RenderHistoryLines | frontend/src/app/api/chat/route.ts:44-46 | one `role: content` line per turn, in history order |
| ChatRoute.RequestShape | frontend/src/app/api/chat/route.ts:57-70 | exactly three messages (system, assistant, user) whatever the history; the assistant message is `"Context: " + context` and is exactly "Context: " without passages; the user message is the content alone without history, else rendered history + "\nUser: " + content; fixed model and token bound |
| ChatRoute.RetrievalSeesContentOnly | frontend/src/app/api/chat/route.ts:22-28 | the route's outcome depends on the retrieval service only through its answer to `{question: content}` at `<url>/retrieve` |
| ChatRoute.FailureReturnsNoHistory | frontend/src/app/api/chat/route.ts:86-91 | a failed retrieval or completion yields exactly status 500 "Failed to generate response" |
| ChatRoute.TwoTurns | frontend/src/app/api/chat/route.ts:76-80 | two accepted turns in a row append four turns in order |
| ChatRoute.RenderHistoryExamples | frontend/src/app/api/chat/route.ts:42-47 | rendering of zero, one and two turns |
| ChatRoute.ScreenReaderExample | frontend/src/app/api/chat/route.ts:15-85 | a first-turn question with one passage gives the expected request and the two new turns |
| ChatRoute.EmptyRetrievalExample | frontend/src/app/api/chat/route.ts:60 | an empty passage list still yields the context message "Context: " |
| LegacyChatRoute.LoadConfig | src/app/api/chat/route.ts:4-6 | loading succeeds exactly when `GROQ_API_KEY` is present and non-empty |
| LegacyChatRoute.Post | src/app/api/chat/route.ts:12-43 | a reply exactly when the body parses and the completion returns; the reply is non-empty and is the first choice's content when that is non-empty; every failure is 500 "Failed to generate response"; no history is read or returned |
| LegacyChatRoute.RequestShape | src/app/api/chat/route.ts:17-31 | exactly two messages, the fixed system prompt then the content verbatim; fixed model id and token bound |
| LegacyChatRoute.EmptyCompletionIsSentinel | src/app/api/chat/route.ts:33-35 | an absent or empty first choice is the sentinel reply, not an error |
| SpeechRecognition.CollectTranscripts | frontend/src/hooks/useSpeechRecognition.ts:37-46 | the loop yields the concatenation of the final segments and of the interim segments from `resultIndex` on, in index order |
| SpeechRecognition.Recognizer.constructor | frontend/src/hooks/useSpeechRecognition.ts:14-104 | starts idle with an empty transcript; without the API, or when its constructor throws, there is no recogniser and the matching error is shown |
| SpeechRecognition.Recognizer.OnResult | frontend/src/hooks/useSpeechRecognition.ts:36-48 | the transcript is replaced by the event's final text when non-empty, else its interim text; nothing else changes |
| SpeechRecognition.Recognizer.OnError | frontend/src/hooks/useSpeechRecognition.ts:50-86 | the code's message is shown and listening stops, whatever the code; the transcript stays |
| SpeechRecognition.Recognizer.ErrorTimeout | frontend/src/hooks/useSpeechRecognition.ts:87 | the timer clears the error and changes nothing else |
| SpeechRecognition.Recognizer.OnEnd | frontend/src/hooks/useSpeechRecognition.ts:90-92 | an end event stops listening and changes nothing else |
| SpeechRecognition.Recognizer.StartListening | frontend/src/hooks/useSpeechRecognition.ts:106-118 | a no-op without a recogniser or while listening; otherwise error cleared and listening on, or the start error and listening off when `start()` throws; the transcript is never touched |
| SpeechRecognition.Recognizer.StopListening | frontend/src/hooks/useSpeechRecognition.ts:120-135 | while listening: returns the transcript, leaves it "" and listening off; when `stop()` throws: returns "", shows the stop error, the rest stays; otherwise returns "" and changes nothing |
| SpeechRecognition.Recognizer.ClearTranscript | frontend/src/hooks/useSpeechRecognition.ts:137-139 | the transcript becomes ""; listening and error stay |
| SpeechRecognition.FinalTextAppend | frontend/src/hooks/useSpeechRecognition.ts:39-46 | the final text of two runs of segments is the final text of each, in order |
| SpeechRecognition.InterimTextAppend | frontend/src/hooks/useSpeechRecognition.ts:39-46 | the same for the interim text |
| SpeechRecognition.NoFinalSegments | frontend/src/hooks/useSpeechRecognition.ts:41-47 | segments with no final one have no final text |
| SpeechRecognition.InterimOnlyEvent | frontend/src/hooks/useSpeechRecognition.ts:47 | an event with only interim segments shows their concatenation |
| SpeechRecognition.EarlierResultsIgnored | frontend/src/hooks/useSpeechRecognition.ts:39 | results before `resultIndex` do not affect what an event shows |
| SpeechRecognition.ErrorMessageInjective | frontend/src/hooks/useSpeechRecognition.ts:52-84 | each error code maps to exactly one message: different codes give different messages, fallback included |
| SpeechRecognition.KnownMessageInjective | frontend/src/hooks/useSpeechRecognition.ts:53-81 | the eight fixed messages are pairwise different |
| SpeechRecognition.KnownMessageLength | frontend/src/hooks/useSpeechRecognition.ts:53-81 | each fixed message has its own length, so the length names the code |
| SpeechRecognition.KnownMessageIsNotFallback | frontend/src/hooks/useSpeechRecognition.ts:82-83 | no fixed message equals a fallback "Speech recognition error: <code>" |
| ConversationPanel.Page.constructor | frontend/src/components/SpeechInterface.tsx:8-17 | empty history and response, the ref in sync |
| ConversationPanel.Page.HandleStopListening | frontend/src/components/SpeechInterface.tsx:28-45 | a successful stop leaves the recogniser idle with an empty transcript and its error unchanged; a throwing `stop()` keeps it listening with its transcript, sets the stop error and changes nothing else; without a recogniser or while idle nothing changes; a blank transcript sends nothing; otherwise the transcript goes out with the ref's (latest committed) history; an accepted answer replaces history and response; a failed call changes neither; a speech-synthesis failure does not undo the update; the ref stays in sync |
| ConversationPanel.Page.ClearConversation | frontend/src/components/SpeechInterface.tsx:47-50 | empty history and response, the ref in sync |
| ConversationPanel.BlankTranscriptChangesNothing | frontend/src/components/SpeechInterface.tsx:29-30 | a blank transcript leaves history and response as they were |
| ConversationPanel.TurnAgainstRoute | frontend/src/components/SpeechInterface.tsx:33-38 | against the chat route itself: an accepted turn grows the page's history by exactly the question and the non-empty reply; a refused turn leaves the page as it was |
| NotesPanel.WithoutId | src/components/SpeechInterface.tsx:215-217 | the result keeps exactly the notes whose id differs, nothing else |
| NotesPanel.WithText | src/components/SpeechInterface.tsx:223-227 | count, order and ids unchanged; the text changes exactly on the notes with the id |
| NotesPanel.AfterCall | src/components/SpeechInterface.tsx:183-213 | an ok response shows its reply and keeps the error, or sets the speech error when synthesis throws; an error response keeps the shown reply and sets its message, or "Error getting response from chatbot" when that message is empty; an unreachable chatbot keeps the reply and sets "Error calling chatbot API. Please try again." |
| NotesPanel.Home.constructor | src/components/SpeechInterface.tsx:44-50 | no notes and no reply |
| NotesPanel.Home.CallChatbot | src/components/SpeechInterface.tsx:183-202 | the status becomes `AfterCall` of the outcome; notes and recogniser stay |
| NotesPanel.Home.StopListening | src/components/SpeechInterface.tsx:156-176 | a non-blank stopped transcript is appended as exactly one note `(now, transcript)` and sent to the chatbot; a blank one leaves notes and status; the transcript ends ""; when `stop()` throws only the error changes |
| NotesPanel.Home.DeleteMessage | src/components/SpeechInterface.tsx:215-217 | the notes become `WithoutId` of the old notes; the reply stays |
| NotesPanel.Home.EditMessage | src/components/SpeechInterface.tsx:223-227 | the notes become `WithText` of the old notes; the reply stays |
| NotesPanel.Home.ClearMessages | src/components/SpeechInterface.tsx:219-221 | no notes; the reply stays |
| NotesPanel.WithoutIdAppend | src/components/SpeechInterface.tsx:216 | deleting from a concatenation deletes from each part, keeping order |
| NotesPanel.WithoutIdCount | src/components/SpeechInterface.tsx:216 | exactly the notes carrying the id disappear (the length drops by their count) |
| NotesPanel.WithoutIdIdempotent | src/components/SpeechInterface.tsx:216 | deleting the same id twice is deleting once |
| NotesPanel.WithoutAbsentId | src/components/SpeechInterface.tsx:216 | deleting an id no note has keeps the list |
| NotesPanel.DeleteAfterEdit | src/components/SpeechInterface.tsx:215-227 | deleting after editing the same id is deleting |
| NotesPanel.EditTwice | src/components/SpeechInterface.tsx:223-227 | editing twice keeps only the second text |
| NotesPanel.DeleteSavedNote | src/components/SpeechInterface.tsx:163-166 | a note saved with a fresh id is removed again by deleting that id, nothing else moves |
| NotesPanel.ShownAgainstRoute | src/components/SpeechInterface.tsx:190-197 | against the earlier route: a completion shows a non-empty reply and keeps the error; a route failure shows "Failed to generate response" and keeps the previous reply |
| TrainProject.ChunkText | backend-rag/train/train_project.py:13-25 | the loop yields chunk k = the words from k·step, up to `chunk_size` of them, joined by spaces, step = chunk_size − overlap |
| TrainProject.ChunkCountBounds | backend-rag/train/train_project.py:20-24 | from a word position inside the text, c ≥ 1 chunks with (c−1)·step < remaining words ≤ c·step |
| TrainProject.ChunkCount | backend-rag/train/train_project.py:20-25 | the number of chunks is ⌈n / step⌉ |
| TrainProject.ChunkAt | backend-rag/train/train_project.py:21-24 | chunk k starts at word k·step, inside the text |
| TrainProject.ChunkWords | backend-rag/train/train_project.py:18-23 | splitting chunk k gives back its window of words, between 1 and `chunk_size` of them |
| TrainProject.NoWordsNoChunks | backend-rag/train/train_project.py:18-21 | text with no words gives no chunks |
| TrainProject.ChunkStarts | backend-rag/train/train_project.py:21-24 | every multiple of the step inside the text starts a chunk |
| TrainProject.WindowCoverage | backend-rag/train/train_project.py:21-24 | word p sits in the window starting at (p / step)·step, at position p mod step |
| TrainProject.Coverage | backend-rag/train/train_project.py:18-24 | with 0 ≤ overlap < chunk_size every word lies in some chunk |
| TrainProject.Overlap | backend-rag/train/train_project.py:22-24 | consecutive full chunks share exactly `overlap` words |
| TrainProject.AsciiOnly | backend-rag/train/train_project.py:31 | a character is in the result exactly when it is in the input and ASCII; only ASCII characters remain |
| TrainProject.AsciiOnlyAppend | backend-rag/train/train_project.py:31 | the ASCII part of a concatenation is the ASCII parts concatenated, so order is kept |
| TrainProject.AlnumsOfAsciiOnly | backend-rag/train/train_project.py:31 | dropping non-ASCII characters drops no ASCII letter or digit |
| TrainProject.CollapseRunsShape | backend-rag/train/train_project.py:32 | only alphanumerics and `_` remain, no `__`, empty exactly when the input is, a leading alphanumeric kept, and a leading `_` exactly when the input starts outside `[a-zA-Z0-9]` |
| TrainProject.CollapseRunsKeeps | backend-rag/train/train_project.py:32 | the letters and digits are kept in order, and the result ends in `_` exactly when the input ends outside `[a-zA-Z0-9]` |
| TrainProject.CollapseRunsSplit | backend-rag/train/train_project.py:32 | cutting the text anywhere outside a non-alphanumeric run and collapsing the parts gives the collapsed text: each run is replaced on its own |
| TrainProject.CollapseRunsOfRun | backend-rag/train/train_project.py:32 | a non-empty run of non-alphanumerics becomes exactly one `_` |
| TrainProject.StripLeading | backend-rag/train/train_project.py:33 | a suffix of the input not starting with `_`, and everything dropped is `_` |
| TrainProject.StripTrailing | backend-rag/train/train_project.py:33 | a prefix of the input not ending with `_`, and everything dropped is `_` |
| TrainProject.SanitizeFilename | backend-rag/train/train_project.py:27-33 | the output holds only `[a-z0-9_]`, has no `__` and no `_` at either end |
| TrainProject.SanitizeFilenameKeepsAlnums | backend-rag/train/train_project.py:27-33 | the output's letters and digits are exactly the input's ASCII letters and digits, lower-cased, in order |
| TrainProject.AsciiOnlyOfAscii | backend-rag/train/train_project.py:31 | ASCII text is kept as it is |
| TrainProject.CollapseRunsOfClean | backend-rag/train/train_project.py:32 | alphanumeric-or-`_` text without `__` is kept as it is |
| TrainProject.StripOfSlug | backend-rag/train/train_project.py:33 | text without outer `_` is kept by the strip |
| TrainProject.LowerOfSlug | backend-rag/train/train_project.py:33 | lower-casing a slug keeps it |
| TrainProject.SanitizeFilenameFixesSlugs | backend-rag/train/train_project.py:27-33 | a slug sanitises to itself |
| TrainProject.SanitizeFilenameIdempotent | backend-rag/train/train_project.py:27-33 | sanitising twice is sanitising once |
| TrainProject.ExtractShape | backend-rag/train/train_project.py:42-63 | every entry's source path extends the parent path, and no entry is whitespace-only when no scalar prints blank |
| TrainProject.ExtractFieldsShape | backend-rag/train/train_project.py:49-52 | every entry of an object's members has a path extending `parent.key` for one of the members, and none is blank when no scalar prints blank |
| TrainProject.ExtractFieldsParts | backend-rag/train/train_project.py:49-52 | an object yields, in member order, exactly the entries of each member's value under `parent.key` (`key` at the root), concatenated |
| TrainProject.ExtractItemsShape | backend-rag/train/train_project.py:53-56 | every entry of a list's elements has a path extending `parent[i]` for one of the indices, and none is blank when no scalar prints blank |
| TrainProject.ExtractItemsParts | backend-rag/train/train_project.py:53-56 | a list yields, in element order, exactly the entries of each element under `parent[i]`, concatenated |
| TrainProject.ExtractExample | backend-rag/train/train_project.py:42-63 | depth-first order, `key` at the root, `tags[0]`, a whitespace-only string dropped, a number kept as its text |
| TrainProject.TitleOf | backend-rag/train/train_project.py:72 | "untitled" when there is no `name` member; with distinct keys, the value of the `name` member; in any case either "untitled" or some `name` member's value |
| TrainProject.BuildDocuments | backend-rag/train/train_project.py:65-84 | the nested loops yield one document per piece of each entry, in entry and piece order |
| TrainProject.DocsOfPieces | backend-rag/train/train_project.py:79-83 | one document per piece, in order, with the piece as content and metadata exactly `{source: path, project: title}` |
| TrainProject.DocumentMetadata | backend-rag/train/train_project.py:76-83 | every document's metadata has exactly the keys `source` and `project`, `source` is a string and `project` is the title |
| TrainProject.DocumentsPerEntry | backend-rag/train/train_project.py:76-83 | the documents are, entry after entry, exactly `DocsOfPieces` of that entry's pieces and its own path |
| TrainProject.DocumentCount | backend-rag/train/train_project.py:76-83 | every entry yields at least one document |
| TrainProject.PiecesShape | backend-rag/train/train_project.py:78 | an entry of at most 100 words is one piece with the text unchanged; a longer one is ⌈n / 100⌉ pieces of 1 to 150 words |
| TrainSummary.ToUnderscores | backend-rag/train/train_summary.py:29 | every character outside `[A-Za-z0-9_]` becomes `_`, one for one |
| TrainSummary.CollapseUnderscores | backend-rag/train/train_summary.py:31 | no `__` remains; the first character and the character class are kept |
| TrainSummary.CollapseUnderscoresKeeps | backend-rag/train/train_summary.py:31 | every character other than `_` is kept, in order, and so is the last character |
| TrainSummary.SanitizeId | backend-rag/train/train_summary.py:22-32 | the output holds only `[a-z0-9_]` and has no `__` |
| TrainSummary.SanitizeIdKeepsAlnums | backend-rag/train/train_summary.py:22-32 | the id's letters and digits are exactly the title's ASCII letters and digits, lower-cased, in order |
| TrainSummary.CollapseUnderscoresOfClean | backend-rag/train/train_summary.py:31 | text without `__` is kept |
| TrainSummary.SanitizeIdFixesIds | backend-rag/train/train_summary.py:22-32 | an id sanitises to itself |
| TrainSummary.SanitizeIdIdempotent | backend-rag/train/train_summary.py:22-32 | sanitising twice is sanitising once |
| TrainSummary.LeadingUnderscoreKept | backend-rag/train/train_summary.py:27-32 | unlike `sanitize_filename`, a leading ASCII non-alphanumeric becomes a kept leading `_` |
| TrainSummary.TrailingUnderscoreKept | backend-rag/train/train_summary.py:27-32 | likewise a trailing ASCII non-alphanumeric becomes a kept trailing `_` |
| TrainSummary.CollapseAgrees | backend-rag/train/train_summary.py:29-31 | one-for-one replacement then collapsing `__+` equals collapsing each non-alphanumeric run at once |
| TrainSummary.FilenameIsStrippedId | backend-rag/train/train_summary.py:27-32 | `sanitize_filename(t)` is `sanitize_id(t)` with the outer `_` stripped |
| TrainSummary.IdCollision | backend-rag/train/train_summary.py:27-32 | "A-B" and "a b" get the same id "a_b" |
| TrainSummary.FirstSeen | backend-rag/train/train_summary.py:35-44 | the dict's keys: each title once, exactly the titles that occur |
| TrainSummary.FirstSeenOrder | backend-rag/train/train_summary.py:35-44 | the dict's key order: of two keys, the earlier one first occurs in the projects before the later one occurs at all (insertion order) |
| TrainSummary.BuildEmbeddings | backend-rag/train/train_summary.py:35-44 | the loop yields the dict keyed by title, last project with a title winning, in first-insertion key order |
| TrainSummary.BuildVectors | backend-rag/train/train_summary.py:68-79 | one vector item per dict entry, in key order, with id `sanitize_id(title)` and that entry's embedding and description |
| TrainSummary.Summarise | backend-rag/train/train_summary.py:35-79 | no projects fails (`projects[0]` raises); otherwise one item per distinct title |
| TrainSummary.EmbeddingKeys | backend-rag/train/train_summary.py:36-44 | the dict's keys are exactly the titles |
| TrainSummary.LastWins | backend-rag/train/train_summary.py:41-44 | a title's entry is from the last project carrying it |
| TrainSummary.DistinctTitlesCount | backend-rag/train/train_summary.py:35-44 | at most one item per project, exactly one each when titles are distinct |
| BackendTrain.PassagesOf | backend/train.py:20-26 | one passage per project, none without a `projects` key |
| BackendTrain.LoadPassages | backend/train.py:13-27 | the loop yields `title + ". " + description` per project, in file order, a missing field read as "" |
| BackendTrain.TitleRecovered | backend/train.py:25 | a title without ". " in it is the text before the passage's first ". " |
| BackendTrain.UntitledPassage | backend/train.py:22-25 | a project without a title still yields a passage, starting with ". " |
| BackendTrain.ComputeEmbeddings | backend/train.py:29-42 | the batches are `passages[i:i+2]` for i = 0, 2, 4, …, each encoded on its own, results in batch order |
| BackendTrain.BatchSizes | backend/train.py:36-37 | every batch holds one or two passages |
| BackendTrain.BatchesConcat | backend/train.py:36-37 | the batches concatenate back to the passages, in order |
| BackendTrain.BatchCount | backend/train.py:38 | the number of batches is (n − 1) // 2 + 1, 0 for no passages |
| BackendQuery.PyIndex | backend/query.py:28 | Python indexing: defined exactly for −n ≤ i < n, the element itself for i ≥ 0 |
| BackendQuery.RetrievePassages | backend/query.py:25-29 | as written: defined exactly when every index is in Python's range, then one passage per index, in order |
| BackendQuery.NeighbourPassages | backend/query.py:25-29 | corrected: at most one passage per index, each one of the stored passages |
| BackendQuery.NeighbourPassagesAppend | backend/query.py:28 | corrected: a row is read index by index, each index alone deciding what it adds, in order |
| BackendQuery.NeighbourPassagesSnoc | backend/query.py:28 | corrected: one more index adds its passage when it names a stored one, else nothing |
| BackendQuery.NeighbourPassagesOfPadding | backend/query.py:27-28 | corrected: FAISS's −1 marks alone retrieve nothing |
| BackendQuery.PaddedRow | backend/query.py:25-29 | for a row of found neighbours followed by −1 marks, the corrected retrieval gives exactly the found neighbours' passages; as written, each mark appends the last passage again |
| BackendQuery.RetrievePaddedRow | backend/query.py:27-28 | as written, a row of found neighbours followed by −1 marks reads the found passages, then the last passage once per mark |
| BackendQuery.NeighboursOfFullRow | backend/query.py:28 | on a row of in-range indices both agree: `passages[i]` per index, same order and count |
| BackendQuery.MissingNeighbourReadsLast | backend/query.py:27-28 | as written, FAISS's −1 marks read the last passage again |
| BackendQuery.PromptLayout | backend/query.py:31-40 | the prompt is the fixed instructions, "\n\nContext: ", the space-joined passages, "\n\nQuestion: ", the question and "\nAnswer:", each at its fixed position |
| BackendQuery.PromptDeterminesQuestion | backend/query.py:40 | with the same passages, different questions give different prompts |
| BackendQuery.EmptyContextPrompt | backend/query.py:33-40 | with no passages the context is "" and the labels meet |
| BackendQuery.FirstExit | backend/query.py:57-60 | the first line whose lower-case is "exit", with no earlier one |
| BackendQuery.Repl | backend/query.py:57-69 | every line before the first "exit" (any letter case) is answered in order with the prompt for its neighbours; the loop stops there, or runs out of input |
| BackendQuery.ExitSpellings | backend/query.py:59 | "EXIT" and "Exit" stop; " exit" and "exit." are questions |
| RagService.IndexPath | backend-rag/main.py:20 | `os.path.join`: the slug ends the path, and the path is absolute exactly when the slug is |
| RagService.IndexPathInjective | backend-rag/main.py:20 | different slugs give different path strings |
| RagService.Respond | backend-rag/main.py:31-63 | a body that is not an object is 500; 400 with the fixed message exactly when a field is missing or blank after strip; a 404 only when the lower-cased project's directory is missing or the search reports a missing file (`FileNotFoundError`); an answer echoes the lower-cased project and stripped question, with one entry per hit in rank order |
| RagService.QueryProject | backend-rag/main.py:32-63 | the handler, with its result loop, returns `Respond` |
| RagService.AnswerShape | backend-rag/main.py:35-57 | an answer's project is lower-case and non-empty, its question stripped and non-blank, every result's content stripped |
| RagService.BlankRequestNeverSearched | backend-rag/main.py:35-39 | a blank field gives the 400 whatever the index holds: no lookup happens |
| RagService.SlugLookedUpAsIs | backend-rag/main.py:35-41 | a slug is looked up unchanged by the strip and lower-casing |
| RagService.SavedIndexPath | backend-rag/train/train_project.py:100-102 | the indexer saves each index under its fixed `INDEXES_DIR` (line 10), at an absolute path ending in the slug |
| RagService.ServedIsSaved | backend-rag/main.py:10-20 | the server's `./indexes/<slug>` is the indexer's saved directory exactly when the server's working directory is the indexer's `rag` directory (or the slug is absolute) |
| RagService.TrainedSlugFound | backend-rag/main.py:20-22 | assuming the saved index shows at `./indexes/<slug>` (the server run from the indexer's `rag` directory), asking by the slug the indexer saved under reaches that index: never a 400, a 404 only when the search itself reports a missing file, and an answer names the slug |
| RagService.SpacedNameMissesIndex | backend-rag/main.py:35-43 | with only `./indexes/<sanitize_filename(name)>` present (the saved index, seen from the indexer's `rag` directory), asking by a name with an inner space gives a 404 |
| RagService.TrainedDocumentsHaveNoSection | backend-rag/main.py:49 | every document the indexer builds is reported with section "unknown" |

## Left out

- Groq, the retrieval service, FAISS, the sentence-embedding models and Pinecone are function parameters. Floating-point vectors, distances, `temperature` and `np.vstack` are not modelled.
- Browser APIs are parameters or flags: `SpeechRecognition`, `speechSynthesis` and `fetch`. Whether `start()`, `stop()`, the recogniser's constructor or speech synthesis throws is a flag.
- React state is one sequential step per handler. Async interleaving is not modelled: for example, an `onresult` event arriving while the earlier page awaits the chat call.
- Re-initialising the recogniser when the language changes is not modelled. Neither is the `language` setting itself.
- JSX rendering and styles are not modelled. Neither are the edit-mode state of the note component, the page entry point, `backend/api.py` or `backend-rag/query.py`.
- File and JSON I/O is outside the model: `open`, `json.load`, `pickle`, `os.makedirs` and `input()` at end of input. Each script's `main` and its printing are outside it as well. Parsed data is passed in, and `os.path.exists` is the parameter `indexExists`.
- Python's `str()` of numbers, booleans and null is the text carried by `JScalar`. JSON objects are member lists assumed to have distinct keys.
- Strings: whitespace is the six characters space, tab, line feed, vertical tab, form feed and carriage return, and `lower()` is ASCII lower-casing. Python's `strip()`, `split()` and `isspace()` also treat the ASCII separators `\x1c`-`\x1f` and many non-ASCII characters as whitespace, and JavaScript's `trim()` treats non-ASCII spaces so; none of those extra characters is modelled as whitespace. Unicode case mapping is not modelled.
- Request bodies whose fields have the wrong JSON type are not modelled: a non-string `project`, or history elements of another shape. Projects lacking `title` or `description` in the summary script, which raise `KeyError`, are not modelled either.
- TrainProject.ChunkText: requires `chunk_size >= 1` and `overlap < chunk_size`. With `overlap >= chunk_size` the step `chunk_size - overlap` is zero or negative, so the source's `while i < len(words)` loop never ends on text with at least one word; that non-terminating case is excluded. The only call passes 150 and 50, which meet both. The source also terminates for `chunk_size <= 0` with `overlap < chunk_size`, producing empty or negative-ended slices; that case is not modelled.
- RagService.TrainedSlugFound: assumes the server runs from the indexer's `rag` directory, so that the index saved under the indexer's absolute `INDEXES_DIR` is the server's `./indexes/<slug>`. From any other working directory the server sees none of the saved indexes (`RagService.ServedIsSaved`), and a lookup depends only on what else lies under `./indexes`.
- RagService.SpacedNameMissesIndex: makes the same working-directory assumption; it takes `./indexes/<sanitize_filename(name)>` to be the only index directory present.
- RagService.Respond: the search parameter may return any number of hits. That FAISS returns at most `k = 5` is not stated.
- BackendQuery.Repl: prompts use the corrected retrieval `NeighbourPassages`, not the as-written one (see Findings).
- ConversationPanel.Page.HandleStopListening: the speech-synthesis flag `ttsThrows` has no effect on state, because the source only logs that failure.

## Findings

| source | as written | input that shows it | evidently intended | confidence | as-written member | corrected member |
|---|---|---|---|---|---|---|
| backend/query.py:27-28 | `passages[i]` is read for every index FAISS returns. With fewer stored passages than `top_k`, FAISS fills the row with −1, and Python reads −1 as the last passage. | three passages, `top_k = 5`, search row `[0, 1, 2, -1, -1]` gives `["a", "b", "c", "c", "c"]` | the found neighbours only: `["a", "b", "c"]` | medium, not executed | BackendQuery.MissingNeighbourReadsLast, BackendQuery.RetrievePaddedRow | BackendQuery.NeighbourPassages, BackendQuery.PaddedRow |
