# News-article question answering: a Dafny model of the backend core

The backend answers questions about stored news articles. It embeds the query and asks a vector index for the five nearest articles. The stored payload of each hit becomes a passage: a title, a URL, a text and a score. A generative model then answers from a prompt built out of those passages. When that model cannot be reached, a local fallback answer quotes the passages in whose lower-cased title or text some lower-cased query word occurs as a substring (so `rate` selects an article about something `accurate`). A key-value store keeps each chat session's turns, and each session expires 1800 seconds after its last write.

The model has five modules:

- `Wrappers`: `Option` and `Result`.
- `Text`: the Python string operations the code relies on. These are `str.split()` with no separator, ASCII `str.lower`, the substring test `t in s` and `sep.join`. The predicate `EndsWith` is the model's own, used to state where the failure notes end.
- `Synthesizer`: backend/gemini_client.py.
  - `SimpleLocalResponse` is the imperative fallback. It is proved equal to the specification function `LocalAnswer`.
  - `GenerateResponse` is the choice between the model's text and the fallback.
  - The generation call is represented by what it produced (`GenOutcome`).
- `Sessions`: backend/session_manager.py.
  - The store is a class, `ConversationStore`, holding a map from session key to list and expiry, plus a clock.
  - Its methods are specified through the pure functions `Read`, `Append` and `Delete`.
- `Api`: the handlers of backend/main.py.
  - The embedding model, the vector index and the generative model are passed in as functions (`Services`).
  - The generated session id is a parameter.
  - A store failure is a parameter: `writesBeforeFault` for `/chat`, and `fault` for the history endpoints.

## Model

| member | source | states |
|---|---|---|
| Text.LowerChar | backend/gemini_client.py:8 | Lower-casing maps `A`–`Z` to `a`–`z` and leaves every other character, every separator included, unchanged |
| Text.Lower | backend/gemini_client.py:12-13 | `s.lower()` keeps the length and lowers each character in place |
| Text.LowerIdempotent | backend/gemini_client.py:8 | Lowering an already-lowered string changes nothing |
| Text.WordLen | backend/gemini_client.py:8 | The leading word has no separator in it, is followed by a separator or the end, and is non-empty when the string starts with a non-separator |
| Text.Words | backend/gemini_client.py:8 | `split()` yields only non-empty words free of separators |
| Text.WordsSplitAt | backend/gemini_client.py:8 | A separator splits the input in two: the words of the part before it followed by the words of the part after it |
| Text.OneWord | backend/gemini_client.py:8 | A non-empty run of non-separators is exactly one word; with `WordsSplitAt` and `BlankHasNoWords` this determines `split()` on every input |
| Text.WordsKeepLower | backend/gemini_client.py:8 | The words of a lower-cased string are themselves lower-cased |
| Text.WordsCoverInput | backend/gemini_client.py:8 | Gluing the words of `split()` back together gives the input with exactly its separators removed |
| Text.BlankHasNoWords | backend/gemini_client.py:8 | A string made only of separators, or the empty string, splits into no words |
| Text.ContainsAt | backend/gemini_client.py:15 | The substring test `term in text` holds exactly when the term starts at some index of the text |
| Text.JoinKeepsParts | backend/gemini_client.py:49-52 | Every part survives `"\n\n".join(parts)` as a substring |
| Synthesizer.QueryTerms | backend/gemini_client.py:8 | Every query term is non-empty, contains no separator and is already lower-case |
| Synthesizer.MatchingIff | backend/gemini_client.py:10-16 | A passage is kept exactly when it is an input passage and some query term occurs in its lower-cased text or title |
| Synthesizer.MatchingCount | backend/gemini_client.py:10-16 | A relevant passage is kept as many times as it occurs in the input, and an irrelevant one never |
| Synthesizer.MatchingKeepsOrder | backend/gemini_client.py:10-16 | The kept passages are a subsequence of the input: input order is preserved |
| Synthesizer.SelectionCases | backend/gemini_client.py:18-19 | If any passage matches, exactly the matching passages are quoted. If none matches, the first two are quoted, or all of them when there are fewer than two |
| Synthesizer.BlankQueryQuotesFirstTwo | backend/gemini_client.py:8-19 | A blank query has no terms, so the first two passages are quoted |
| Synthesizer.SelectionIgnoresQueryCase | backend/gemini_client.py:8 | The letter case of the query does not change which passages are quoted |
| Synthesizer.Excerpt | backend/gemini_client.py:24 | `text[:150]` is the prefix of the text of length 150, or the whole text when it is no longer than that |
| Synthesizer.QuoteAppend | backend/gemini_client.py:23-24 | Quoting a concatenation of passage lists is quoting one list after the other |
| Synthesizer.QuoteEach | backend/gemini_client.py:23-24 | Each selected passage contributes its own block, in selection order |
| Synthesizer.LocalAnswerFrame | backend/gemini_client.py:21-27 | The fallback answer opens with the header, so it contains the query, and ends with the fixed disclaimer |
| Synthesizer.NoPassagesAnswer | backend/gemini_client.py:18-27 | With no passages retrieved, the answer is the header followed directly by the disclaimer |
| Synthesizer.SimpleLocalResponse | backend/gemini_client.py:5-27 | The two loops build exactly `LocalAnswer`: the matching passages, or the first two when none match, quoted in order between the header and the disclaimer |
| Synthesizer.Entries | backend/gemini_client.py:49-52 | One context entry per passage, at the passage's own position |
| Synthesizer.ContextHoldsEveryPassage | backend/gemini_client.py:49-52 | Every passage's title, text and URL entry appears in the context |
| Synthesizer.Prompt | backend/gemini_client.py:55-64 | The prompt contains the query and the whole context |
| Synthesizer.FailureNote | backend/gemini_client.py:38-77 | The note after a failed generation ends with the failure's message |
| Synthesizer.GenerateResponse | backend/gemini_client.py:29-77 | A successful generation is returned verbatim. An import that raises anything but `ImportError` escapes as a failure carrying its message. Every caught failure returns the fallback answer followed by a note, and the note ends with the exception's message for both the rate-limit/not-found path and the generic path |
| Synthesizer.DegradedAnswerFrame | backend/gemini_client.py:38-77 | A caught failure gives an answer, and it still contains the query and the disclaimer |
| Synthesizer.ReadNoteInverts | backend/gemini_client.py:38-77 | Each note names its failure unambiguously, except for a generic failure whose message is the missing-package text |
| Synthesizer.DiagnoseRecoversFailure | backend/gemini_client.py:38-77 | The failure kind and message can be read back from the degraded answer, with that one exception |
| Synthesizer.PackageNoteCollision | backend/gemini_client.py:38-77 | A generic failure carrying the missing-package message produces the same answer as the missing package |
| Sessions.AppendThenRead | backend/session_manager.py:10-17 | Until it expires, a push lands at the tail of the session's list and keeps everything before it |
| Sessions.AppendResetsExpiry | backend/session_manager.py:13 | Every push sets the expiry to 1800 seconds from now |
| Sessions.AppendExpires | backend/session_manager.py:13-17 | 1800 seconds after the last push, the session reads as empty and is expired |
| Sessions.AppendIsolated | backend/session_manager.py:10-13 | A push to one session leaves every other session as it was |
| Sessions.DeleteThenRead | backend/session_manager.py:19-20 | After a delete the session reads as empty and absent. Deleting twice is deleting once, and deleting an unknown key changes nothing |
| Sessions.DeleteIsolated | backend/session_manager.py:19-20 | A delete leaves every other session as it was |
| Sessions.KeptAliveKeepsEverything | backend/session_manager.py:10-17 | A session whose pushes each land within 1800 seconds of the previous one keeps every turn, in push order, with no upper bound on its life |
| Sessions.ConversationStore.constructor | backend/session_manager.py:7-8 | A new store holds no sessions; the methods accept any valid store, so sessions left by an earlier run are covered |
| Sessions.ConversationStore.AddMessage | backend/session_manager.py:10-13 | The turn is appended at the tail of the session's history, the expiry is reset to 1800 seconds, the session is active, and every other session is unchanged |
| Sessions.ConversationStore.Tick | backend/session_manager.py:13 | Time passes with the store unchanged; after 1800 seconds or more every session reads as empty |
| Sessions.ConversationStore.GetHistory | backend/session_manager.py:15-17 | Returns the session's live turns in push order, or nothing for an unknown or expired key; a session has turns exactly while it is active |
| Sessions.ConversationStore.ClearSession | backend/session_manager.py:19-20 | The key is removed and the session reads as empty. Clearing an unknown key changes nothing, and every other session is unchanged |
| Api.Project | backend/main.py:47-55 | The title, URL and text are copied from the payload when present, otherwise `Untitled`, empty and `No content available`. The score is carried over |
| Api.ProjectAll | backend/main.py:47-55 | One passage per hit, in hit order |
| Api.AnswerQuery | backend/main.py:40-63 | Succeeds exactly when embedding and search succeed and generation does not escape. The sources are the projected hits, one per hit and at most five when the index honours its limit, and the answer is what `GenerateResponse` gives for them. Each failure names its step: embedding, index error status, other index error, or generation |
| Api.GenerationFailureDegrades | backend/main.py:58-63 | A generation failure that the synthesizer catches still yields a successful reply whose answer contains the query and the disclaimer |
| Api.SearchArticles | backend/main.py:37-67 | Queries shorter than 3 characters are rejected with 422, and longer ones never are. Success happens exactly when the answer path succeeds, and returns its answer and sources. An index error status gives a 500 with `Qdrant search failed: ` and its message; every other failure gives a 500 with `Search failed: ` and its message |
| Api.ChosenSessionId | backend/main.py:75-76 | A non-empty supplied session id is kept. A missing or empty one is replaced by the generated id |
| Api.ChatReplyOf | backend/main.py:69-111 | Empty queries are rejected with 422. Success happens exactly when the answer path succeeds, with its answer and sources under the chosen session id. Every failure of the answer path is a 500 with `Chat processing failed: ` and its message |
| Api.ChatAgreesWithSearch | backend/main.py:37-111 | For a query both endpoints accept, they succeed together with the same answer and sources |
| Api.ImportFailureFailsRequest | backend/main.py:64-111 | An import failure the synthesizer lets through fails `/search` with `Search failed: ` and `/chat` with `Chat processing failed: `, each followed by its message |
| Api.RecordExchange | backend/main.py:97-103 | The new store is the old one after exactly the accepted pushes (none, the query, or the query then the answer), each resetting the session's expiry. The fault is swallowed, and other sessions are unchanged |
| Api.Chat | backend/main.py:69-111 | The reply is `ChatReplyOf` whatever the store does. A failed request writes nothing. A successful one leaves the store as after the accepted pushes of (query, answer) to the chosen session, with its expiry reset, and other sessions unchanged |
| Api.GetSessionHistory | backend/main.py:113-118 | Returns the session's history, non-empty exactly while the session is active, or a 500 with `Failed to get history: ` and the store's message |
| Api.DeleteSession | backend/main.py:120-126 | Clears the session and replies `Session <id> cleared.`, or on a store fault, taken to come before the delete, leaves the store unchanged and gives a 500 with `Failed to delete session: ` and the store's message |

## Left out

- Text.Lower: lower-casing covers the ASCII letters only. Python's full Unicode case mapping is not modelled.
- The external services are not modelled. This covers the embedding model, the vector index client and the generative model, including `genai.configure` and the `GOOGLE_API_KEY` environment variable. They appear only as the values they return (`Services`, `GenOutcome`).
  - The model name `gemini-2.0-flash` and the collection name `news_articles` are not modelled.
  - The index and the generative model are assumed to answer the same input the same way, because they are modelled as functions.
- Synthesizer.GenerateResponse: a failure is classified by the outcome datatype. Python exception types and `str(e)` are represented by the message carried in the outcome. Only the imports can raise past it (`ImportRaised`); an exception from `genai.configure`, the prompt or the model call is caught.
- Sessions: the network connection to the store, its URL, concurrent clients and the JSON encoding of turns are not modelled.
  - A turn's role is the two-valued `Role`, not a free string.
  - Expiry is lazy and read through a simulated clock.
  - A push and its `expire` are one atomic step. A fault between `rpush` and `expire` is not modelled.
  - `add_message` either succeeds or raises before changing anything.
- Api.DeleteSession: a store fault is taken to happen before the delete, so a failed delete changes nothing. A fault after the server ran the delete, such as a lost reply, is not modelled.
- Api.Chat: `writesBeforeFault` stands for where the store raises during the two history writes. The warning it prints is not modelled.
- The UUID generator is not modelled. The fresh id is a parameter of `Chat`.
- Scores are opaque reals. Payload values are strings.
- The web framework's part is not modelled: CORS, routing, form and query parsing, JSON responses and `init_server` at start-up.
  - The length checks `min_length=3` and `min_length=1` are modelled as the 422 rejection.
  - A failure while creating the clients at import time is not modelled.
- Api.AnswerQuery: the bound of at most five sources relies on the index honouring its `limit` (`HonoursLimit`). The model does not assume it.
- Not part of this model: ingestion (scraping, embedding and storing articles) and the frontend.
