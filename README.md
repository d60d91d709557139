# Conversational memory agent — a verified model

This project models the core of a small conversational memory agent. The agent
reads lines from standard input and asks a language model to classify each
line as `add_memory`, `delete_memory` or `retrieve_memory`. It then acts on a
persistent vector-index collection of remembered facts:

- insert new facts, skipping near-duplicates;
- delete facts after asking the user, one fact at a time;
- answer a question from the three nearest facts.

A conversation buffer records every turn, and the classifier is shown it.

The model has five modules:

- `PyStrings` (`pystrings.dfy`): the Python `str` methods the agent relies on.
  These are `strip`/`lstrip`/`rstrip` with and without a character set,
  `lower`, `capitalize` and `join`.
- `Host` (`host.dfy`): what the agent uses but does not implement.
  - The language model, the embedding similarity, Python's `hash` and `eval`,
    and the index's ranking are *oracles*: function values gathered in the
    datatype `Oracles` and passed to every operation.
  - A similarity search returns the first `k` ranked hits that describe
    entries of the store.
  - The objects the agent mutates are classes: `VectorStore` (id ↦ text),
    `Console` (the unread lines of standard input, shared by the main loop
    and the deletion prompts) and `ConversationBuffer`.
- `Utils` (`utils.dfy`): `classify_intent`, `extract_facts` and
  `get_chat_history`.
- `VectorStoreUtils` (`vectorstore_utils.dfy`): insertion, deletion and
  retrieval.
  - The insertion and deletion loops are `method`s on the classes.
  - They are proved equal to the pure functions `AddAll` and
    `DeleteAll`, and lemmas prove the properties of those functions.
  - Retrieval has no loop and changes nothing, so it is the function
    `RetrieveMemory`.
- `Commands` and `Agent` (`main.dfy`): the exit test, the normalisation of the
  classifier's label, the dispatch on it, one turn (`Turn`), and the loop
  (`RunAgent`).
  - The loop is proved against the function `Run`, which describes the
    whole session.

The label normalisation at main.py:20 ends with `rstrip(".")`, which removes
every trailing period, not just one: `Commands.NormalizeExamples` shows `".."`
being removed. `classify_intent` (utils.py:11) only trims the reply; the quote
and period stripping and the lower-casing all happen at main.py:20, and the
model keeps that split (`Utils.ClassifyIntent`, `Commands.NormalizeIntent`).

## Model

| member | source | states |
|---|---|---|
| PyStrings.LStrip | utils.py:11 | `lstrip` yields a suffix of the input that starts with a kept character, and every removed character is removable |
| PyStrings.RStrip | main.py:20 | `rstrip` yields a prefix of the input that ends with a kept character, and every removed character is removable |
| PyStrings.StripRemovesOnlyDropped | utils.py:11 | `strip` yields a slice of its input, and everything it removes from both ends is removable |
| PyStrings.TrimRemovesOnlySpace | utils.py:11 | `strip()` yields a slice of its input, and everything it removes from both ends is whitespace |
| PyStrings.Capitalize | utils.py:39 | `capitalize` keeps the length, upper-cases the first character and lower-cases every other one |
| PyStrings.StripAround | main.py:20 | whatever removable text surrounds a middle that starts and ends with kept characters is removed, leaving exactly that middle |
| PyStrings.JoinSnoc | utils.py:39 | joining one more part appends the separator and that part, so no separator leads or trails |
| Utils.ClassifyIntent | utils.py:1-11 | the label is a slice of the model's reply, everything around that slice is whitespace, and the label neither starts nor ends with whitespace (together these determine `strip()` exactly) |
| Utils.FactsFromEval | utils.py:24-33 | an evaluated list is returned unchanged; a non-list value and an exception both give the empty list |
| Utils.ExtractFacts | utils.py:14-33 | when evaluating the trimmed reply gives a list, that list is returned unchanged; when it gives another value or raises, the result is the empty list |
| Utils.GetChatHistory | utils.py:35-40 | a history that is not a list is returned as it is; an empty message list renders as the empty string, and a single message as its own line |
| Utils.RenderAppend | utils.py:35-39 | rendering one more message adds a newline and that message's line; earlier lines are unchanged |
| Utils.RenderKinds | utils.py:39 | the message types `human` and `ai` render capitalised as `Human: ` and `Ai: ` |
| Host.SimilaritySearch | vectorstore_utils.py:14 | a search returns at most k hits, each one an entry of the store as ranked by the index; an empty store gives none |
| Host.VectorStore.AddTexts | vectorstore_utils.py:23 | adding a text under an id maps that id to the text and leaves every other entry as it was |
| Host.VectorStore.Delete | vectorstore_utils.py:36 | deleting an id removes exactly that id |
| Host.Console.Input | main.py:11 | `input()` returns the next unread line and consumes it; with no line left it raises (None) and consumes nothing |
| Host.ConversationBuffer.SaveContext | main.py:16 | `save_context` appends one human message and one ai message, in that order |
| VectorStoreUtils.AddMemory | vectorstore_utils.py:8-23 | the insertion loop leaves the store equal to `AddAll` over the facts, in order |
| VectorStoreUtils.AddAllOnlyInserts | vectorstore_utils.py:8-23 | insertion never removes an id and adds at most one entry per fact; every entry afterwards is an untouched old one or a fact stored under its own hash |
| VectorStoreUtils.AddStepSkipsExactlyDuplicates | vectorstore_utils.py:14-23 | a fact is skipped exactly when the nearest hit has similarity `>=` the threshold; otherwise it is stored under `hash(fact)`; nothing else changes |
| VectorStoreUtils.AddToEmptyStore | vectorstore_utils.py:14-15 | a fact added to an empty store is always inserted |
| VectorStoreUtils.AddAllSnoc | vectorstore_utils.py:13 | each fact is processed against the store the earlier facts left |
| VectorStoreUtils.AddStepIdempotent | vectorstore_utils.py:20-23 | inserting the same fact twice in a row has the effect of inserting it once |
| VectorStoreUtils.LaterFactSeesEarlier | vectorstore_utils.py:13-22 | a later fact is skipped as a duplicate of an earlier fact inserted in the same call |
| VectorStoreUtils.DeleteMemory | vectorstore_utils.py:25-39 | the deletion loop leaves the store and the unread input equal to `DeleteAll`, and reports an `EOFError` from `input()` |
| VectorStoreUtils.DeleteAllOnlyRemoves | vectorstore_utils.py:25-39 | deletion never adds or changes an entry |
| VectorStoreUtils.DeleteAllReadsInOrder | vectorstore_utils.py:27-34 | deletion consumes answers from the front of the input, at most one per fact |
| VectorStoreUtils.IsYesExactly | vectorstore_utils.py:35 | an answer is a confirmation exactly when it trims to `y` or `Y`; `yes`, `n` and the empty answer are refusals |
| VectorStoreUtils.DeleteStepAtMostOne | vectorstore_utils.py:28-39 | a fact with no hit reads no answer and changes nothing; a fact with a hit reads exactly one answer, and it deletes that hit's id only on a yes |
| VectorStoreUtils.DeleteAllSnoc | vectorstore_utils.py:27 | each fact is processed against the store and input the earlier facts left, until input runs out |
| VectorStoreUtils.DeleteAllRemovesAtMostOnePerFact | vectorstore_utils.py:27-36 | the store loses at most one entry per fact |
| VectorStoreUtils.DeleteAllDeclined | vectorstore_utils.py:35-39 | when no answer is a yes, deletion leaves the store unchanged |
| VectorStoreUtils.DeleteAllStopsAtEof | vectorstore_utils.py:34 | once `input()` has raised, the remaining facts are not processed |
| VectorStoreUtils.ResolveId | vectorstore_utils.py:32 | a hit's own id is used when it is present and non-empty; otherwise the id is the hash of the hit's text |
| VectorStoreUtils.Texts | vectorstore_utils.py:44 | the texts of the hits are taken in search order, one per hit |
| VectorStoreUtils.RetrieveMemory | vectorstore_utils.py:41-55 | with no hit among the three nearest the reply is "No relevant memories found."; any reply starts and ends with a non-whitespace character |
| VectorStoreUtils.RetrieveWithoutHits | vectorstore_utils.py:43-46 | with no hit the reply is "No relevant memories found.", whatever the language model would say |
| VectorStoreUtils.RetrieveFromEmptyStore | vectorstore_utils.py:43-46 | an empty store always gives "No relevant memories found." |
| VectorStoreUtils.RetrieveWithHits | vectorstore_utils.py:43-55 | with hits, the model is shown one to three stored texts, in search order, joined by "; ", and its trimmed reply is returned |
| Commands.ExitExamples | main.py:12 | the exit test accepts `  EXIT` followed by a newline, and `Exit`, but not `exit now` |
| Commands.ExitGeneral | main.py:12 | any whitespace before and after any spelling of "exit" in any letter case is an exit line |
| Commands.ExitOnlyAroundWord | main.py:12 | every exit line is some spelling of "exit", in any letter case, with only whitespace before and after it (the converse of `ExitGeneral`) |
| Commands.NormalizeIntent | main.py:20 | a normalised label has no trailing period and no upper-case letter, and is no longer than the raw reply |
| Commands.NormalizeWrapped | main.py:20 | a label wrapped in whitespace, then double quotes, then single quotes, with any periods before the closing quotes, normalises to the bare label |
| Commands.NormalizeExamples | main.py:20 | `"Add_Memory."` in double quotes, `'add_memory'`, `ADD_MEMORY` and ` delete_memory..` followed by a newline all normalise to their label |
| Commands.QuoteBeforePeriodSurvives | main.py:20 | quotes are stripped before periods, so in `'add_memory'.` the closing quote survives and the label is not recognised |
| Agent.TextPrefix | main.py:23-30 | the facts handed to the index are the strings before the first value that is not a string; all of them when every value is a string |
| Agent.DispatchTable | main.py:22-38 | the reply table: `add_memory` leaves the store as `AddAll` over the extracted strings does, reads no input, answers "Updated the memory accordingly." and only adds; `delete_memory` with no facts answers "No deletion detected." and changes nothing; `delete_memory` with facts leaves the store and the input as `DeleteAll` does and completes exactly when no `input()` raised; `retrieve_memory` answers with the retrieval; any other label answers "Sorry, I couldn't understand your intent." and changes nothing |
| Agent.DispatchIntent | main.py:22-38 | the if-chain leaves the store, the input and the reply equal to `Dispatch` on the label |
| Agent.DispatchInputShrinks | main.py:27-30 | a dispatch consumes no more input than it was given |
| Agent.TurnSavesTwoContexts | main.py:16-43 | a completed turn appends exactly the message with an empty output, then an empty input with the reply |
| Agent.ClassifierSeesMessage | main.py:16-19 | the classifier sees the earlier history (if any) and a newline, followed by a `Human:` line with the message and an empty `Ai:` line; on the first turn it sees only those two lines |
| Agent.FirstTurnHistory | main.py:16-18 | on the first turn the rendered history is exactly `Human: ` with the message, a newline and `Ai: ` |
| Agent.LaterTurnHistory | main.py:16-18 | after earlier turns the rendered history is the earlier rendering, a newline, then the `Human:` and empty `Ai:` lines |
| Agent.TurnKeepsHistory | main.py:16-43 | a turn only appends to the conversation buffer |
| Agent.TurnInputShrinks | main.py:22-38 | a turn consumes no more input than it was given |
| Agent.Turn | main.py:15-43 | one turn leaves the store, the buffer and the input equal to `TurnSpec`, and returns its reply |
| Agent.RunAgent | main.py:10-43 | the loop ends the way `Run` says it does (on exit, at end of input, or when a turn raises), with the state `Run` gives |
| Agent.ExitChangesNothing | main.py:11-13 | an exit line ends the session with the store and the history unchanged |
| Agent.RunOnlyAppends | main.py:10-43 | over a whole session the history is only ever appended to |
| Agent.RunClosesOnEmptyInput | main.py:10-11 | a session ends for lack of input only once every line has been read |

## Left out

- config.py is not part of this model. It constructs the language model, the embeddings, the Chroma collection and the conversation buffer. The model starts from a `VectorStore`, a `ConversationBuffer` created with `return_messages=True` and a `Console`.
- The prompt texts are left out. Each language-model call is an oracle of exactly the values its prompt embeds:
  - classification: the message and the rendered history;
  - extraction: the message;
  - answering: the joined facts and the query.
- The oracles are functions, so a model call with the same inputs gives the same reply. Non-determinism across calls is not modelled.
- Embeddings and cosine similarity are one oracle `sim` on two texts. Floating point is not modelled; similarities are reals compared with `>=` against 0.9.
- Chroma's nearest-neighbour ranking is an oracle `rank`. A search keeps the first `k` ranked hits that describe stored entries.
- `add_texts` on an id that already exists is modelled as replacing the entry (an upsert).
- Python's `hash` is an oracle. Its per-process randomisation, which makes stored ids differ between runs, is not modelled.
- `eval` is an oracle. Its result is reduced to "raised", "a list", or "another value". Only string and list elements are told apart.
- `print` output is not modelled: the prompts, the skip, delete and cancel messages, and the agent's reply line.
- An extracted list that holds a non-string is modelled as raising when it reaches the first non-string. The strings before it have already been processed. What the index would do with that value is not modelled.
- An exception ends the session (`TurnRaised`). `EOFError` from either `input()` call is covered, as are the failures just above. Network and API errors from the external services are not modelled.
- `lower` and `capitalize` are modelled on ASCII letters only. `strip()` without arguments uses Python's full whitespace set.
- The `classify_intent` and `retrieve_memory` reply texts are the oracles' strings, trimmed. Any structure of the model's response object beyond `.content` is not modelled.
- The globals `llm` and `embeddings` in vectorstore_utils.py are the oracles passed in. The `if __name__ == "__main__"` entry point and the start-up banner are not modelled.
