# E-commerce question-answering chatbot: the deterministic core

The chatbot answers a shopper's free-text question. A semantic router picks
one of three routes: `faq`, `sql` or `small-talk`. Each route has a handler
that calls a hosted language model, possibly after reading a SQLite product
table or a Chroma vector store. This project models the deterministic logic
around those calls and proves properties of it in Dafny.

- **SQL chain** (`app/sql.py`), in `sql.dfy`. The model's reply is searched
  with `re.findall("<SQL>(.*?)</SQL>", reply, re.DOTALL)`. The first block,
  stripped, goes to `run_query`. `run_query` reads the database only if
  `strip().upper()` of the query starts with `SELECT`. The chain ends in one
  of four ways:
  - one of two fixed apology strings;
  - the model's summary of the rows;
  - an exception, when the database rejects a query that passed the gate.
- **FAQ chain** (`app/faq.py`), in `faq.dfy`. `ingest_faq_data` creates the
  `faqs` collection and then reads the CSV file into it, with ids
  `id_0 … id_{n-1}`. It does nothing if the collection already exists.
  `get_relevant_qa` asks for two results for the one query text. `faq_chain`
  concatenates the retrieved answers into the model's context.
- **Dispatcher and chat history** (`app/main.py`), in `app.dfy`. `ask` maps the
  router's result to one handler or to a fixed reply. Each run of the script
  ingests the FAQ data, appends the user message, calls `ask`, and appends the
  reply if `ask` returns.
- `text.dfy` holds the Python string primitives the code relies on:
  - `str.strip()`, with Python's own set of whitespace characters;
  - `str.upper()`;
  - `startswith`;
  - `str(i)` for a natural number.

  It also holds `FindFrom`, a substring search that the model of `re.findall`
  is built on.
- `wrappers.dfy` holds `Option` and `Result`. `services.dfy` holds the
  external-call datatypes and the exceptions (`Fault`) that escape a pipeline.

External services are opaque function-typed fields of `SqlServices`,
`FaqServices` and `Env`: the language model, the database read, the vector
store's similarity ranking, the router and `talk`. Each pipeline returns
`Outcome(reply, calls)`, the reply plus the list of external calls it made.
So a statement like "the database is not read" is a fact about that list.

The database read and the CSV read can fail. Nothing in the app catches
these exceptions, so each pipeline returns a `Result` whose `Failure` is the
exception that escapes it.

What the contracts establish:

- The model's SELECT gate agrees with a reference reading,
  `IsSelectStatement`: "some blanks, then SELECT in any letter case". The
  gate ignores padding and letter case, and it is only a prefix test. Python's
  gate also admits one spelling the model refuses (see "## Left out").
- The regular-expression search agrees with a reference leftmost, lazy match.
  The extracted text never contains `</SQL>`, and later blocks never matter.
- Every database read in any run of `sql_chain` is of a query that passes the
  gate. `sql_chain` raises only when the database rejects such a query.
- FAQ ids are exactly `id_i`: pairwise distinct, and each reads back to its
  index.
- Ingestion is idempotent by collection name. A CSV read that fails leaves an
  empty `faqs` collection behind, which later runs never refill.
- The context handed to the model is the first two ranked answers, joined in
  order with no separator.
- `ask` runs at most one handler and passes it the query unchanged. It raises
  only on the `faq` route with the collection missing, or on the `sql` route
  when the database rejects the query.
- Over any session, the user messages are exactly the non-empty inputs that
  reached the history, in order. Every assistant message directly follows a
  user message.
- When every `ask` returns, the history alternates user and assistant
  messages. A rejected query breaks this: the user message stays unanswered,
  and the next user message follows it directly.

`ask` replies "Sorry, I didn't understand that." only when `router(query)` is
Python `None`. A router result whose route name is absent falls through to
the last branch of `ask`, which renders the name as `None`. The model keeps
both cases (`RouteChoice(name: Option<string>)`).

## Model

| member | source | states |
|---|---|---|
| Text.Strip | app/sql.py:70 | `str.strip()`: the result is the infix of the input that starts after the leading blanks. Everything after it is blanks, and a non-empty result neither starts nor ends with a blank. |
| Text.StripIdempotent | app/sql.py:94 | Stripping an already-stripped query, as `run_query` does with the text `sql_chain` stripped, changes nothing. |
| Text.LeadingSpaces | app/sql.py:70 | The number of blanks `strip()` removes from the front: all characters before it are blanks and the next one is not. |
| Text.TrailingSpaces | app/sql.py:70 | The number of blanks `strip()` removes from the back: all characters after the cut are blanks and the one before is not. |
| Text.UpperChar | app/sql.py:70 | `str.upper()` on one character: an ASCII lower-case letter becomes the capital at the same place in the alphabet, U+017F becomes `S`, and every other character is left unchanged. No ASCII lower-case letter remains. |
| Text.Upper | app/sql.py:70 | The model's `str.upper()` upper-cases each character in place, so it keeps the length and leaves no ASCII lower-case letter. |
| Text.UpperIdempotent | app/sql.py:70 | Upper-casing an upper-cased text changes nothing. |
| Text.FindFrom | app/sql.py:83-84 | Substring search underlying the model of `re.findall`: the index returned is an occurrence at or after the start, with no earlier occurrence. None means there is no occurrence at or after the start. |
| Text.Decimal | app/faq.py:51 | `str(i)`: at least one character, all decimal digits, no leading zero. |
| Text.ParseDecimalOfDecimal | app/faq.py:51 | Reading back the decimal rendering of `i` gives `i`. |
| Text.DecimalInjective | app/faq.py:51 | Different numbers have different decimal renderings. |
| Sql.PassesSelectGate | app/sql.py:70 | The gate as written, `strip().upper().startswith('SELECT')`: a query that passes has at least six characters left after stripping. |
| Sql.SelectGateCharacterization | app/sql.py:70 | The model's gate, `strip().upper().startswith('SELECT')` with the model's upper-casing, holds exactly when the query is some blanks followed by SELECT in any letter case. Both directions are proved. |
| Sql.StripKeepsKeyword | app/sql.py:70 | When blanks are followed by six non-blank characters, `strip()` keeps those six characters at the front of its result. |
| Sql.SelectGateIgnoresPadding | app/sql.py:70 | Adding blanks before and after a query never changes whether it passes the gate. |
| Sql.SelectGateIgnoresCase | app/sql.py:70 | Two queries with the same upper-case form get the same verdict. |
| Sql.SelectAt | app/sql.py:70 | Blanks up to some index and then SELECT in any case is enough to pass the gate. |
| Sql.NotSelectAt | app/sql.py:70 | If the first non-blank character does not upper-case to `S`, the query is refused. |
| Sql.SelectGateAcceptsLowerCase | app/sql.py:70 | `"  select * from product"` passes. |
| Sql.SelectGateAcceptsMixedCase | app/sql.py:70 | `"SeLeCt *"` passes. |
| Sql.SelectGateAcceptsLongerWord | app/sql.py:70 | `"SELECTED"` passes, because the gate is a prefix test. |
| Sql.SelectGateRefusesDiaeresisT | app/sql.py:70 | The model's gate refuses `"selecẗ * from product"` (sixth letter U+1E97), which Python's gate admits. |
| Sql.SixthLetterNotT | app/sql.py:70 | The model's gate refuses a query that starts with a non-blank and whose sixth character does not upper-case to `T`. |
| Sql.SelectGateRefusesOthers | app/sql.py:70 | `"  DeLeTe FROM product"` and the empty query are refused. |
| Sql.RunQuery | app/sql.py:68-75 | `run_query` gives None exactly when the query is not a SELECT statement in the reference sense. It gives rows exactly when the query is one and the database read succeeds, and the rows are that read of the query exactly as given. It raises exactly when the query is one and the database rejects it, carrying the query and the database's message. |
| Sql.FirstMatchFrom | app/sql.py:83-84 | The search result is the reference leftmost match: the first position where `<SQL>` is later followed by `</SQL>`, ending at the first `</SQL>` after it. None means no position can match. |
| Sql.LeftmostMatchUnique | app/sql.py:83-84 | The reference match is unique, so it determines what the search reports. |
| Sql.BodyHasNoCloseTag | app/sql.py:83-84 | The text of a match never contains `</SQL>`. |
| Sql.FindAllFrom | app/sql.py:84 | `re.findall` from a position returns no match exactly when no position after it can match, and none of its results contains `</SQL>`. |
| Sql.FindAll | app/sql.py:84 | `re.findall` on the whole reply returns no match exactly when no position can match, and none of its results contains `</SQL>`. |
| Sql.FindAllFirst | app/sql.py:84-94 | `matches[0]` is the text between the tags of the reference leftmost match. |
| Sql.FirstMatchIgnoresLaterText | app/sql.py:91-94 | Appending any text after a reply that already has a match does not change the first match. |
| Sql.FirstBlockIgnoresLaterText | app/sql.py:84-94 | Appending any text after a reply that already has a match does not change `matches[0]`. |
| Sql.WrappedBlockExtracted | app/sql.py:83-84 | A query without `</` wrapped in the tags at the front of a reply is extracted unchanged, whatever follows. |
| Sql.MultiLineBlockExtracted | app/sql.py:83-84 | A block spanning several lines is extracted whole, because DOTALL lets `.` match line breaks. |
| Sql.AnswerFromReply | app/sql.py:83-105 | Once the model has replied, every database read is of a query that passes the gate, and the only other call is `data_comprehension` with the original question. The only exception is a rejected read of a query that passed the gate. |
| Sql.AnswerFromFirstBlock | app/sql.py:84-94 | With a match in the reply, what follows is `run_query` on the stripped text of the reference leftmost match. |
| Sql.AnswerFromQuery | app/sql.py:94-105 | A query that is not a SELECT statement gets the second apology with no call at all. A SELECT query is read exactly as given. If the read succeeds, its rows go to `data_comprehension` with the original question. If it fails, the chain raises with the query and the database's message. |
| Sql.SqlChain | app/sql.py:78-105 | `sql_chain` calls `generate_sql_query` first, with the question. Any database read that follows is of a SELECT statement, and `data_comprehension` gets the unchanged question. It raises only when the database rejects a query that passed the gate. |
| Sql.SqlChainWithoutBlock | app/sql.py:83-88 | If the reply has no `<SQL>` later followed by `</SQL>`, the answer is exactly the first apology. Neither the database nor `data_comprehension` is called. |
| Sql.SqlChainRefused | app/sql.py:91-98 | If the stripped first block fails the gate, the answer is exactly the second apology, and neither the database nor `data_comprehension` is called. |
| Sql.SqlChainAnswered | app/sql.py:91-105 | If the stripped first block passes the gate, exactly that text is read from the database. If the read succeeds, the answer is `data_comprehension` of the unchanged question and the rows. If the database rejects the query, `sql_chain` raises with that query and message. |
| Sql.EmptyBlockRefused | app/sql.py:91-98 | A reply starting with `<SQL></SQL>` gets the second apology, and the database is not read. |
| Sql.LaterBlocksIgnored | app/sql.py:91-94 | Tagged blocks after the first never influence the outcome. |
| Faq.EntryId | app/faq.py:51 | The id `f"id_{i}"` is `id_` followed by at least one character, all of them decimal digits. |
| Faq.EntryIdRoundTrip | app/faq.py:51 | Every generated id `id_i` reads back as `i`. |
| Faq.EntryIdInjective | app/faq.py:51 | Different indices give different ids. |
| Faq.Documents | app/faq.py:47-51 | One document per row, aligned by index. The row's question is the document text, its answer is the metadata, and its id is exactly `id_i`, which reads back to the index. |
| Faq.DocumentIdsDistinct | app/faq.py:51 | The ids of one ingestion are pairwise distinct. |
| Faq.Ingest | app/faq.py:32-61 | If `faqs` exists, the store is unchanged and the CSV is not read. Otherwise `faqs` is created first, then the rows are added. A failed read raises and leaves `faqs` empty. In every case no other collection changes, and `faqs` exists afterwards. |
| Faq.IngestIdempotent | app/faq.py:34-61 | A second ingestion, whatever it would read, leaves the store unchanged and raises nothing. |
| Faq.FailedReadLeavesEmptyCollection | app/faq.py:34-44 | After a first ingestion whose CSV read failed, later ingestions never fill `faqs`, even when the file can now be read. |
| Faq.StoreQuery | app/faq.py:70-73 | The store answers a request with at most `nResults` documents, the front of its similarity order. |
| Faq.GetRelevantQa | app/faq.py:65-74 | Retrieval fails exactly when `faqs` is missing. Otherwise it gives at most two documents: the first two of the ranking, or all of it when it is shorter. |
| Faq.JoinAnswers | app/faq.py:83 | The context's length is the sum of the answers' lengths. |
| Faq.JoinAnswersAppend | app/faq.py:83 | Joining the answers of two hit lists is the concatenation of the two joins. |
| Faq.JoinAnswersLayout | app/faq.py:83 | Answer `i` appears in the context right after the answers before it: in retrieval order, with no separator. |
| Faq.FaqChain | app/faq.py:78-87 | `faq_chain` fails exactly when `faqs` is missing. Otherwise it makes one store request for the query, then one `generate_answer` call with the original query. The reply is that call's result. |
| Faq.FaqChainContext | app/faq.py:80-86 | The context given to `generate_answer` is the answers of the first (at most two) ranked documents, concatenated. |
| App.Ask | app/main.py:18-40 | The router is consulted first. No result gives exactly "Sorry, I didn't understand that." An unknown route name gives ``Route `<name>` not implemented yet.``. `faq`, `sql` and `small-talk` give their handler's reply. `ask` raises exactly when `faq` finds no collection or `sql_chain` raises, and the exception is the handler's. |
| App.AskInvokesOneHandler | app/main.py:28-40 | Every call after the router's comes from the one handler the route names, and every call passes the query on unchanged. No handler runs for a fallback reply. |
| App.SqlRouteCalls | app/main.py:32-34 | A `sql` route that returns makes only router and SQL-chain calls, carrying the query unchanged. |
| App.FaqRouteCalls | app/main.py:29-31 | A `faq` route makes only router and FAQ-chain calls, carrying the query unchanged. |
| App.Turn | app/main.py:52-76 | The history is started empty only when absent, and earlier messages never change. Without input nothing is appended. With input, the user message is appended, then the assistant's reply only if `ask` returns. |
| App.Rerun | app/main.py:13-76 | One run ingests. If the ingestion raises, which happens exactly on the first run with an unreadable CSV, the history is left as it was. Otherwise, with input, the user message is appended, then `ask`'s reply if it returns. After ingestion, `ask` can raise only because the database rejected a query. |
| App.UnansweredTurn | app/main.py:67-70 | A user message left without an answer keeps every assistant message right after a user message, and adds the input to the user turns. |
| App.AnsweredTurn | app/main.py:67-76 | A user message and its answer keep every assistant message right after a user message and keep an alternating history alternating. The input is added to the user turns. |
| App.RerunTranscript | app/main.py:62-76 | One run keeps every assistant message right after a user message and records the input, if it reached the history, as the next user turn. It keeps an alternating history alternating when `ask` returns. |
| App.Session | app/main.py:13-76 | A sequence of script runs, one per chat input, sharing the vector store and the session state. After at least one run the `faqs` collection exists. |
| App.SessionKeepsHistory | app/main.py:13-76 | Over any sequence of runs, earlier messages never change. The store stays as the first ingestion left it. |
| App.RecordedInputsSplit | app/main.py:13-76 | The non-empty inputs a session records are those its first run records, followed by all the non-empty later inputs: only the first run's ingestion can raise. |
| App.SessionTranscript | app/main.py:62-76 | Over any sequence of runs, every assistant message directly follows a user message. The user messages are exactly the non-empty inputs that reached the history, in order: all of them, except the first when the first ingestion raised. |
| App.SessionAlternates | app/main.py:62-76 | When every `ask` of a session returns, the history keeps alternating user and assistant messages. |
| App.FailedReadLeavesQuestionUnanswered | app/main.py:67-70 | When the database rejects the query of a `sql` question, the next question follows it directly in the history, with no answer in between. |

## Left out

- `app/router.py` is not part of this model. Classification uses sentence
  embeddings and floating-point similarity inside a library. The router is
  the opaque `Env.router`. Fields of its result other than the route name are
  not modelled.
- `app/smalltalk.py` is a single model call with a fixed prompt, modelled as
  the opaque `Env.talk`. Errors from the hosted model are not modelled: the
  four model calls (`generate_sql_query`, `data_comprehension`,
  `generate_answer`, `talk`) are total.
- `web-scraping/csv_to_sqlite.py` is a one-time loading script and is not part
  of this model.
- Prompt texts and the content of model replies: `generate_sql_query`,
  `data_comprehension` and `generate_answer` are opaque functions.
- SQLite execution and the conversion from DataFrame to records: the database
  read is the opaque `SqlServices.readSql`. It returns records, or the
  message of the exception `pd.read_sql_query` raises.
- Chroma: embeddings and the similarity ranking are the opaque
  `FaqServices.rank`.
- Faq.StoreQuery: states that the store returns the first `nResults` of its
  ranking. The model assumes this store behaviour rather than proving it.
- Faq.Ingest: with an empty CSV, the vector store may reject an empty `add`.
  The model adds nothing and raises nothing. What reading the file gives is the
  `table` parameter: the rows, or the message of the exception `pd.read_csv`
  raises. The model does not distinguish the kinds of failure.
- `print` calls (`app/sql.py:91`, `app/faq.py:35`, `59`, `61`), `load_dotenv`,
  environment reads and all Streamlit rendering are output or configuration
  only.
- Text.UpperChar: case-folds only the ASCII letters and U+017F (long s, whose
  upper case is `S`). Other non-ASCII case mappings of `str.upper()` are not
  modelled.
- Text.Upper: keeps the length. Python's `str.upper()` can lengthen a
  text (`"ß".upper() == "SS"`); such multi-character case mappings are not
  modelled.
- Sql.SelectGateCharacterization: holds of the model's gate only. Python
  upper-cases U+1E97 (`ẗ`) to `T` followed by U+0308, so the program's gate
  also accepts a query whose sixth non-blank character is U+1E97, such as
  `"selecẗ * from product"`. The model refuses it (`SelectGateRefusesDiaeresisT`).
  On a reply carrying such a block the program reads the database, and
  SQLite rejects the query so `sql_chain` raises. The model instead gives the
  second apology without a read.
- Model replies are treated as deterministic. One `Env` is shared by every
  run of a `Session`, so the language model is a fixed function of its
  arguments, whereas the code samples it (temperature 0.2 in `app/sql.py:60`
  and `143`, the default temperature in `app/faq.py:104` and
  `app/smalltalk.py:15`). No property proved here depends on two replies
  being equal.
- Concurrency: runs within one browser session are sequential, and `Session`
  models them in order. Concurrent sessions sharing the module-level vector
  store client are not modelled.
