/** The entry point of `app/main.py`: `ask` sends a query to the handler of
    the route the semantic router picks, and each run of the chat script
    ingests the FAQ data (a no-op after the first time) and appends the user
    message and the reply to the session's chat history. The router, the
    small-talk model and the page rendering are outside the model; the router
    and `talk` are opaque functions supplied in `Env`. */
module App {
  import opened Wrappers
  import opened Services
  import Sql
  import Faq

  const NotUnderstoodReply := "Sorry, I didn't understand that."

  /** What the router reports for a query it classified; the name is absent
      when no route passed its threshold. */
  datatype RouteChoice = RouteChoice(name: Option<string>)

  datatype Handler = FaqHandler | SqlHandler | SmallTalkHandler

  /** `router(query)`: None or a choice; `talk(query)`: the small-talk reply. */
  datatype Env = Env(
    router: string -> Option<RouteChoice>,
    sql: Sql.SqlServices,
    faq: Faq.FaqServices,
    talk: string -> string)

  /** How an f-string renders the route name: `None` when it is absent. */
  function RouteText(name: Option<string>): string {
    match name
    case Some(n) => n
    case None => "None"
  }

  /** ``f"Route `{route}` not implemented yet."`` */
  function NotImplementedReply(name: Option<string>): string {
    "Route `" + RouteText(name) + "` not implemented yet."
  }

  /** The handler `ask` chooses for a route name, if any. */
  function HandlerFor(name: Option<string>): Option<Handler> {
    if name == Some("faq") then Some(FaqHandler)
    else if name == Some("sql") then Some(SqlHandler)
    else if name == Some("small-talk") then Some(SmallTalkHandler)
    else None
  }

  /** The handler an external call is made from; None for the router. */
  function HandlerOfCall(c: Call): Option<Handler> {
    match c
    case Classify(_) => None
    case GenerateSql(_) => Some(SqlHandler)
    case ReadSql(_) => Some(SqlHandler)
    case Comprehend(_, _) => Some(SqlHandler)
    case QueryStore(_) => Some(FaqHandler)
    case GenerateAnswer(_, _) => Some(FaqHandler)
    case Talk(_) => Some(SmallTalkHandler)
  }

  /** The call hands on the user's query unchanged wherever it carries it. */
  predicate PassesQueryOn(c: Call, query: string) {
    match c
    case Classify(u) => u == query
    case GenerateSql(q) => q == query
    case ReadSql(_) => true
    case Comprehend(q, _) => q == query
    case QueryStore(request) => request.queryTexts == [query]
    case GenerateAnswer(q, _) => q == query
    case Talk(m) => m == query
  }

  function WithClassify(query: string, o: Outcome): Outcome {
    Outcome(o.reply, [Classify(query)] + o.calls)
  }

  /** The router picked a route whose name `ask` dispatches to `h`. */
  predicate RoutesTo(query: string, env: Env, h: Handler) {
    env.router(query).Some? && HandlerFor(env.router(query).value.name) == Some(h)
  }

  /** `ask(query)`: the router is consulted once; then exactly the handler the
      route names runs, or a fixed reply is given. `ask` raises only when its
      handler does: the FAQ handler on a missing collection, the SQL handler
      on a query the database rejects. */
  function Ask(query: string, store: Faq.Store, env: Env): (r: Result<Outcome, Fault>)
    ensures r.Success? ==> |r.value.calls| >= 1 && r.value.calls[0] == Classify(query)
    ensures r.Failure? <==>
      || (RoutesTo(query, env, FaqHandler) && Faq.FaqCollection !in store)
      || (RoutesTo(query, env, SqlHandler) && Sql.SqlChain(query, env.sql).Failure?)
    ensures r.Failure? ==>
      || r.error == CollectionMissing(Faq.FaqCollection)
      || (r.error.QueryFailed? && Sql.IsSelectStatement(r.error.sql) && env.sql.readSql(r.error.sql).Failure?)
    ensures env.router(query).None? ==> r == Success(Outcome(NotUnderstoodReply, [Classify(query)]))
    ensures env.router(query).Some? && HandlerFor(env.router(query).value.name).None? ==>
      r == Success(Outcome(NotImplementedReply(env.router(query).value.name), [Classify(query)]))
    ensures RoutesTo(query, env, SqlHandler) && Sql.SqlChain(query, env.sql).Success? ==>
      r.Success? && r.value.reply == Sql.SqlChain(query, env.sql).value.reply
    ensures RoutesTo(query, env, SqlHandler) && Sql.SqlChain(query, env.sql).Failure? ==>
      r == Failure(Sql.SqlChain(query, env.sql).error)
    ensures RoutesTo(query, env, SmallTalkHandler) ==>
      r.Success? && r.value.reply == env.talk(query)
    ensures RoutesTo(query, env, FaqHandler) && Faq.FaqCollection in store ==>
      r.Success? && r.value.reply == Faq.FaqChain(query, store, env.faq).value.reply
    ensures RoutesTo(query, env, FaqHandler) && Faq.FaqCollection !in store ==>
      r == Failure(CollectionMissing(Faq.FaqCollection))
  {
    match env.router(query)
    case None => Success(Outcome(NotUnderstoodReply, [Classify(query)]))
    case Some(choice) =>
      if choice.name == Some("faq") then
        match Faq.FaqChain(query, store, env.faq)
        case Failure(e) => Failure(e)
        case Success(o) => Success(WithClassify(query, o))
      else if choice.name == Some("sql") then
        match Sql.SqlChain(query, env.sql)
        case Failure(e) => Failure(e)
        case Success(o) => Success(WithClassify(query, o))
      else if choice.name == Some("small-talk") then
        Success(Outcome(env.talk(query), [Classify(query), Talk(query)]))
      else
        Success(Outcome(NotImplementedReply(choice.name), [Classify(query)]))
  }

  /** The calls of a run routed to one handler: the router, then only calls
      of that handler, each handing the query on unchanged. */
  ghost predicate RoutedCalls(calls: seq<Call>, query: string, h: Handler) {
    && |calls| >= 1 && calls[0] == Classify(query)
    && (forall i :: 0 <= i < |calls| ==> PassesQueryOn(calls[i], query))
    && (forall i :: 1 <= i < |calls| ==> HandlerOfCall(calls[i]) == Some(h))
  }

  lemma SqlCallsRouted(query: string, o: Outcome)
    requires 1 <= |o.calls| && o.calls[0] == GenerateSql(query)
    requires Sql.GatedCalls(o.calls[1..], query)
    ensures RoutedCalls(WithClassify(query, o).calls, query, SqlHandler)
  {
    var calls := WithClassify(query, o).calls;
    forall i | 1 <= i < |calls|
      ensures PassesQueryOn(calls[i], query) && HandlerOfCall(calls[i]) == Some(SqlHandler)
    {
      assert calls[i] == o.calls[i - 1];
      if i >= 2 {
        assert o.calls[i - 1] == o.calls[1..][i - 2];
      }
    }
  }

  lemma SqlRouteCalls(query: string, env: Env)
    requires Sql.SqlChain(query, env.sql).Success?
    ensures RoutedCalls(WithClassify(query, Sql.SqlChain(query, env.sql).value).calls, query, SqlHandler)
  {
    SqlCallsRouted(query, Sql.SqlChain(query, env.sql).value);
  }

  lemma FaqRouteCalls(query: string, store: Faq.Store, env: Env)
    requires Faq.FaqCollection in store
    ensures RoutedCalls(WithClassify(query, Faq.FaqChain(query, store, env.faq).value).calls, query, FaqHandler)
  {
    var o := Faq.FaqChain(query, store, env.faq).value;
    var calls := WithClassify(query, o).calls;
    assert calls == [Classify(query), o.calls[0], o.calls[1]];
  }

  /** Every call `ask` makes after consulting the router comes from the one
      handler the route names, and every call hands the query on unchanged:
      at most one handler runs, and it sees the query as typed. */
  lemma AskInvokesOneHandler(query: string, store: Faq.Store, env: Env)
    ensures var r := Ask(query, store, env);
      r.Success? && env.router(query).Some? && HandlerFor(env.router(query).value.name).Some? ==>
        RoutedCalls(r.value.calls, query, HandlerFor(env.router(query).value.name).value)
    ensures var r := Ask(query, store, env);
      r.Success? && (env.router(query).None? || HandlerFor(env.router(query).value.name).None?) ==>
        r.value.calls == [Classify(query)]
  {
    if env.router(query).Some? {
      var name := env.router(query).value.name;
      if name == Some("faq") {
        if Faq.FaqCollection in store {
          FaqRouteCalls(query, store, env);
        }
      } else if name == Some("sql") {
        if Sql.SqlChain(query, env.sql).Success? {
          SqlRouteCalls(query, env);
        }
      }
    }
  }

  // ---------------------------------------------------------------------------
  // The chat history kept in the session state

  datatype Role = User | Assistant

  datatype Message = Message(role: Role, content: string)

  /** `st.session_state["messages"]`, started empty only when absent. */
  function StoredHistory(messages: Option<seq<Message>>): seq<Message> {
    match messages
    case Some(h) => h
    case None => []
  }

  /** `if query:`: the chat input holds a non-empty string. */
  predicate HasInput(input: Option<string>) {
    input.Some? && input.value != ""
  }

  /** One run of the chat script after ingestion: with input, the user
      message is appended, then, if `ask` returns, the assistant message. When
      `ask` raises, the run ends with the user message unanswered. */
  function Turn(messages: Option<seq<Message>>, input: Option<string>, store: Faq.Store, env: Env): (h: seq<Message>)
    ensures var prior := StoredHistory(messages);
      |prior| <= |h| && h[..|prior|] == prior
    ensures !HasInput(input) ==> h == StoredHistory(messages)
    ensures HasInput(input) ==>
      var prior := StoredHistory(messages);
      && |h| > |prior|
      && h[|prior|] == Message(User, input.value)
      && (Ask(input.value, store, env).Failure? ==> |h| == |prior| + 1)
      && (Ask(input.value, store, env).Success? ==>
            |h| == |prior| + 2 && h[|prior| + 1] == Message(Assistant, Ask(input.value, store, env).value.reply))
  {
    var prior := StoredHistory(messages);
    if !HasInput(input) then prior
    else
      var withUser := prior + [Message(User, input.value)];
      match Ask(input.value, store, env)
      case Failure(_) => withUser
      case Success(o) => withUser + [Message(Assistant, o.reply)]
  }

  /** What survives between runs of the script: the vector store and the
      session state. */
  datatype AppState = AppState(store: Faq.Store, messages: Option<seq<Message>>)

  /** One run of `app/main.py`: ingest the FAQ rows (`table` is what reading
      the CSV file gives), make sure a history exists, and process the chat
      input. An exception from the ingestion ends the run before the history
      is touched. */
  function Rerun(state: AppState, input: Option<string>, table: Result<seq<Faq.FaqRow>, string>, env: Env): (next: AppState)
    ensures next.store == Faq.Ingest(state.store, table).store && Faq.FaqCollection in next.store
    ensures Faq.Ingest(state.store, table).raised.Some? <==> Faq.FaqCollection !in state.store && table.Failure?
    ensures Faq.Ingest(state.store, table).raised.Some? ==> next.messages == state.messages
    ensures Faq.Ingest(state.store, table).raised.None? ==>
      var prior := StoredHistory(state.messages);
      && next.messages.Some?
      && |prior| <= |next.messages.value|
      && next.messages.value[..|prior|] == prior
      && (!HasInput(input) ==> next.messages.value == prior)
    ensures Faq.Ingest(state.store, table).raised.None? && HasInput(input) ==>
      var prior := StoredHistory(state.messages);
      var ask := Ask(input.value, next.store, env);
      && next.messages.Some?
      && |next.messages.value| == |prior| + (if ask.Success? then 2 else 1)
      && next.messages.value[|prior|] == Message(User, input.value)
      && (ask.Success? ==> next.messages.value[|prior| + 1] == Message(Assistant, ask.value.reply))
      && (ask.Failure? ==> ask.error.QueryFailed? && env.sql.readSql(ask.error.sql).Failure?)
  {
    var ingested := Faq.Ingest(state.store, table);
    if ingested.raised.Some? then AppState(ingested.store, state.messages)
    else AppState(ingested.store, Some(Turn(state.messages, input, ingested.store, env)))
  }

  /** A sequence of runs, one per chat input. */
  function Session(state: AppState, inputs: seq<Option<string>>, table: Result<seq<Faq.FaqRow>, string>, env: Env): (final: AppState)
    ensures |inputs| > 0 ==> Faq.FaqCollection in final.store
    decreases |inputs|
  {
    if |inputs| == 0 then state
    else Session(Rerun(state, inputs[0], table, env), inputs[1..], table, env)
  }

  /** The history alternates user and assistant messages, starting with the
      user. */
  ghost predicate Alternates(h: seq<Message>) {
    |h| % 2 == 0 && forall i :: 0 <= i < |h| ==> h[i].role == (if i % 2 == 0 then User else Assistant)
  }

  /** Every assistant message answers the user message right before it. */
  ghost predicate AnswersFollowQuestions(h: seq<Message>) {
    forall i :: 0 <= i < |h| && h[i].role == Assistant ==> 0 < i && h[i - 1].role == User
  }

  /** The contents of the user messages, in order. */
  function UserTurns(h: seq<Message>): seq<string> {
    if |h| == 0 then []
    else (if h[0].role == User then [h[0].content] else []) + UserTurns(h[1..])
  }

  /** The non-empty chat inputs, in order. */
  function NonEmptyInputs(inputs: seq<Option<string>>): seq<string> {
    if |inputs| == 0 then []
    else (if HasInput(inputs[0]) then [inputs[0].value] else []) + NonEmptyInputs(inputs[1..])
  }

  /** The inputs of a session that reach the history: all of them, except the
      first when the first ingestion raises. */
  function RecordedInputs(state: AppState, inputs: seq<Option<string>>, table: Result<seq<Faq.FaqRow>, string>): seq<Option<string>> {
    if |inputs| > 0 && Faq.FaqCollection !in state.store && table.Failure? then inputs[1..] else inputs
  }

  lemma {:induction false} UserTurnsAppend(a: seq<Message>, b: seq<Message>)
    ensures UserTurns(a + b) == UserTurns(a) + UserTurns(b)
  {
    if |a| == 0 {
      assert a + b == b;
    } else {
      assert (a + b)[1..] == a[1..] + b;
      UserTurnsAppend(a[1..], b);
    }
  }

  lemma NonEmptyInputsCons(inputs: seq<Option<string>>)
    requires |inputs| > 0
    ensures NonEmptyInputs(inputs) == NonEmptyInputs([inputs[0]]) + NonEmptyInputs(inputs[1..])
  {
    var head := if HasInput(inputs[0]) then [inputs[0].value] else [];
    assert NonEmptyInputs(inputs) == head + NonEmptyInputs(inputs[1..]);
    assert NonEmptyInputs([inputs[0]]) == head + NonEmptyInputs([]) by {
      assert [inputs[0]][0] == inputs[0];
      assert [inputs[0]][1..] == [];
    }
    assert head + [] == head;
  }

  /** One run keeps every assistant message right after a user message and
      records the input, if any, as the next user turn; it keeps the history
      alternating when `ask` returns. */
  lemma RerunTranscript(state: AppState, input: Option<string>, table: Result<seq<Faq.FaqRow>, string>, env: Env)
    requires AnswersFollowQuestions(StoredHistory(state.messages))
    ensures var next := Rerun(state, input, table, env);
      var h := StoredHistory(next.messages);
      && AnswersFollowQuestions(h)
      && UserTurns(h) == UserTurns(StoredHistory(state.messages)) + NonEmptyInputs(RecordedInputs(state, [input], table))
      && ((Alternates(StoredHistory(state.messages)) &&
           (HasInput(input) ==> Ask(input.value, next.store, env).Success?)) ==> Alternates(h))
  {
    var next := Rerun(state, input, table, env);
    var prior := StoredHistory(state.messages);
    var h := StoredHistory(next.messages);
    assert NonEmptyInputs([input]) == (if HasInput(input) then [input.value] else []) + NonEmptyInputs([]);
    if Faq.Ingest(state.store, table).raised.Some? {
      assert RecordedInputs(state, [input], table) == [];
    } else if HasInput(input) {
      var ask := Ask(input.value, next.store, env);
      var asked := prior + [Message(User, input.value)];
      assert h == Turn(state.messages, input, next.store, env);
      if ask.Success? {
        AnsweredTurn(prior, input.value, ask.value.reply);
        assert h == asked + [Message(Assistant, ask.value.reply)];
        assert asked + [Message(Assistant, ask.value.reply)]
          == prior + [Message(User, input.value), Message(Assistant, ask.value.reply)];
      } else {
        UnansweredTurn(prior, input.value);
        assert h == asked;
      }
    } else {
      assert h == prior;
    }
  }

  /** Appending a question that gets no answer. */
  lemma UnansweredTurn(prior: seq<Message>, question: string)
    ensures var h := prior + [Message(User, question)];
      && (AnswersFollowQuestions(prior) ==> AnswersFollowQuestions(h))
      && UserTurns(h) == UserTurns(prior) + [question]
  {
    UserTurnsAppend(prior, [Message(User, question)]);
    assert UserTurns([Message(User, question)]) == [question] + UserTurns([]);
  }

  /** Appending a question and its answer. */
  lemma AnsweredTurn(prior: seq<Message>, question: string, answer: string)
    ensures var h := prior + [Message(User, question), Message(Assistant, answer)];
      && (AnswersFollowQuestions(prior) ==> AnswersFollowQuestions(h))
      && UserTurns(h) == UserTurns(prior) + [question]
      && (Alternates(prior) ==> Alternates(h))
  {
    var added := [Message(User, question), Message(Assistant, answer)];
    var h := prior + added;
    UserTurnsAppend(prior, added);
    assert added[1..] == [Message(Assistant, answer)];
    assert UserTurns(added) == [question] + UserTurns([Message(Assistant, answer)]);
    assert UserTurns([Message(Assistant, answer)]) == [] + UserTurns([]);
    forall i | 0 <= i < |prior|
      ensures h[i] == prior[i]
    {
    }
  }

  /** Over a whole session earlier messages never change, and from the first
      run on the store is the one the first ingestion produced. */
  lemma {:induction false} SessionKeepsHistory(state: AppState, inputs: seq<Option<string>>, table: Result<seq<Faq.FaqRow>, string>, env: Env)
    decreases |inputs|
    ensures var final := Session(state, inputs, table, env);
      var prior := StoredHistory(state.messages);
      && |prior| <= |StoredHistory(final.messages)|
      && StoredHistory(final.messages)[..|prior|] == prior
      && (|inputs| > 0 ==> final.store == Faq.Ingest(state.store, table).store)
  {
    if |inputs| > 0 {
      var next := Rerun(state, inputs[0], table, env);
      var final := Session(next, inputs[1..], table, env);
      assert Session(state, inputs, table, env) == final;
      var prior, mid, last := StoredHistory(state.messages), StoredHistory(next.messages), StoredHistory(final.messages);
      SessionKeepsHistory(next, inputs[1..], table, env);
      assert last[..|prior|] == mid[..|prior|] == prior;
      if |inputs| > 1 {
        Faq.IngestIdempotent(state.store, table, table);
      }
    }
  }

  /** Over a whole session every assistant message answers the user message
      right before it, and the user turns are exactly the non-empty inputs
      that reached the history, in order. */
  lemma {:induction false} SessionTranscript(state: AppState, inputs: seq<Option<string>>, table: Result<seq<Faq.FaqRow>, string>, env: Env)
    requires AnswersFollowQuestions(StoredHistory(state.messages))
    decreases |inputs|
    ensures var last := StoredHistory(Session(state, inputs, table, env).messages);
      && AnswersFollowQuestions(last)
      && UserTurns(last) == UserTurns(StoredHistory(state.messages)) + NonEmptyInputs(RecordedInputs(state, inputs, table))
  {
    if |inputs| > 0 {
      var next := Rerun(state, inputs[0], table, env);
      assert Session(state, inputs, table, env) == Session(next, inputs[1..], table, env);
      RerunTranscript(state, inputs[0], table, env);
      SessionTranscript(next, inputs[1..], table, env);
      assert RecordedInputs(next, inputs[1..], table) == inputs[1..];
      RecordedInputsSplit(state, inputs, table);
      TurnsCompose(UserTurns(StoredHistory(state.messages)), UserTurns(StoredHistory(next.messages)),
        UserTurns(StoredHistory(Session(next, inputs[1..], table, env).messages)),
        NonEmptyInputs(RecordedInputs(state, [inputs[0]], table)), NonEmptyInputs(inputs[1..]));
    }
  }

  /** Turns recorded over two stretches of a session add up. */
  lemma TurnsCompose(first: seq<string>, mid: seq<string>, last: seq<string>, a: seq<string>, b: seq<string>)
    requires mid == first + a && last == mid + b
    ensures last == first + (a + b)
  {
  }

  /** The inputs a session records are those its first run records, followed
      by all the later ones. */
  lemma RecordedInputsSplit(state: AppState, inputs: seq<Option<string>>, table: Result<seq<Faq.FaqRow>, string>)
    requires |inputs| > 0
    ensures NonEmptyInputs(RecordedInputs(state, inputs, table))
      == NonEmptyInputs(RecordedInputs(state, [inputs[0]], table)) + NonEmptyInputs(inputs[1..])
  {
    if Faq.FaqCollection !in state.store && table.Failure? {
      assert RecordedInputs(state, [inputs[0]], table) == [];
    } else {
      assert RecordedInputs(state, [inputs[0]], table) == [inputs[0]];
      NonEmptyInputsCons(inputs);
    }
  }

  /** When every `ask` of a session returns, the history keeps alternating
      user and assistant messages. */
  lemma {:induction false} SessionAlternates(state: AppState, inputs: seq<Option<string>>, table: Result<seq<Faq.FaqRow>, string>, env: Env)
    requires Alternates(StoredHistory(state.messages))
    requires forall k :: 0 <= k < |inputs| && HasInput(inputs[k]) ==>
      Ask(inputs[k].value, Faq.Ingest(state.store, table).store, env).Success?
    decreases |inputs|
    ensures Alternates(StoredHistory(Session(state, inputs, table, env).messages))
  {
    if |inputs| > 0 {
      var next := Rerun(state, inputs[0], table, env);
      assert Session(state, inputs, table, env) == Session(next, inputs[1..], table, env);
      AlternatesAnswered(StoredHistory(state.messages));
      RerunTranscript(state, inputs[0], table, env);
      Faq.IngestIdempotent(state.store, table, table);
      assert Faq.Ingest(next.store, table).store == next.store;
      forall k | 0 <= k < |inputs[1..]| && HasInput(inputs[1..][k])
        ensures Ask(inputs[1..][k].value, Faq.Ingest(next.store, table).store, env).Success?
      {
        assert inputs[1..][k] == inputs[k + 1];
      }
      SessionAlternates(next, inputs[1..], table, env);
    }
  }

  lemma AlternatesAnswered(h: seq<Message>)
    requires Alternates(h)
    ensures AnswersFollowQuestions(h)
  {
  }

  /** When the database rejects the query of a `sql` question, the question
      stays unanswered and the next question follows it directly: the history
      stops alternating. */
  lemma FailedReadLeavesQuestionUnanswered(state: AppState, first: string, second: string,
                                           table: Result<seq<Faq.FaqRow>, string>, env: Env)
    requires Faq.FaqCollection in state.store
    requires first != "" && second != ""
    requires RoutesTo(first, env, SqlHandler) && Sql.SqlChain(first, env.sql).Failure?
    ensures var h := StoredHistory(Session(state, [Some(first), Some(second)], table, env).messages);
      var n := |StoredHistory(state.messages)|;
      |h| >= n + 2 && h[n] == Message(User, first) && h[n + 1] == Message(User, second)
  {
    var next := Rerun(state, Some(first), table, env);
    var final := Rerun(next, Some(second), table, env);
    assert [Some(first), Some(second)][1..] == [Some(second)];
    assert Session(state, [Some(first), Some(second)], table, env) == Session(next, [Some(second)], table, env);
    assert Session(next, [Some(second)], table, env) == Session(final, [], table, env) == final;
  }
}
