/** The FAQ pipeline of `app/faq.py`: question/answer rows are ingested once
    into a named collection of the vector store, and a user question is
    answered by the language model from the answers of the two stored
    questions most similar to it. The similarity ranking and the model are
    opaque functions supplied in `FaqServices`. */
module Faq {
  import opened Wrappers
  import opened Text
  import opened Services

  const FaqCollection := "faqs"
  const ResultsPerQuery := 2
  const IdPrefix := "id_"

  /** One row of the FAQ table: its `question` and `answer` columns. */
  datatype FaqRow = FaqRow(question: string, answer: string)

  /** One stored document: its id, the embedded question text, and the answer
      kept as its metadata. */
  datatype Entry = Entry(id: string, document: string, answer: string)

  /** The vector store: collection name to the documents it holds, in
      insertion order. */
  type Store = map<string, seq<Entry>>

  /** `rank(text, docs)`: the store's similarity order of `docs` for `text`,
      closest first; `generateAnswer(question, context)`: `generate_answer`. */
  datatype FaqServices = FaqServices(
    rank: (string, seq<Entry>) -> seq<Entry>,
    generateAnswer: (string, string) -> string)

  // ---------------------------------------------------------------------------
  // Document ids

  /** `f"id_{i}"` */
  function EntryId(i: nat): (id: string)
    ensures |IdPrefix| < |id| && id[..|IdPrefix|] == IdPrefix
    ensures forall k :: |IdPrefix| <= k < |id| ==> IsDigit(id[k])
  {
    IdPrefix + Decimal(i)
  }

  /** Reads an id of the form `id_<decimal>` back into its index. */
  function ParseEntryId(id: string): Option<nat> {
    if StartsWith(id, IdPrefix) && forall k :: |IdPrefix| <= k < |id| ==> IsDigit(id[k]) then
      Some(ParseDecimal(id[|IdPrefix|..]))
    else
      None
  }

  /** Every generated id reads back as the index it was made from. */
  lemma EntryIdRoundTrip(i: nat)
    ensures ParseEntryId(EntryId(i)) == Some(i)
  {
    var id := EntryId(i);
    assert id[..|IdPrefix|] == IdPrefix;
    assert id[|IdPrefix|..] == Decimal(i);
    ParseDecimalOfDecimal(i);
  }

  /** Distinct indices give distinct ids. */
  lemma EntryIdInjective(i: nat, j: nat)
    requires EntryId(i) == EntryId(j)
    ensures i == j
  {
    EntryIdRoundTrip(i);
    EntryIdRoundTrip(j);
  }

  // ---------------------------------------------------------------------------
  // ingest_faq_data

  /** The documents one ingestion adds: row `i` becomes document `id_i` whose
      text is the question and whose metadata is the answer. */
  function Documents(table: seq<FaqRow>): (docs: seq<Entry>)
    ensures |docs| == |table|
    ensures forall i :: 0 <= i < |docs| ==> docs[i].document == table[i].question
    ensures forall i :: 0 <= i < |docs| ==> docs[i].answer == table[i].answer
    ensures forall i :: 0 <= i < |docs| ==> docs[i].id == EntryId(i) && ParseEntryId(docs[i].id) == Some(i)
  {
    forall i: nat | i < |table| ensures ParseEntryId(EntryId(i)) == Some(i) {
      EntryIdRoundTrip(i);
    }
    seq(|table|, i requires 0 <= i < |table| => Entry(EntryId(i), table[i].question, table[i].answer))
  }

  /** No two ingested documents share an id. */
  lemma DocumentIdsDistinct(table: seq<FaqRow>)
    ensures forall i, j :: 0 <= i < j < |table| ==> Documents(table)[i].id != Documents(table)[j].id
  {
    var docs := Documents(table);
    forall i, j | 0 <= i < j < |table|
      ensures docs[i].id != docs[j].id
    {
      assert ParseEntryId(docs[i].id) != ParseEntryId(docs[j].id);
    }
  }

  /** The store after `ingest_faq_data`, and the exception it raised, if any. */
  datatype Ingested = Ingested(store: Store, raised: Option<Fault>)

  /** `ingest_faq_data`: when no collection is named `faqs`, create it, then
      read the rows and add one document per row; otherwise leave the store
      alone without reading the rows. The collection is created before the
      read, so a read that raises leaves `faqs` behind, empty. */
  function Ingest(store: Store, table: Result<seq<FaqRow>, string>): (after: Ingested)
    ensures FaqCollection in store ==> after == Ingested(store, None)
    ensures after.store.Keys == store.Keys + {FaqCollection}
    ensures forall name :: name in store ==> after.store[name] == store[name]
    ensures FaqCollection !in store && table.Success? ==>
      after.raised == None && after.store[FaqCollection] == Documents(table.value)
    ensures FaqCollection !in store && table.Failure? ==>
      after.raised == Some(CsvUnreadable(table.error)) && after.store[FaqCollection] == []
  {
    if FaqCollection in store then Ingested(store, None)
    else
      var created := store[FaqCollection := []];
      match table
      case Failure(message) => Ingested(created, Some(CsvUnreadable(message)))
      case Success(rows) => Ingested(created[FaqCollection := Documents(rows)], None)
  }

  /** A second ingestion is a no-op, whatever it would read: the check is by
      collection name only. */
  lemma IngestIdempotent(store: Store, table: Result<seq<FaqRow>, string>, later: Result<seq<FaqRow>, string>)
    ensures var first := Ingest(store, table).store;
      Ingest(first, later) == Ingested(first, None)
  {
  }

  /** A failed read is never repaired: the empty `faqs` it leaves makes every
      later ingestion skip, even when the rows could now be read. */
  lemma FailedReadLeavesEmptyCollection(store: Store, message: string, later: Result<seq<FaqRow>, string>)
    requires FaqCollection !in store
    ensures Ingest(Ingest(store, Failure(message)).store, later).store[FaqCollection] == []
  {
    IngestIdempotent(store, Failure(message), later);
  }

  // ---------------------------------------------------------------------------
  // get_relevant_qa and faq_chain

  /** The request `get_relevant_qa` sends: the single query text, two results. */
  function RelevantRequest(query: string): StoreRequest {
    StoreRequest(FaqCollection, [query], ResultsPerQuery)
  }

  /** The store's answer to a request with one query text: the first
      `nResults` documents of its similarity order. */
  function StoreQuery(docs: seq<Entry>, request: StoreRequest, rank: (string, seq<Entry>) -> seq<Entry>): (hits: seq<Entry>)
    requires |request.queryTexts| == 1
    ensures |hits| <= request.nResults
    ensures |hits| <= |rank(request.queryTexts[0], docs)|
    ensures hits == rank(request.queryTexts[0], docs)[..|hits|]
    ensures |hits| < request.nResults ==> hits == rank(request.queryTexts[0], docs)
  {
    var ranked := rank(request.queryTexts[0], docs);
    if |ranked| <= request.nResults then ranked else ranked[..request.nResults]
  }

  /** `get_relevant_qa`: the documents closest to the query, at most two;
      a missing collection raises. */
  function GetRelevantQa(store: Store, query: string, rank: (string, seq<Entry>) -> seq<Entry>): (r: Result<seq<Entry>, Fault>)
    ensures r.Failure? <==> FaqCollection !in store
    ensures r.Failure? ==> r.error == CollectionMissing(FaqCollection)
    ensures r.Success? ==> |r.value| <= ResultsPerQuery
    ensures r.Success? ==> |r.value| <= |rank(query, store[FaqCollection])|
    ensures r.Success? ==> r.value == rank(query, store[FaqCollection])[..|r.value|]
    ensures r.Success? && |r.value| < ResultsPerQuery ==> r.value == rank(query, store[FaqCollection])
  {
    if FaqCollection !in store then Failure(CollectionMissing(FaqCollection))
    else Success(StoreQuery(store[FaqCollection], RelevantRequest(query), rank))
  }

  /** Total length of the answers of `hits`. */
  function AnswerLengths(hits: seq<Entry>): nat {
    if |hits| == 0 then 0 else |hits[0].answer| + AnswerLengths(hits[1..])
  }

  /** `''.join(r.get('answer') for r in hits)`: the answers in retrieval
      order, with no separator and no deduplication. */
  function JoinAnswers(hits: seq<Entry>): (context: string)
    ensures |context| == AnswerLengths(hits)
  {
    if |hits| == 0 then "" else hits[0].answer + JoinAnswers(hits[1..])
  }

  /** Joining distributes over concatenation of the hit list. */
  lemma {:induction false} JoinAnswersAppend(a: seq<Entry>, b: seq<Entry>)
    ensures JoinAnswers(a + b) == JoinAnswers(a) + JoinAnswers(b)
  {
    if |a| == 0 {
      assert a + b == b;
    } else {
      assert (a + b)[1..] == a[1..] + b;
      JoinAnswersAppend(a[1..], b);
    }
  }

  /** Answer `i` sits in the context right after the answers before it. */
  lemma JoinAnswersLayout(hits: seq<Entry>, i: nat)
    requires i < |hits|
    ensures var start := AnswerLengths(hits[..i]);
      start + |hits[i].answer| <= |JoinAnswers(hits)| &&
      JoinAnswers(hits)[start..start + |hits[i].answer|] == hits[i].answer
  {
    assert hits == hits[..i] + ([hits[i]] + hits[i + 1..]);
    JoinAnswersAppend(hits[..i], [hits[i]] + hits[i + 1..]);
    JoinAnswersAppend([hits[i]], hits[i + 1..]);
    assert JoinAnswers([hits[i]]) == hits[i].answer by {
      assert [hits[i]][1..] == [];
    }
  }

  /** `faq_chain`: retrieve, join the answers, and ask the model with the
      original query and exactly that context. */
  function FaqChain(query: string, store: Store, svc: FaqServices): (r: Result<Outcome, Fault>)
    ensures r.Failure? <==> FaqCollection !in store
    ensures r.Success? ==> |r.value.calls| == 2
    ensures r.Success? ==> r.value.calls[0] == QueryStore(RelevantRequest(query))
    ensures r.Success? ==>
      && r.value.calls[1].GenerateAnswer?
      && r.value.calls[1].question == query
      && r.value.reply == svc.generateAnswer(query, r.value.calls[1].context)
  {
    match GetRelevantQa(store, query, svc.rank)
    case Failure(e) => Failure(e)
    case Success(hits) =>
      var context := JoinAnswers(hits);
      Success(Outcome(svc.generateAnswer(query, context), [QueryStore(RelevantRequest(query)), GenerateAnswer(query, context)]))
  }

  /** The context handed to the model is the answers of the first (at most
      two) ranked documents, concatenated in rank order. */
  lemma FaqChainContext(query: string, store: Store, svc: FaqServices)
    requires FaqCollection in store
    ensures var ranked := svc.rank(query, store[FaqCollection]);
      var n := if |ranked| < ResultsPerQuery then |ranked| else ResultsPerQuery;
      FaqChain(query, store, svc).value.calls[1].context == JoinAnswers(ranked[..n])
  {
    var ranked := svc.rank(query, store[FaqCollection]);
    var hits := GetRelevantQa(store, query, svc.rank).value;
    assert hits == ranked[..|hits|];
  }
}
