/** The boundary to the services the chatbot cannot see into: the language
    model, the SQLite database, the Chroma vector store and the intent router.
    Each pipeline returns its reply together with the calls it made across this
    boundary, so that "this service is not invoked" is a statement about the
    call list. */
module Services {

  /** One value of a result row of the `product` table. */
  datatype Cell = TextCell(text: string) | IntCell(integer: int) | RealCell(number: real) | NullCell

  /** One row of a query result, as `DataFrame.to_dict(orient='records')`
      renders it: column name to value. */
  type Record = map<string, Cell>

  /** A request to the vector store: collection name, query texts and the
      number of results wanted per text. */
  datatype StoreRequest = StoreRequest(collection: string, queryTexts: seq<string>, nResults: nat)

  /** A call across the service boundary, with the arguments it was given. */
  datatype Call =
    | Classify(utterance: string)                       // the semantic router
    | GenerateSql(question: string)                     // generate_sql_query
    | ReadSql(sql: string)                              // pd.read_sql_query on the database
    | Comprehend(question: string, data: seq<Record>)   // data_comprehension
    | QueryStore(request: StoreRequest)                 // collection.query
    | GenerateAnswer(question: string, context: string) // generate_answer
    | Talk(message: string)                             // smalltalk.talk

  /** The reply shown to the user, and the external calls made to produce it,
      in order. */
  datatype Outcome = Outcome(reply: string, calls: seq<Call>)

  /** An exception that escapes a pipeline; nothing in the app catches one.
      `get_collection` on a missing collection, `pd.read_sql_query` on a query
      the database rejects, and `pd.read_csv` on a file it cannot read. */
  datatype Fault =
    | CollectionMissing(name: string)
    | QueryFailed(sql: string, message: string)
    | CsvUnreadable(message: string)
}
