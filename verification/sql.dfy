/** The SQL pipeline of `app/sql.py`: the language model is asked for a query
    wrapped in `<SQL>` tags, the first tagged block is cut out of its reply,
    the block must pass a read-only "starts with SELECT" gate, the database is
    read, and the model summarises the rows. The model and the database are
    opaque functions supplied in `SqlServices`. */
module Sql {
  import opened Wrappers
  import opened Text
  import opened Services

  const OpenTag := "<SQL>"
  const CloseTag := "</SQL>"
  const SelectKeyword := "SELECT"

  const NoQueryReply := "Sorry, LLM is not able to generate a query for your question"
  const ExecutionProblemReply := "Sorry, there was a problem executing your query"

  /** The external calls of the pipeline: `generate_sql_query`, the database
      read of `run_query` (the rows, or the error message of the exception
      `pd.read_sql_query` raises), and `data_comprehension`. */
  datatype SqlServices = SqlServices(
    generateSql: string -> string,
    readSql: string -> Result<seq<Record>, string>,
    comprehend: (string, seq<Record>) -> string)

  // ---------------------------------------------------------------------------
  // The SELECT gate of run_query

  /** `query.strip().upper().startswith('SELECT')` */
  predicate PassesSelectGate(query: string)
    ensures PassesSelectGate(query) ==> |SelectKeyword| <= |Strip(query)|
  {
    StartsWith(Upper(Strip(query)), SelectKeyword)
  }

  /** Reference reading of the gate: the query is some blanks followed by the
      word SELECT in any letter case. */
  ghost predicate IsSelectStatement(q: string) {
    exists k :: 0 <= k <= |q| && AllSpaces(q[..k]) && StartsWith(Upper(q[k..]), SelectKeyword)
  }

  lemma KeywordHasNoSpaces()
    ensures forall j :: 0 <= j < |SelectKeyword| ==> !IsSpace(SelectKeyword[j])
  {
    assert SelectKeyword == ['S', 'E', 'L', 'E', 'C', 'T'];
  }

  /** The six characters that upper-case to SELECT are not blanks. */
  lemma KeywordCharsAreNotSpaces(s: string, k: nat)
    requires k <= |s| && StartsWith(Upper(s[k..]), SelectKeyword)
    ensures k + |SelectKeyword| <= |s|
    ensures forall i :: k <= i < k + |SelectKeyword| ==> !IsSpace(s[i])
  {
    KeywordHasNoSpaces();
    forall i | k <= i < k + |SelectKeyword|
      ensures !IsSpace(s[i])
    {
      assert Upper(s[k..])[i - k] == SelectKeyword[i - k];
      UpperCharKeepsSpaces(s[i]);
    }
  }

  lemma AllSpacesSplit(s: string, n: nat)
    requires n <= |s|
    ensures AllSpaces(s) <==> AllSpaces(s[..n]) && AllSpaces(s[n..])
  {
    forall i | n <= i < |s| ensures s[n..][i - n] == s[i] { }
  }

  lemma AllSpacesPrefix(s: string, n: nat)
    requires n <= |s|
    ensures AllSpaces(s[..n]) <==> forall i :: 0 <= i < n ==> IsSpace(s[i])
  {
    assert forall i :: 0 <= i < n ==> s[..n][i] == s[i];
  }

  lemma AllSpacesSuffix(s: string, n: nat)
    requires n <= |s|
    ensures AllSpaces(s[n..]) <==> forall i :: n <= i < |s| ==> IsSpace(s[i])
  {
    assert forall i :: n <= i < |s| ==> s[n..][i - n] == s[i];
  }

  lemma UpperAppend(x: string, y: string)
    ensures Upper(x + y) == Upper(x) + Upper(y)
  {
  }

  /** Whether a text upper-cases to something starting with SELECT depends only
      on its first six characters. */
  lemma KeywordPrefixAppend(x: string, y: string)
    requires |SelectKeyword| <= |x|
    ensures StartsWith(Upper(x + y), SelectKeyword) <==> StartsWith(Upper(x), SelectKeyword)
  {
    UpperAppend(x, y);
    assert (Upper(x) + Upper(y))[..|SelectKeyword|] == Upper(x)[..|SelectKeyword|];
  }

  /** The gate as written agrees with its reference reading on every input. */
  lemma SelectGateCharacterization(q: string)
    ensures PassesSelectGate(q) <==> IsSelectStatement(q)
  {
    if PassesSelectGate(q) {
      GateAdmitsSelectStatement(q);
    }
    if IsSelectStatement(q) {
      SelectStatementPassesGate(q);
    }
  }

  /** A query the gate admits is some blanks followed by SELECT. */
  lemma GateAdmitsSelectStatement(q: string)
    requires PassesSelectGate(q)
    ensures IsSelectStatement(q)
  {
    var lo := LeadingSpaces(q);
    var r := Strip(q);
    assert AllSpaces(q[..lo]);
    forall j | 0 <= j < |SelectKeyword|
      ensures Upper(q[lo..])[j] == SelectKeyword[j]
    {
      assert Upper(r)[j] == SelectKeyword[j];
      assert r[j] == q[lo + j];
    }
    assert Upper(q[lo..])[..|SelectKeyword|] == SelectKeyword;
  }

  /** Some blanks followed by SELECT in any case pass the gate. */
  lemma SelectStatementPassesGate(q: string)
    requires IsSelectStatement(q)
    ensures PassesSelectGate(q)
  {
    var k :| 0 <= k <= |q| && AllSpaces(q[..k]) && StartsWith(Upper(q[k..]), SelectKeyword);
    KeywordCharsAreNotSpaces(q, k);
    StripKeepsKeyword(q, k);
    var r := Strip(q);
    forall j | 0 <= j < |SelectKeyword|
      ensures Upper(r)[j] == SelectKeyword[j]
    {
      assert Upper(r)[j] == UpperChar(q[k + j]) == Upper(q[k..])[j];
    }
    assert Upper(r)[..|SelectKeyword|] == SelectKeyword;
  }

  /** When blanks up to `k` are followed by six non-blanks, stripping keeps
      those six characters at the front. */
  lemma StripKeepsKeyword(q: string, k: nat)
    requires k <= |q| && AllSpaces(q[..k])
    requires k + |SelectKeyword| <= |q|
    requires forall i :: k <= i < k + |SelectKeyword| ==> !IsSpace(q[i])
    ensures |SelectKeyword| <= |Strip(q)|
    ensures forall j :: 0 <= j < |SelectKeyword| ==> Strip(q)[j] == q[k + j]
  {
    var lo := LeadingSpaces(q);
    var r := Strip(q);
    assert !IsSpace(q[k]);
    AllSpacesPrefix(q, k);
    assert lo == k;
    AllSpacesSuffix(q, lo + |r|);
    var probe := if |r| < |SelectKeyword| then k + |r| else k;
    assert !IsSpace(q[probe]);
  }

  lemma SelectStatementLeadingPadding(before: string, q: string)
    requires AllSpaces(before)
    ensures IsSelectStatement(before + q) <==> IsSelectStatement(q)
  {
    var padded := before + q;
    if IsSelectStatement(q) {
      var k :| 0 <= k <= |q| && AllSpaces(q[..k]) && StartsWith(Upper(q[k..]), SelectKeyword);
      var k' := |before| + k;
      assert padded[..k'] == before + q[..k];
      AllSpacesSplit(padded[..k'], |before|);
      assert padded[..k'][|before|..] == q[..k];
      assert padded[k'..] == q[k..];
    }
    if IsSelectStatement(padded) {
      var k' :| 0 <= k' <= |padded| && AllSpaces(padded[..k']) && StartsWith(Upper(padded[k'..]), SelectKeyword);
      KeywordCharsAreNotSpaces(padded, k');
      assert !IsSpace(padded[k']);
      assert forall i :: 0 <= i < |before| ==> padded[i] == before[i];
      var k := k' - |before|;
      assert q[..k] == padded[..k'][|before|..];
      AllSpacesSplit(padded[..k'], |before|);
      assert padded[k'..] == q[k..];
    }
  }

  lemma SelectStatementTrailingPadding(q: string, after: string)
    requires AllSpaces(after)
    ensures IsSelectStatement(q + after) <==> IsSelectStatement(q)
  {
    var padded := q + after;
    if IsSelectStatement(q) {
      var k :| 0 <= k <= |q| && AllSpaces(q[..k]) && StartsWith(Upper(q[k..]), SelectKeyword);
      KeywordCharsAreNotSpaces(q, k);
      assert padded[..k] == q[..k];
      assert padded[k..] == q[k..] + after;
      KeywordPrefixAppend(q[k..], after);
    }
    if IsSelectStatement(padded) {
      var k :| 0 <= k <= |padded| && AllSpaces(padded[..k]) && StartsWith(Upper(padded[k..]), SelectKeyword);
      KeywordCharsAreNotSpaces(padded, k);
      var last := k + |SelectKeyword| - 1;
      assert !IsSpace(padded[last]);
      assert forall i :: |q| <= i < |padded| ==> padded[i] == after[i - |q|];
      assert padded[..k] == q[..k];
      assert padded[k..] == q[k..] + after;
      KeywordPrefixAppend(q[k..], after);
    }
  }

  /** Blanks around a query never change the verdict of the gate. */
  lemma SelectGateIgnoresPadding(q: string, before: string, after: string)
    requires AllSpaces(before) && AllSpaces(after)
    ensures PassesSelectGate(before + q + after) <==> PassesSelectGate(q)
  {
    SelectGateCharacterization(q);
    SelectGateCharacterization(before + q + after);
    SelectStatementTrailingPadding(before + q, after);
    SelectStatementLeadingPadding(before, q);
  }

  lemma SelectStatementCaseStable(q: string, q': string)
    requires Upper(q) == Upper(q') && IsSelectStatement(q)
    ensures IsSelectStatement(q')
  {
    var k :| 0 <= k <= |q| && AllSpaces(q[..k]) && StartsWith(Upper(q[k..]), SelectKeyword);
    assert |Upper(q)| == |Upper(q')|;
    forall i | 0 <= i < k ensures IsSpace(q'[..k][i]) {
      assert q[..k][i] == q[i];
      assert Upper(q)[i] == Upper(q')[i];
      UpperCharKeepsSpaces(q[i]);
      UpperCharKeepsSpaces(q'[i]);
    }
    assert Upper(q'[k..]) == Upper(q[k..]) by {
      forall i | 0 <= i < |q| - k ensures Upper(q'[k..])[i] == Upper(q[k..])[i] {
        assert Upper(q)[k + i] == Upper(q')[k + i];
      }
    }
  }

  /** The letter case of a query never changes the verdict of the gate. */
  lemma SelectGateIgnoresCase(q: string, q': string)
    requires Upper(q) == Upper(q')
    ensures PassesSelectGate(q) <==> PassesSelectGate(q')
  {
    SelectGateCharacterization(q);
    SelectGateCharacterization(q');
    if IsSelectStatement(q) {
      SelectStatementCaseStable(q, q');
    }
    if IsSelectStatement(q') {
      SelectStatementCaseStable(q', q);
    }
  }

  /** A query that is blanks up to index `k` and then reads SELECT in some
      letter case passes the gate. */
  lemma SelectAt(q: string, k: nat)
    requires k <= |q| && AllSpaces(q[..k]) && StartsWith(Upper(q[k..]), SelectKeyword)
    ensures PassesSelectGate(q)
  {
    SelectGateCharacterization(q);
  }

  /** A query whose first non-blank character, at index `k`, does not
      upper-case to 'S' is refused. */
  lemma NotSelectAt(q: string, k: nat)
    requires k < |q| && AllSpaces(q[..k]) && !IsSpace(q[k]) && UpperChar(q[k]) != 'S'
    ensures !PassesSelectGate(q)
  {
    SelectGateCharacterization(q);
    AllSpacesPrefix(q, k);
    forall k2: nat | k2 <= |q|
      ensures AllSpaces(q[..k2]) ==> !StartsWith(Upper(q[k2..]), SelectKeyword)
    {
      if k2 > k {
        assert q[..k2][k] == q[k];
      } else if k2 < |q| {
        UpperCharKeepsSpaces(q[k2]);
        assert Upper(q[k2..])[0] == UpperChar(q[k2]);
        assert SelectKeyword[0] == 'S';
      }
    }
  }

  /** Lower-case and padded: passes. */
  lemma SelectGateAcceptsLowerCase()
    ensures PassesSelectGate("  select * from product")
  {
    var q := "  select * from product";
    assert q[..2] == "  ";
    assert q[2..][..6] == "select";
    assert Upper("select") == SelectKeyword;
    SelectAt(q, 2);
  }

  /** Mixed case: passes. */
  lemma SelectGateAcceptsMixedCase()
    ensures PassesSelectGate("SeLeCt *")
  {
    var q := "SeLeCt *";
    assert q[..0] == "";
    assert q[0..][..6] == "SeLeCt";
    assert Upper("SeLeCt") == SelectKeyword;
    SelectAt(q, 0);
  }

  /** A longer word that merely starts with SELECT passes: the gate is a
      prefix test. */
  lemma SelectGateAcceptsLongerWord()
    ensures PassesSelectGate("SELECTED")
  {
    var q := "SELECTED";
    assert q[..0] == "";
    assert q[0..][..6] == "SELECT";
    assert Upper("SELECT") == SelectKeyword;
    SelectAt(q, 0);
  }

  /** Padded DELETE in any letter case, and the empty query, are refused. */
  lemma SelectGateRefusesOthers()
    ensures !PassesSelectGate("  DeLeTe FROM product")
    ensures !PassesSelectGate("")
  {
    var q := "  DeLeTe FROM product";
    assert q[..2] == "  ";
    NotSelectAt(q, 2);
  }

  /** The model's gate refuses a query whose sixth letter is U+1E97 (LATIN
      SMALL LETTER T WITH DIAERESIS): the model's upper-casing leaves that
      character as it is, where Python's turns it into `T` and a combining
      diaeresis. */
  lemma SelectGateRefusesDiaeresisT()
    ensures !PassesSelectGate("selec\U{1E97} * from product")
  {
    var q := "selec\U{1E97} * from product";
    assert !IsSpace(q[0]) && q[5] == '\U{1E97}';
    SixthLetterNotT(q);
  }

  /** A query starting with a non-blank whose sixth character does not
      upper-case to `T` is refused. */
  lemma SixthLetterNotT(q: string)
    requires 5 < |q| && !IsSpace(q[0]) && UpperChar(q[5]) != 'T'
    ensures !PassesSelectGate(q)
  {
    SelectGateCharacterization(q);
    forall k: nat | k <= |q|
      ensures AllSpaces(q[..k]) ==> !StartsWith(Upper(q[k..]), SelectKeyword)
    {
      if k > 0 {
        assert q[..k][0] == q[0];
      } else {
        assert q[k..] == q;
        assert Upper(q)[5] == UpperChar(q[5]);
        assert SelectKeyword[5] == 'T';
      }
    }
  }

  /** `run_query`: a query that passes the gate is read from the database
      exactly as given, and a failing read raises; any other query gives None
      without touching the database. */
  function RunQuery(query: string, readSql: string -> Result<seq<Record>, string>): (r: Result<Option<seq<Record>>, Fault>)
    ensures r == Success(None) <==> !IsSelectStatement(query)
    ensures r.Success? && r.value.Some? <==> IsSelectStatement(query) && readSql(query).Success?
    ensures r.Success? && r.value.Some? ==> r.value.value == readSql(query).value
    ensures r.Failure? <==> IsSelectStatement(query) && readSql(query).Failure?
    ensures r.Failure? ==> r.error == QueryFailed(query, readSql(query).error)
  {
    SelectGateCharacterization(query);
    if PassesSelectGate(query) then
      match readSql(query)
      case Success(rows) => Success(Some(rows))
      case Failure(message) => Failure(QueryFailed(query, message))
    else Success(None)
  }

  // ---------------------------------------------------------------------------
  // re.findall("<SQL>(.*?)</SQL>", reply, re.DOTALL)

  /** The pattern matches at `p` with its group ending at `j`: an opening tag
      at `p`, and `j` the first closing tag after it (the lazy `.*?` takes the
      shortest body; DOTALL lets the body hold any character). */
  ghost predicate IsMatchAt(s: string, p: nat, j: nat) {
    && OccursAt(s, OpenTag, p)
    && p + |OpenTag| <= j
    && OccursAt(s, CloseTag, j)
    && forall k :: p + |OpenTag| <= k < j ==> !OccursAt(s, CloseTag, k)
  }

  /** The pattern can match starting at `p`. */
  ghost predicate CanMatchAt(s: string, p: nat) {
    OccursAt(s, OpenTag, p) && exists j :: p + |OpenTag| <= j && OccursAt(s, CloseTag, j)
  }

  /** The match a regular-expression search from `from` reports: the leftmost
      start position at which the pattern can match. */
  ghost predicate IsLeftmostMatch(s: string, from: nat, p: nat, j: nat) {
    from <= p && IsMatchAt(s, p, j) && forall p' :: from <= p' < p ==> !CanMatchAt(s, p')
  }

  /** A match: the position of its opening tag and of its closing tag. */
  datatype Span = Span(open: nat, close: nat)

  /** The text between the tags of a match (group 1). */
  function Body(s: string, m: Span): string
    requires m.open + |OpenTag| <= m.close <= |s|
  {
    s[m.open + |OpenTag|..m.close]
  }

  /** The first match found by a search starting at `from`. */
  function FirstMatchFrom(s: string, from: nat): (r: Option<Span>)
    ensures r.Some? ==> IsLeftmostMatch(s, from, r.value.open, r.value.close)
    ensures r.None? <==> forall p :: from <= p ==> !CanMatchAt(s, p)
  {
    match FindFrom(s, OpenTag, from)
    case None => None
    case Some(p) =>
      match FindFrom(s, CloseTag, p + |OpenTag|)
      case None => None
      case Some(j) =>
        assert CanMatchAt(s, p);
        Some(Span(p, j))
  }

  /** The reference match is unique, so it determines what a search reports. */
  lemma LeftmostMatchUnique(s: string, from: nat, p: nat, j: nat, p': nat, j': nat)
    requires IsLeftmostMatch(s, from, p, j) && IsLeftmostMatch(s, from, p', j')
    ensures p == p' && j == j'
  {
    assert CanMatchAt(s, p);
    assert CanMatchAt(s, p');
  }

  /** No group ever contains the closing tag. */
  lemma BodyHasNoCloseTag(s: string, m: Span)
    requires IsMatchAt(s, m.open, m.close)
    ensures forall k :: !OccursAt(Body(s, m), CloseTag, k)
  {
    var b := Body(s, m);
    forall k: nat
      ensures !OccursAt(b, CloseTag, k)
    {
      if k + |CloseTag| <= |b| {
        var i := m.open + |OpenTag| + k;
        assert i + |CloseTag| <= m.close <= |s|;
        var inBody, inReply := b[k..k + |CloseTag|], s[i..i + |CloseTag|];
        forall t | 0 <= t < |inBody|
          ensures inBody[t] == inReply[t]
        {
          assert b[k + t] == s[i + t];
        }
        assert inBody == inReply;
        assert !OccursAt(s, CloseTag, i);
      }
    }
  }

  /** `re.findall` from `from`: every match in order, each search resuming
      after the closing tag of the previous match. */
  function FindAllFrom(s: string, from: nat): (ms: seq<string>)
    requires from <= |s|
    ensures |ms| == 0 <==> forall p :: from <= p ==> !CanMatchAt(s, p)
    ensures forall i, k :: 0 <= i < |ms| ==> !OccursAt(ms[i], CloseTag, k)
    decreases |s| - from
  {
    match FirstMatchFrom(s, from)
    case None => []
    case Some(m) =>
      BodyHasNoCloseTag(s, m);
      [Body(s, m)] + FindAllFrom(s, m.close + |CloseTag|)
  }

  /** `re.findall("<SQL>(.*?)</SQL>", s, re.DOTALL)` */
  function FindAll(s: string): (ms: seq<string>)
    ensures |ms| == 0 <==> forall p :: !CanMatchAt(s, p)
    ensures forall i, k :: 0 <= i < |ms| ==> !OccursAt(ms[i], CloseTag, k)
  {
    FindAllFrom(s, 0)
  }

  /** The first element of `findall` is the group of the reference match. */
  lemma FindAllFirst(s: string, p: nat, j: nat)
    requires IsLeftmostMatch(s, 0, p, j)
    ensures |FindAll(s)| > 0 && FindAll(s)[0] == s[p + |OpenTag|..j]
  {
    var m := FirstMatchFrom(s, 0);
    assert CanMatchAt(s, p);
    LeftmostMatchUnique(s, 0, p, j, m.value.open, m.value.close);
  }

  lemma OccursAtAppend(s: string, t: string, pat: string, i: nat)
    requires i + |pat| <= |s|
    ensures OccursAt(s + t, pat, i) <==> OccursAt(s, pat, i)
  {
    assert (s + t)[i..i + |pat|] == s[i..i + |pat|];
  }

  /** Text after the first tagged block never changes which block is found. */
  lemma FirstMatchIgnoresLaterText(s: string, t: string)
    requires FirstMatchFrom(s, 0).Some?
    ensures FirstMatchFrom(s + t, 0) == FirstMatchFrom(s, 0)
  {
    var m := FirstMatchFrom(s, 0).value;
    var p, j := m.open, m.close;
    OccursAtAppend(s, t, OpenTag, p);
    OccursAtAppend(s, t, CloseTag, j);
    forall k | p + |OpenTag| <= k < j
      ensures !OccursAt(s + t, CloseTag, k)
    {
      OccursAtAppend(s, t, CloseTag, k);
    }
    forall p' | 0 <= p' < p
      ensures !CanMatchAt(s + t, p')
    {
      OccursAtAppend(s, t, OpenTag, p');
      assert !CanMatchAt(s, p');
      assert p' + |OpenTag| <= j && OccursAt(s, CloseTag, j);
    }
    assert IsLeftmostMatch(s + t, 0, p, j);
    assert CanMatchAt(s + t, p);
    var m' := FirstMatchFrom(s + t, 0).value;
    LeftmostMatchUnique(s + t, 0, p, j, m'.open, m'.close);
  }

  // ---------------------------------------------------------------------------
  // sql_chain

  /** Where a trace may go once the model has replied: every database read
      is of a query that passes the gate, and every other call is
      `data_comprehension` with the original question. */
  ghost predicate GatedCalls(calls: seq<Call>, question: string) {
    && (forall i :: 0 <= i < |calls| && calls[i].ReadSql? ==> IsSelectStatement(calls[i].sql))
    && (forall i :: 0 <= i < |calls| ==>
          calls[i].ReadSql? || (calls[i].Comprehend? && calls[i].question == question))
  }

  /** What `sql_chain` does once the model has replied: with no tagged block
      it apologises; otherwise the first block, stripped, goes to `run_query`.
      Only the database read can raise, and only for a query that passed the
      gate. */
  function AnswerFromReply(question: string, reply: string, svc: SqlServices): (r: Result<Outcome, Fault>)
    ensures r.Success? ==> GatedCalls(r.value.calls, question) && |r.value.calls| <= 2
    ensures r.Failure? ==>
      r.error.QueryFailed? && IsSelectStatement(r.error.sql) && svc.readSql(r.error.sql).Failure?
  {
    var matches := FindAll(reply);
    if |matches| == 0 then Success(Outcome(NoQueryReply, []))
    else AnswerFromQuery(question, Strip(matches[0]), svc)
  }

  /** The extracted query goes to `run_query`: a refused query gets the second
      apology without any call, a failing read raises, and rows go to
      `data_comprehension` with the original question. */
  function AnswerFromQuery(question: string, query: string, svc: SqlServices): (r: Result<Outcome, Fault>)
    ensures r.Success? ==> GatedCalls(r.value.calls, question) && |r.value.calls| <= 2
    ensures r.Failure? ==>
      r.error.QueryFailed? && IsSelectStatement(r.error.sql) && svc.readSql(r.error.sql).Failure?
    ensures !IsSelectStatement(query) ==> r == Success(Outcome(ExecutionProblemReply, []))
    ensures IsSelectStatement(query) && svc.readSql(query).Success? ==>
      var rows := svc.readSql(query).value;
      r == Success(Outcome(svc.comprehend(question, rows), [ReadSql(query), Comprehend(question, rows)]))
    ensures IsSelectStatement(query) && svc.readSql(query).Failure? ==>
      r == Failure(QueryFailed(query, svc.readSql(query).error))
  {
    match RunQuery(query, svc.readSql)
    case Failure(e) => Failure(e)
    case Success(None) => Success(Outcome(ExecutionProblemReply, []))
    case Success(Some(rows)) => Success(Outcome(svc.comprehend(question, rows), [ReadSql(query), Comprehend(question, rows)]))
  }

  /** `sql_chain(question)` */
  function SqlChain(question: string, svc: SqlServices): (r: Result<Outcome, Fault>)
    ensures r.Success? ==>
      && 1 <= |r.value.calls| <= 3 && r.value.calls[0] == GenerateSql(question)
      && GatedCalls(r.value.calls[1..], question)
    ensures r.Failure? ==>
      r.error.QueryFailed? && IsSelectStatement(r.error.sql) && svc.readSql(r.error.sql).Failure?
  {
    var a := AnswerFromReply(question, svc.generateSql(question), svc);
    if a.Failure? then Failure(a.error)
    else
      assert ([GenerateSql(question)] + a.value.calls)[1..] == a.value.calls;
      Success(Outcome(a.value.reply, [GenerateSql(question)] + a.value.calls))
  }

  /** `sql_chain` adds the generation call in front of what follows the
      model's reply. */
  lemma SqlChainSteps(question: string, svc: SqlServices, reply: string, calls: seq<Call>)
    requires AnswerFromReply(question, svc.generateSql(question), svc) == Success(Outcome(reply, calls))
    ensures SqlChain(question, svc) == Success(Outcome(reply, [GenerateSql(question)] + calls))
  {
  }

  /** With a match in the reply, what follows is `run_query` on its stripped
      group. */
  lemma AnswerFromFirstBlock(question: string, reply: string, svc: SqlServices, p: nat, j: nat)
    requires IsLeftmostMatch(reply, 0, p, j)
    ensures AnswerFromReply(question, reply, svc) == AnswerFromQuery(question, Strip(reply[p + |OpenTag|..j]), svc)
  {
    FindAllFirst(reply, p, j);
  }

  /** A reply without a tagged block: the first apology, and neither the
      database nor `data_comprehension` is called. */
  lemma SqlChainWithoutBlock(question: string, svc: SqlServices)
    requires forall p :: !CanMatchAt(svc.generateSql(question), p)
    ensures SqlChain(question, svc) == Success(Outcome(NoQueryReply, [GenerateSql(question)]))
  {
    var reply := svc.generateSql(question);
    assert |FindAll(reply)| == 0;
    assert AnswerFromReply(question, reply, svc) == Success(Outcome(NoQueryReply, []));
    SqlChainSteps(question, svc, NoQueryReply, []);
    assert [GenerateSql(question)] + [] == [GenerateSql(question)];
  }

  /** The first block, stripped, fails the gate: the second apology, and
      neither the database nor `data_comprehension` is called. */
  lemma SqlChainRefused(question: string, svc: SqlServices, p: nat, j: nat)
    requires IsLeftmostMatch(svc.generateSql(question), 0, p, j)
    requires !IsSelectStatement(Strip(svc.generateSql(question)[p + |OpenTag|..j]))
    ensures SqlChain(question, svc) == Success(Outcome(ExecutionProblemReply, [GenerateSql(question)]))
  {
    var reply := svc.generateSql(question);
    AnswerFromFirstBlock(question, reply, svc, p, j);
    assert AnswerFromReply(question, reply, svc) == Success(Outcome(ExecutionProblemReply, []));
    SqlChainSteps(question, svc, ExecutionProblemReply, []);
    assert [GenerateSql(question)] + [] == [GenerateSql(question)];
  }

  /** The first block, stripped, passes the gate: exactly that text is read
      from the database. When the read succeeds the answer is
      `data_comprehension` of the unchanged question and the rows; when the
      database rejects the query, `sql_chain` raises with its message. */
  lemma SqlChainAnswered(question: string, svc: SqlServices, p: nat, j: nat)
    requires IsLeftmostMatch(svc.generateSql(question), 0, p, j)
    requires IsSelectStatement(Strip(svc.generateSql(question)[p + |OpenTag|..j]))
    ensures var query := Strip(svc.generateSql(question)[p + |OpenTag|..j]);
      svc.readSql(query).Success? ==>
        var rows := svc.readSql(query).value;
        SqlChain(question, svc) ==
          Success(Outcome(svc.comprehend(question, rows), [GenerateSql(question), ReadSql(query), Comprehend(question, rows)]))
    ensures var query := Strip(svc.generateSql(question)[p + |OpenTag|..j]);
      svc.readSql(query).Failure? ==>
        SqlChain(question, svc) == Failure(QueryFailed(query, svc.readSql(query).error))
  {
    var query := Strip(svc.generateSql(question)[p + |OpenTag|..j]);
    AnswerFromFirstBlock(question, svc.generateSql(question), svc, p, j);
    if svc.readSql(query).Success? {
      RowsAnswer(question, query, svc);
      SqlChainRowsRead(question, svc, query);
    } else {
      SqlChainReadRaises(question, svc, query);
    }
  }

  lemma SqlChainRowsRead(question: string, svc: SqlServices, query: string)
    requires svc.readSql(query).Success?
    requires var rows := svc.readSql(query).value;
      AnswerFromReply(question, svc.generateSql(question), svc) ==
        Success(Outcome(svc.comprehend(question, rows), [ReadSql(query), Comprehend(question, rows)]))
    ensures var rows := svc.readSql(query).value;
      SqlChain(question, svc) ==
        Success(Outcome(svc.comprehend(question, rows), [GenerateSql(question), ReadSql(query), Comprehend(question, rows)]))
  {
    var rows := svc.readSql(query).value;
    var calls := [ReadSql(query), Comprehend(question, rows)];
    SqlChainSteps(question, svc, svc.comprehend(question, rows), calls);
    assert [GenerateSql(question)] + calls == [GenerateSql(question), ReadSql(query), Comprehend(question, rows)];
  }

  lemma RowsAnswer(question: string, query: string, svc: SqlServices)
    requires IsSelectStatement(query) && svc.readSql(query).Success?
    ensures var rows := svc.readSql(query).value;
      AnswerFromQuery(question, query, svc) ==
        Success(Outcome(svc.comprehend(question, rows), [ReadSql(query), Comprehend(question, rows)]))
  {
  }

  lemma SqlChainReadRaises(question: string, svc: SqlServices, query: string)
    requires AnswerFromReply(question, svc.generateSql(question), svc) == AnswerFromQuery(question, query, svc)
    requires IsSelectStatement(query) && svc.readSql(query).Failure?
    ensures SqlChain(question, svc) == Failure(QueryFailed(query, svc.readSql(query).error))
  {
  }

  /** A block that does not contain `</` at the front of a reply is the first
      match: the body may hold any character, line breaks included. */
  lemma WrappedBlockIsFirstMatch(body: string, rest: string)
    requires forall i :: !OccursAt(body, "</", i)
    ensures IsLeftmostMatch(OpenTag + body + CloseTag + rest, 0, 0, |OpenTag| + |body|)
  {
    var s := OpenTag + body + CloseTag + rest;
    var j := |OpenTag| + |body|;
    assert s[0..|OpenTag|] == OpenTag;
    assert s[j..j + |CloseTag|] == CloseTag;
    forall k | |OpenTag| <= k < j
      ensures !OccursAt(s, CloseTag, k)
    {
      if k + |CloseTag| <= |s| {
        var w := s[k..k + |CloseTag|];
        if k + 1 < j {
          var b := k - |OpenTag|;
          assert s[k..k + 2] == body[b..b + 2];
          assert !OccursAt(body, "</", b);
          assert w[..2] == s[k..k + 2];
          assert CloseTag[..2] == "</";
          assert w[..2] != CloseTag[..2];
        } else {
          assert w[1] == s[j] == '<';
          assert CloseTag[1] == '/';
        }
      }
    }
  }

  /** Wrapping a query in the tags and extracting it gives it back. */
  lemma WrappedBlockExtracted(body: string, rest: string)
    requires forall i :: !OccursAt(body, "</", i)
    ensures |FindAll(OpenTag + body + CloseTag + rest)| > 0
    ensures FindAll(OpenTag + body + CloseTag + rest)[0] == body
  {
    var s := OpenTag + body + CloseTag + rest;
    WrappedBlockIsFirstMatch(body, rest);
    FindAllFirst(s, 0, |OpenTag| + |body|);
    assert s[|OpenTag|..|OpenTag| + |body|] == body;
  }

  /** A multi-line query is extracted whole. */
  lemma MultiLineBlockExtracted()
    ensures |FindAll(OpenTag + "\nSELECT *\n" + CloseTag)| > 0
    ensures FindAll(OpenTag + "\nSELECT *\n" + CloseTag)[0] == "\nSELECT *\n"
  {
    var body := "\nSELECT *\n";
    assert forall i :: 0 <= i < |body| ==> body[i] != '<';
    forall i: nat ensures !OccursAt(body, "</", i) {
      if i + 2 <= |body| {
        assert body[i..i + 2][0] == body[i];
      }
    }
    WrappedBlockExtracted(body, "");
    assert OpenTag + body + CloseTag + "" == OpenTag + body + CloseTag;
  }

  /** An empty block `<SQL></SQL>` is found, but its empty query fails the
      gate, so the answer is the second apology. */
  lemma EmptyBlockRefused(question: string, svc: SqlServices, rest: string)
    requires svc.generateSql(question) == OpenTag + CloseTag + rest
    ensures SqlChain(question, svc) == Success(Outcome(ExecutionProblemReply, [GenerateSql(question)]))
  {
    assert svc.generateSql(question) == OpenTag + "" + CloseTag + rest;
    WrappedBlockIsFirstMatch("", rest);
    assert svc.generateSql(question)[|OpenTag|..|OpenTag|] == "";
    assert Strip("") == "";
    SelectGateCharacterization("");
    SqlChainRefused(question, svc, 0, |OpenTag|);
  }

  /** Text after the first tagged block never changes the first element of
      `findall`. */
  lemma FirstBlockIgnoresLaterText(reply: string, extra: string)
    requires FirstMatchFrom(reply, 0).Some?
    ensures |FindAll(reply)| > 0 && |FindAll(reply + extra)| > 0
    ensures FindAll(reply + extra)[0] == FindAll(reply)[0]
  {
    var m := FirstMatchFrom(reply, 0).value;
    FirstMatchIgnoresLaterText(reply, extra);
    FindAllFirst(reply, m.open, m.close);
    FindAllFirst(reply + extra, m.open, m.close);
    assert (reply + extra)[m.open + |OpenTag|..m.close] == reply[m.open + |OpenTag|..m.close];
  }

  /** Tagged blocks after the first one never influence the answer. */
  lemma LaterBlocksIgnored(question: string, reply: string, extra: string, svc: SqlServices)
    requires FirstMatchFrom(reply, 0).Some?
    ensures AnswerFromReply(question, reply + extra, svc) == AnswerFromReply(question, reply, svc)
  {
    FirstBlockIgnoresLaterText(reply, extra);
    var block := FindAll(reply)[0];
    assert AnswerFromReply(question, reply, svc) == AnswerFromQuery(question, Strip(block), svc);
    assert AnswerFromReply(question, reply + extra, svc) == AnswerFromQuery(question, Strip(block), svc);
  }
}
