/**
 * notionQueryAll (netlify/functions/products.js): the cursor-following loop that collects every
 * page of a Notion database query. The network is replaced by the sequence of responses the
 * store gives to successive requests; each request is recorded instead of being sent.
 */
module NotionQuery {
  import opened Wrappers
  import opened JsStrings
  import opened Products

  /** What one `fetch` of a query page yields. */
  datatype PageResponse =
    | Rejected(message: string)                                              // fetch or res.json() threw
    | NotOk(status: nat, text: string)                                       // !res.ok, with res.text()
    | Ok(results: Option<seq<Page>>, hasMore: bool, nextCursor: Option<string>)

  /** One POST to databases/<db>/query: the bearer token and the body's start_cursor, if any. */
  datatype QueryRequest = QueryRequest(db: string, token: string, startCursor: Option<string>)

  /** Why the aggregation threw. */
  datatype QueryError = Upstream(status: nat, text: string) | Thrown(message: string)

  function DigitChar(d: nat): (c: char)
    requires d < 10
    ensures '0' <= c <= '9'
  {
    ('0' as int + d) as char
  }

  /** The decimal numeral of `n`, as a template literal prints an integer. */
  function NatToDecimal(n: nat): (s: string)
    ensures |s| >= 1
    ensures forall i :: 0 <= i < |s| ==> '0' <= s[i] <= '9'
    ensures s[0] == '0' <==> n == 0
  {
    if n < 10 then [DigitChar(n)] else NatToDecimal(n / 10) + [DigitChar(n % 10)]
  }

  /** The number a string of decimal digits denotes, most significant digit first. */
  function DecimalValue(s: string): nat
    requires forall i :: 0 <= i < |s| ==> '0' <= s[i] <= '9'
  {
    if s == [] then 0 else 10 * DecimalValue(s[..|s| - 1]) + (s[|s| - 1] as int - '0' as int)
  }

  /** The numeral reads back as the number it renders. */
  lemma {:induction false} NatToDecimalValue(n: nat)
    ensures DecimalValue(NatToDecimal(n)) == n
  {
    if n >= 10 {
      NatToDecimalValue(n / 10);
      var s := NatToDecimal(n);
      assert s[..|s| - 1] == NatToDecimal(n / 10);
    }
  }

  /** The message of the error thrown: `Notion <status>: <text>` for a failed page. */
  function ErrorMessage(e: QueryError): (m: string)
    ensures e.Upstream? ==> StartsWith(m, "Notion ") && m != ""
    ensures e.Thrown? ==> m == e.message
  {
    match e
    case Upstream(status, text) =>
      var m := "Notion " + NatToDecimal(status) + ": " + text;
      assert m[..7] == "Notion ";
      m
    case Thrown(message) => message
  }

  /** The loop goes on after this response: it is ok, has_more is set and next_cursor is truthy. */
  predicate Continues(r: PageResponse) {
    r.Ok? && r.hasMore && Truthy(r.nextCursor)
  }

  /** The cursor the next request carries. */
  function CursorAfter(r: PageResponse): (c: Option<string>)
    ensures Continues(r) ==> c == r.nextCursor && Truthy(c)
  {
    if Continues(r) then r.nextCursor else None
  }

  /** `data.results || []`. */
  function ResultsOf(r: PageResponse): seq<Page> {
    if r.Ok? && r.results.Some? then r.results.value else []
  }

  /**
   * The loop condition: a rejected or non-ok response, has_more false, or a falsy next_cursor
   * each end the loop; otherwise the next request carries next_cursor.
   */
  lemma StopConditions(r: PageResponse)
    ensures !r.Ok? ==> !Continues(r)
    ensures r.Ok? && !r.hasMore ==> !Continues(r)
    ensures r.Ok? && !Truthy(r.nextCursor) ==> !Continues(r)
    ensures r.Ok? && r.hasMore && Truthy(r.nextCursor) ==> Continues(r) && CursorAfter(r) == r.nextCursor
  {
  }

  /** The store eventually stops the loop: some response fails or ends the cursor chain. */
  predicate Terminates(pages: seq<PageResponse>) {
    exists k :: 0 <= k < |pages| && !Continues(pages[k])
  }

  /** The index of the response at which the loop stops. */
  function FirstStop(pages: seq<PageResponse>): (n: nat)
    requires Terminates(pages)
    ensures n < |pages| && !Continues(pages[n])
    ensures forall j :: 0 <= j < n ==> Continues(pages[j])
  {
    if !Continues(pages[0]) then 0
    else
      var k :| 0 <= k < |pages| && !Continues(pages[k]);
      assert pages[1..][k - 1] == pages[k];
      1 + FirstStop(pages[1..])
  }

  /** Request number `i`: the first carries no cursor, each later one the previous response's. */
  function RequestAt(db: string, token: string, pages: seq<PageResponse>, i: nat): QueryRequest
    requires i <= |pages|
  {
    QueryRequest(db, token, if i == 0 then None else CursorAfter(pages[i - 1]))
  }

  /** The first `n` requests. */
  function SentUpTo(db: string, token: string, pages: seq<PageResponse>, n: nat): (r: seq<QueryRequest>)
    requires n <= |pages|
    ensures |r| == n
  {
    if n == 0 then [] else SentUpTo(db, token, pages, n - 1) + [RequestAt(db, token, pages, n - 1)]
  }

  /** The results of the first `n` responses, concatenated in request order. */
  function CollectedUpTo(pages: seq<PageResponse>, n: nat): seq<Page>
    requires n <= |pages|
  {
    if n == 0 then [] else CollectedUpTo(pages, n - 1) + ResultsOf(pages[n - 1])
  }

  /** Every request the loop issues, in order. */
  function Requests(db: string, token: string, pages: seq<PageResponse>): seq<QueryRequest>
    requires Terminates(pages)
  {
    SentUpTo(db, token, pages, FirstStop(pages) + 1)
  }

  /** What notionQueryAll resolves to, or the error it throws. */
  function Aggregate(pages: seq<PageResponse>): Result<seq<Page>, QueryError>
    requires Terminates(pages)
  {
    var n := FirstStop(pages);
    match pages[n]
    case Rejected(message) => Failure(Thrown(message))
    case NotOk(status, text) => Failure(Upstream(status, text))
    case Ok(_, _, _) => Success(CollectedUpTo(pages, n + 1))
  }

  /** notionQueryAll(db, token): the do/while loop over the store's responses. */
  method QueryAll(db: string, token: string, pages: seq<PageResponse>)
      returns (outcome: Result<seq<Page>, QueryError>, sent: seq<QueryRequest>)
    requires Terminates(pages)
    ensures sent == Requests(db, token, pages)
    ensures outcome == Aggregate(pages)
  {
    ghost var stop := FirstStop(pages);
    var results: seq<Page> := [];
    var cursor: Option<string> := None;
    var i: nat := 0;
    sent := [];
    while true
      invariant i <= stop
      invariant sent == SentUpTo(db, token, pages, i)
      invariant results == CollectedUpTo(pages, i)
      invariant cursor == if i == 0 then None else CursorAfter(pages[i - 1])
      decreases stop - i
    {
      sent := sent + [QueryRequest(db, token, if Truthy(cursor) then cursor else None)];
      var res := pages[i];
      if res.Rejected? {
        outcome := Failure(Thrown(res.message));
        return;
      }
      if res.NotOk? {
        outcome := Failure(Upstream(res.status, res.text));
        return;
      }
      results := results + (if res.results.Some? then res.results.value else []);
      cursor := if res.hasMore then res.nextCursor else None;
      if !Truthy(cursor) {
        break;
      }
      i := i + 1;
    }
    outcome := Success(results);
  }

  lemma {:induction false} SentUpToAt(db: string, token: string, pages: seq<PageResponse>, n: nat, k: nat)
    requires k < n <= |pages|
    ensures SentUpTo(db, token, pages, n)[k] == RequestAt(db, token, pages, k)
  {
    if k < n - 1 {
      SentUpToAt(db, token, pages, n - 1, k);
    }
  }

  /**
   * One request per consumed response: the first carries no cursor, request k+1 carries response
   * k's next_cursor (a truthy string), and every request goes to the same database with the same token.
   */
  lemma RequestsShape(db: string, token: string, pages: seq<PageResponse>)
    requires Terminates(pages)
    ensures |Requests(db, token, pages)| == FirstStop(pages) + 1
    ensures Requests(db, token, pages)[0].startCursor == None
    ensures forall k :: 0 <= k < FirstStop(pages) ==>
              Requests(db, token, pages)[k + 1].startCursor == pages[k].nextCursor
              && Truthy(pages[k].nextCursor)
    ensures forall r :: r in Requests(db, token, pages) ==> r.db == db && r.token == token
  {
    var n := FirstStop(pages) + 1;
    var rs := Requests(db, token, pages);
    SentUpToAt(db, token, pages, n, 0);
    forall k | 0 <= k < n - 1
      ensures rs[k + 1].startCursor == pages[k].nextCursor && Truthy(pages[k].nextCursor)
    {
      SentUpToAt(db, token, pages, n, k + 1);
    }
    forall r | r in rs ensures r.db == db && r.token == token {
      var k :| 0 <= k < |rs| && rs[k] == r;
      SentUpToAt(db, token, pages, n, k);
    }
  }

  /** The loop stops at the first response that fails or ends the cursor chain, and at no earlier one. */
  lemma StopsAtFirstEnd(pages: seq<PageResponse>, k: nat)
    requires k < |pages| && !Continues(pages[k])
    requires forall j :: 0 <= j < k ==> Continues(pages[j])
    ensures Terminates(pages) && FirstStop(pages) == k
  {
  }

  /** A page that fails aborts the whole query: no partial result is returned. */
  lemma AggregateFails(pages: seq<PageResponse>)
    requires Terminates(pages)
    ensures Aggregate(pages).Failure? <==> !pages[FirstStop(pages)].Ok?
    ensures pages[FirstStop(pages)].NotOk? ==>
              Aggregate(pages) == Failure(Upstream(pages[FirstStop(pages)].status, pages[FirstStop(pages)].text))
  {
  }

  /** A record is in the collected list exactly when some consumed response returned it. */
  lemma {:induction false} CollectedFrom(pages: seq<PageResponse>, n: nat, x: Page)
    requires n <= |pages|
    ensures x in CollectedUpTo(pages, n) <==> exists i :: 0 <= i < n && x in ResultsOf(pages[i])
  {
    if n > 0 {
      CollectedFrom(pages, n - 1, x);
    }
  }

  /** An ok response without a results array adds nothing to the records collected before it. */
  lemma ResultlessPageAddsNothing(pages: seq<PageResponse>, n: nat)
    requires 0 < n <= |pages| && pages[n - 1].Ok? && pages[n - 1].results.None?
    ensures CollectedUpTo(pages, n) == CollectedUpTo(pages, n - 1)
  {
  }

  /** When no response carries a results array, the query succeeds with no records. */
  lemma MissingResults(pages: seq<PageResponse>)
    requires Terminates(pages)
    requires forall i :: 0 <= i < |pages| ==> pages[i].Ok? && pages[i].results.None?
    ensures Aggregate(pages) == Success([])
  {
    var collected := CollectedUpTo(pages, FirstStop(pages) + 1);
    if collected != [] {
      CollectedFrom(pages, FirstStop(pages) + 1, collected[0]);
    }
  }

  /** Three pages of two records, the third with has_more false: six records in order, three requests. */
  lemma ThreePages(db: string, token: string, a: seq<Page>, b: seq<Page>, c: seq<Page>, c1: string, c2: string)
    requires |a| == 2 && |b| == 2 && |c| == 2 && c1 != "" && c2 != ""
    ensures var pages := [Ok(Some(a), true, Some(c1)), Ok(Some(b), true, Some(c2)), Ok(Some(c), false, None)];
            Terminates(pages)
            && Aggregate(pages) == Success(a + b + c)
            && |Aggregate(pages).value| == 6
            && Requests(db, token, pages) ==
                 [QueryRequest(db, token, None), QueryRequest(db, token, Some(c1)), QueryRequest(db, token, Some(c2))]
  {
    var pages := [Ok(Some(a), true, Some(c1)), Ok(Some(b), true, Some(c2)), Ok(Some(c), false, None)];
    StopsAtFirstEnd(pages, 2);
    assert CollectedUpTo(pages, 1) == a;
    assert CollectedUpTo(pages, 2) == a + b;
    assert CollectedUpTo(pages, 3) == a + b + c;
    assert SentUpTo(db, token, pages, 1) == [QueryRequest(db, token, None)];
    assert SentUpTo(db, token, pages, 2) == [QueryRequest(db, token, None), QueryRequest(db, token, Some(c1))];
  }
}
