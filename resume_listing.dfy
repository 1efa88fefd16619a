/**
 * `get_all_resumes` from services/metadata_service.py: the paged query of the
 * resume table. The table service is a script of responses, one per request
 * in order; a response is a refused request or a page with a body and the two
 * continuation headers. The loop stops after a page that lacks either token or
 * once `max_pages` pages have been fetched, and the source loops for as long
 * as the service keeps sending tokens, so the script is required to end the
 * loop.
 */
module ResumeListing {
  import opened Wrappers
  import opened Text
  import opened Json
  import opened Identifiers
  import MetadataStore

  /** A page body: empty, a parsed JSON document, or text that is not JSON. */
  datatype Body = NoContent | Parsed(payload: Value) | Unparseable

  /** One response of the table service. */
  datatype Response =
    | Failed
    | Page(body: Body, nextPk: Option<string>, nextRk: Option<string>)

  /** The dict `get_all_resumes` builds for each entity. */
  datatype Record = Record(code: Value, name: Value, description: Value, pageSize: Value,
                           createdAt: Value, blobUrl: Value)

  datatype ListError =
    | MissingSas          // ValueError: the table URL has no SAS query
    | QueryFailed         // HTTPError from raise_for_status
    | BadJson             // resp.json() on a body that is not JSON
    | PayloadNotDict      // the payload has no `.get`
    | ValuesNotIterable   // `value` is None, a boolean or a number
    | EntryNotDict        // an entry has no `.get`

  /** One GET: the table URL with its SAS query, `$top`, and the continuation tokens if sent. */
  datatype Query = Query(url: string, top: int, tokens: Option<(string, string)>)

  /** The record for one entity: code falls back to RowKey, name to NameSlug. */
  function Project(e: seq<(string, Value)>): Record
  {
    Record(Or(Get(e, "Code"), Get(e, "RowKey")), Or(Get(e, "OriginalName"), Get(e, "NameSlug")),
           Get(e, "Description"), Get(e, "PageSize"), Get(e, "CreatedAt"), Get(e, "BlobUrl"))
  }

  /** `payload`: the parsed body, `{}` for an empty body. */
  function Payload(body: Body): Result<Value, ListError>
  {
    match body
    case NoContent => Success(Obj([]))
    case Parsed(v) => Success(v)
    case Unparseable => Failure(BadJson)
  }

  /**
   * The entities `for e in values` visits and calls `.get` on. Iterating an
   * empty dict or string visits nothing; a non-empty one yields strings, which
   * have no `.get`.
   */
  function Entries(values: Value): (r: Result<seq<seq<(string, Value)>>, ListError>)
    ensures values.Arr? ==> (r.Success? <==> AllObjects(values.items))
    ensures values.Arr? && r.Success? ==>
      |r.value| == |values.items| && forall i :: 0 <= i < |r.value| ==> r.value[i] == values.items[i].fields
    ensures values.Obj? ==> r == if values.fields == [] then Success([]) else Failure(EntryNotDict)
    ensures values.Str? ==> r == if values.s == "" then Success([]) else Failure(EntryNotDict)
    ensures values.Null? || values.Bool? || values.Num? ==> r == Failure(ValuesNotIterable)
  {
    match values
    case Arr(items) =>
      if AllObjects(items) then Success(FieldsOf(items)) else Failure(EntryNotDict)
    case Obj(fields) => if fields == [] then Success([]) else Failure(EntryNotDict)
    case Str(s) => if s == "" then Success([]) else Failure(EntryNotDict)
    case _ => Failure(ValuesNotIterable)
  }

  predicate AllObjects(items: seq<Value>)
  {
    forall i :: 0 <= i < |items| ==> items[i].Obj?
  }

  /** The dicts of a list of dicts. */
  function FieldsOf(items: seq<Value>): (r: seq<seq<(string, Value)>>)
    requires AllObjects(items)
    ensures |r| == |items| && forall i :: 0 <= i < |items| ==> r[i] == items[i].fields
  {
    if items == [] then [] else FieldsOf(items[..|items| - 1]) + [items[|items| - 1].fields]
  }

  /** The record of each entity, in order. */
  function ProjectAll(es: seq<seq<(string, Value)>>): (r: seq<Record>)
    ensures |r| == |es| && forall i :: 0 <= i < |es| ==> r[i] == Project(es[i])
  {
    if es == [] then [] else ProjectAll(es[..|es| - 1]) + [Project(es[|es| - 1])]
  }

  /** The entities of one response, or the error its processing raises. */
  function PageEntries(resp: Response): Result<seq<seq<(string, Value)>>, ListError>
  {
    match resp
    case Failed => Failure(QueryFailed)
    case Page(body, _, _) =>
      match Payload(body)
      case Failure(e) => Failure(e)
      case Success(payload) =>
        if !payload.Obj? then Failure(PayloadNotDict)
        else
          var values := match Lookup(payload.fields, "value")
                        case Some(v) => v
                        case None => Arr([]);
          Entries(values)
  }

  /** The records one response contributes. */
  function PageRecords(resp: Response): (r: Result<seq<Record>, ListError>)
  {
    match PageEntries(resp)
    case Failure(e) => Failure(e)
    case Success(es) => Success(ProjectAll(es))
  }

  /**
   * A page whose `value` is a list of dicts contributes one record per dict,
   * in order, each the projection of its dict.
   */
  lemma PageRecordsOfList(resp: Response, fields: seq<(string, Value)>, items: seq<Value>)
    requires resp.Page? && resp.body == Parsed(Obj(fields))
    requires Lookup(fields, "value") == Some(Arr(items)) && AllObjects(items)
    ensures PageRecords(resp).Success?
    ensures |PageRecords(resp).value| == |items|
    ensures forall i :: 0 <= i < |items| ==> PageRecords(resp).value[i] == Project(items[i].fields)
  {
    assert PageEntries(resp) == Entries(Arr(items));
  }

  /** A page with an empty body, or without a `value` key, contributes no records. */
  lemma PageRecordsEmpty(resp: Response)
    requires resp.Page?
    requires resp.body.NoContent? || (resp.body.Parsed? && resp.body.payload.Obj? && Lookup(resp.body.payload.fields, "value").None?)
    ensures PageRecords(resp) == Success([])
  {
  }

  /** `if next_pk and next_rk`: both tokens, when both are set and non-empty. */
  function Tokens(nextPk: Option<string>, nextRk: Option<string>): Option<(string, string)>
  {
    if MetadataStore.IsSet(nextPk) && MetadataStore.IsSet(nextRk) then Some((nextPk.value, nextRk.value)) else None
  }

  /** The continuation a response carries in its two headers. */
  function Continuation(resp: Response): Option<(string, string)>
  {
    if resp.Page? then Tokens(resp.nextPk, resp.nextRk) else None
  }

  /** What the loop takes from one response: its records or error, and its continuation. */
  datatype Fetched = Fetched(records: Result<seq<Record>, ListError>, cont: Option<(string, string)>)

  function Fetch(resp: Response): Fetched
  {
    Fetched(PageRecords(resp), Continuation(resp))
  }

  /** `Fetch` of every response, in order. */
  function Fetches(responses: seq<Response>): (pages: seq<Fetched>)
    ensures |pages| == |responses| && forall k :: 0 <= k < |responses| ==> pages[k] == Fetch(responses[k])
  {
    if responses == [] then [] else Fetches(responses[..|responses| - 1]) + [Fetch(responses[|responses| - 1])]
  }

  /** After page `k` (zero-based) the loop breaks: no continuation, or `max_pages` reached. */
  predicate Stops(page: Fetched, k: nat, maxPages: Option<int>)
  {
    page.cont.None? || (maxPages.Some? && k + 1 >= maxPages.value)
  }

  /** The index of the last page the loop reads from `k` on, if the script reaches it. */
  function StopPage(pages: seq<Fetched>, maxPages: Option<int>, k: nat): (s: Option<nat>)
    ensures s.Some? ==> k <= s.value < |pages|
    decreases |pages| - k
  {
    if k >= |pages| then None
    else if pages[k].records.Failure? || Stops(pages[k], k, maxPages) then Some(k)
    else StopPage(pages, maxPages, k + 1)
  }

  /** The records of pages `k` to the stopping one, or the first error among them. */
  function ListFrom(pages: seq<Fetched>, maxPages: Option<int>, k: nat): Result<seq<Record>, ListError>
    requires StopPage(pages, maxPages, k).Some?
    decreases |pages| - k
  {
    match pages[k].records
    case Failure(e) => Failure(e)
    case Success(recs) =>
      if Stops(pages[k], k, maxPages) then Success(recs)
      else
        match ListFrom(pages, maxPages, k + 1)
        case Failure(e) => Failure(e)
        case Success(rest) => Success(recs + rest)
  }

  /** `pages` is what the loop takes from `responses`. */
  predicate FetchedFrom(responses: seq<Response>, pages: seq<Fetched>)
  {
    |pages| == |responses| && forall k {:trigger Fetch(responses[k])} :: 0 <= k < |responses| ==> Fetch(responses[k]) == pages[k]
  }

  /** The service's responses end the loop: it does not ask for pages forever. */
  predicate Halts(responses: seq<Response>, maxPages: Option<int>)
  {
    StopPage(Fetches(responses), maxPages, 0).Some?
  }

  /** Both table settings are set and the URL carries a SAS query: the loop runs. */
  predicate Queries(tableSasUrl: Option<string>, tableName: Option<string>)
  {
    MetadataStore.IsSet(tableSasUrl) && MetadataStore.IsSet(tableName) && '?' in tableSasUrl.value
  }

  /** `base_query_url`. */
  function BaseQueryUrl(tableSasUrl: string, tableName: string): string
    requires '?' in tableSasUrl
  {
    var (base, sas) := MetadataStore.SplitSas(tableSasUrl).value;
    MetadataStore.TableUrl(base, tableName) + "?" + sas
  }

  /** A failing page ends the loop with its error. */
  lemma ListFromFails(pages: seq<Fetched>, maxPages: Option<int>, k: nat)
    requires StopPage(pages, maxPages, k).Some? && pages[k].records.Failure?
    ensures StopPage(pages, maxPages, k) == Some(k)
    ensures ListFrom(pages, maxPages, k) == Failure(pages[k].records.error)
  {
  }

  /** A page after which the loop breaks contributes the last records. */
  lemma ListFromLast(pages: seq<Fetched>, maxPages: Option<int>, k: nat)
    requires StopPage(pages, maxPages, k).Some? && pages[k].records.Success?
    requires Stops(pages[k], k, maxPages)
    ensures StopPage(pages, maxPages, k) == Some(k)
    ensures ListFrom(pages, maxPages, k) == Success(pages[k].records.value)
  {
  }

  /** Otherwise the loop goes on with the next page. */
  lemma ListFromNext(pages: seq<Fetched>, maxPages: Option<int>, k: nat)
    requires StopPage(pages, maxPages, k).Some? && pages[k].records.Success?
    requires !Stops(pages[k], k, maxPages)
    ensures StopPage(pages, maxPages, k + 1) == StopPage(pages, maxPages, k)
    ensures ListFrom(pages, maxPages, k) == Prepend(pages[k].records.value, ListFrom(pages, maxPages, k + 1))
  {
  }

  /** What `get_all_resumes` returns or raises. */
  function ListResumes(tableSasUrl: Option<string>, tableName: Option<string>, maxPages: Option<int>,
                       responses: seq<Response>): Result<seq<Record>, ListError>
    requires Queries(tableSasUrl, tableName) ==> Halts(responses, maxPages)
  {
    if !MetadataStore.IsSet(tableSasUrl) || !MetadataStore.IsSet(tableName) then Success([])
    else if '?' !in tableSasUrl.value then Failure(MissingSas)
    else ListFrom(Fetches(responses), maxPages, 0)
  }

  /** `xs` in front of a successful result; an error stays the error. */
  function Prepend(xs: seq<Record>, r: Result<seq<Record>, ListError>): Result<seq<Record>, ListError>
  {
    match r
    case Failure(e) => Failure(e)
    case Success(ys) => Success(xs + ys)
  }

  /** The query the loop sends for response `k`: tokens only from the second request on. */
  function QueryFor(url: string, pageSize: int, responses: seq<Response>, k: nat): Query
    requires k < |responses|
  {
    Query(url, pageSize, if k == 0 then None else Continuation(responses[k - 1]))
  }

  /** The first `n` queries the loop sends. */
  function QueriesUpTo(url: string, pageSize: int, responses: seq<Response>, n: nat): (qs: seq<Query>)
    requires n <= |responses|
    ensures |qs| == n && forall k :: 0 <= k < n ==> qs[k] == QueryFor(url, pageSize, responses, k)
  {
    if n == 0 then [] else QueriesUpTo(url, pageSize, responses, n - 1) + [QueryFor(url, pageSize, responses, n - 1)]
  }

  // ---------------------------------------------------------------------------
  // The loop
  // ---------------------------------------------------------------------------

  /**
   * `get_all_resumes(page_size, max_pages)` over the settings and the
   * service's responses; also returns the queries it sends, in order.
   */
  method GetAllResumes(tableSasUrl: Option<string>, tableName: Option<string>, pageSize: int,
                       maxPages: Option<int>, responses: seq<Response>)
    returns (result: Result<seq<Record>, ListError>, queries: seq<Query>)
    requires Queries(tableSasUrl, tableName) ==> Halts(responses, maxPages)
    ensures result == ListResumes(tableSasUrl, tableName, maxPages, responses)
    ensures !MetadataStore.IsSet(tableSasUrl) || !MetadataStore.IsSet(tableName) ==> result == Success([]) && queries == []
    ensures MetadataStore.IsSet(tableSasUrl) && MetadataStore.IsSet(tableName) && '?' !in tableSasUrl.value ==>
      result == Failure(MissingSas) && queries == []
    ensures Queries(tableSasUrl, tableName) ==>
      queries == QueriesUpTo(BaseQueryUrl(tableSasUrl.value, tableName.value), pageSize, responses,
                             StopPage(Fetches(responses), maxPages, 0).value + 1)
  {
    queries := [];
    if tableSasUrl.None? || tableSasUrl.value == "" || tableName.None? || tableName.value == "" {
      return Success([]), queries;
    }
    if '?' !in tableSasUrl.value {
      return Failure(MissingSas), queries;
    }
    var url := BaseQueryUrl(tableSasUrl.value, tableName.value);
    result, queries := FetchAll(url, pageSize, maxPages, responses, Fetches(responses));
  }

  /** The `while True` loop: one request per iteration until a break. */
  method FetchAll(url: string, pageSize: int, maxPages: Option<int>, responses: seq<Response>,
                  ghost pages: seq<Fetched>)
    returns (result: Result<seq<Record>, ListError>, queries: seq<Query>)
    requires FetchedFrom(responses, pages)
    requires StopPage(pages, maxPages, 0).Some?
    ensures result == ListFrom(pages, maxPages, 0)
    ensures queries == QueriesUpTo(url, pageSize, responses, StopPage(pages, maxPages, 0).value + 1)
  {
    queries := [];
    ghost var stop := StopPage(pages, maxPages, 0).value;
    var resumes: seq<Record> := [];
    var nextPk: Option<string> := None;
    var nextRk: Option<string> := None;
    var pagesFetched := 0;
    assert Prepend([], ListFrom(pages, maxPages, 0)) == ListFrom(pages, maxPages, 0) by {
      if ListFrom(pages, maxPages, 0).Success? {
        assert [] + ListFrom(pages, maxPages, 0).value == ListFrom(pages, maxPages, 0).value;
      }
    }
    while true
      invariant pagesFetched <= stop
      invariant StopPage(pages, maxPages, pagesFetched) == Some(stop)
      invariant ListFrom(pages, maxPages, 0) == Prepend(resumes, ListFrom(pages, maxPages, pagesFetched))
      invariant Tokens(nextPk, nextRk) == if pagesFetched == 0 then None else Continuation(responses[pagesFetched - 1])
      invariant queries == QueriesUpTo(url, pageSize, responses, pagesFetched)
      decreases stop - pagesFetched
    {
      var tokens := Tokens(nextPk, nextRk);
      queries := queries + [Query(url, pageSize, tokens)];
      var resp := responses[pagesFetched];
      var page := DecodePage(responses, pagesFetched, pages);
      if page.Failure? {
        ListFromFails(pages, maxPages, pagesFetched);
        return Failure(page.error), queries;
      }
      ghost var before := resumes;
      resumes := resumes + page.value;
      nextPk := resp.nextPk;
      nextRk := resp.nextRk;
      pagesFetched := pagesFetched + 1;
      if nextPk.None? || nextPk.value == "" || nextRk.None? || nextRk.value == "" {
        ListFromLast(pages, maxPages, pagesFetched - 1);
        break;
      }
      if maxPages.Some? && pagesFetched >= maxPages.value {
        ListFromLast(pages, maxPages, pagesFetched - 1);
        break;
      }
      ListFromNext(pages, maxPages, pagesFetched - 1);
      PrependAppend(before, page.value, ListFrom(pages, maxPages, pagesFetched));
    }
    result := Success(resumes);
  }

  lemma PrependAppend(xs: seq<Record>, ys: seq<Record>, r: Result<seq<Record>, ListError>)
    ensures Prepend(xs, Prepend(ys, r)) == Prepend(xs + ys, r)
  {
    if r.Success? {
      assert xs + (ys + r.value) == xs + ys + r.value;
    }
  }

  /** The body of one iteration up to the records: parse, look up `value`, project each entity. */
  method DecodePage(responses: seq<Response>, k: nat, ghost pages: seq<Fetched>) returns (r: Result<seq<Record>, ListError>)
    requires FetchedFrom(responses, pages) && k < |responses|
    ensures r == pages[k].records && pages[k].cont == Continuation(responses[k])
    ensures r.Success? ==> responses[k].Page?
  {
    assert Fetch(responses[k]) == pages[k];
    var resp := responses[k];
    var entries := PageEntries(resp);
    if entries.Failure? {
      return Failure(entries.error);
    }
    var es := entries.value;
    var recs: seq<Record> := [];
    for i := 0 to |es|
      invariant recs == ProjectAll(es[..i])
    {
      recs := recs + [Project(es[i])];
      assert es[..i + 1][..i] == es[..i];
    }
    assert es[..|es|] == es;
    r := Success(recs);
  }

  // ---------------------------------------------------------------------------
  // Properties of the listing
  // ---------------------------------------------------------------------------

  /** Page `j` was read, carried both tokens and left `max_pages` unreached: the loop goes on. */
  predicate Continues(pages: seq<Fetched>, maxPages: Option<int>, j: nat)
    requires j < |pages|
  {
    pages[j].records.Success? && pages[j].cont.Some? && !(maxPages.Some? && j + 1 >= maxPages.value)
  }

  /**
   * The loop stops as soon as it may: every page before the stopping one was
   * read, carried both tokens and left `max_pages` unreached, and the stopping
   * page failed, lacked a token or reached `max_pages`.
   */
  lemma {:induction false} StopPageSpec(pages: seq<Fetched>, maxPages: Option<int>, k: nat)
    requires StopPage(pages, maxPages, k).Some?
    ensures forall j :: k <= j < StopPage(pages, maxPages, k).value ==> Continues(pages, maxPages, j)
    ensures !Continues(pages, maxPages, StopPage(pages, maxPages, k).value)
    decreases |pages| - k
  {
    if Continues(pages, maxPages, k) {
      assert StopPage(pages, maxPages, k) == StopPage(pages, maxPages, k + 1);
      StopPageSpec(pages, maxPages, k + 1);
    } else {
      assert StopPage(pages, maxPages, k) == Some(k);
    }
  }

  /** At most `max_pages` requests are sent, and always at least one. */
  lemma AtMostMaxPages(pages: seq<Fetched>, m: int)
    requires StopPage(pages, Some(m), 0).Some?
    ensures StopPage(pages, Some(m), 0).value + 1 <= if m < 1 then 1 else m
  {
    StopPageSpec(pages, Some(m), 0);
    var s := StopPage(pages, Some(m), 0).value;
    if s > 0 {
      var j := s - 1;
      assert Continues(pages, Some(m), j);
    }
  }

  /** With `max_pages` at most 1 the result is exactly the first page's. */
  lemma OnePage(pages: seq<Fetched>, m: int)
    requires m <= 1 && |pages| > 0
    ensures StopPage(pages, Some(m), 0) == Some(0)
    ensures ListFrom(pages, Some(m), 0) == pages[0].records
  {
  }

  /** The records of pages `lo` to `hi`, in page order. */
  function Collected(pages: seq<Fetched>, lo: nat, hi: nat): seq<Record>
    requires lo <= hi < |pages|
    requires forall j :: lo <= j <= hi ==> pages[j].records.Success?
    decreases hi - lo
  {
    if lo == hi then pages[lo].records.value
    else pages[lo].records.value + Collected(pages, lo + 1, hi)
  }

  /**
   * All or nothing: the result is an error exactly when the stopping page
   * failed, and then it is that page's error; otherwise it is the records of
   * every page read, concatenated in order.
   */
  lemma {:induction false} ListFromSpec(pages: seq<Fetched>, maxPages: Option<int>, k: nat)
    requires StopPage(pages, maxPages, k).Some?
    ensures var s := StopPage(pages, maxPages, k).value;
      && (ListFrom(pages, maxPages, k).Failure? <==> pages[s].records.Failure?)
      && (ListFrom(pages, maxPages, k).Failure? ==> ListFrom(pages, maxPages, k).error == pages[s].records.error)
      && (ListFrom(pages, maxPages, k).Success? ==>
            (forall j :: k <= j <= s ==> pages[j].records.Success?)
            && ListFrom(pages, maxPages, k).value == Collected(pages, k, s))
    decreases |pages| - k
  {
    var s := StopPage(pages, maxPages, k).value;
    if pages[k].records.Success? && !Stops(pages[k], k, maxPages) {
      ListFromSpec(pages, maxPages, k + 1);
    }
  }

  /**
   * The first request carries no tokens; every later one carries both tokens
   * of the page before it.
   */
  lemma QueryTokens(url: string, pageSize: int, maxPages: Option<int>, responses: seq<Response>)
    requires Halts(responses, maxPages)
    ensures var qs := QueriesUpTo(url, pageSize, responses, StopPage(Fetches(responses), maxPages, 0).value + 1);
      && qs[0].tokens.None?
      && forall k :: 0 < k < |qs| ==> qs[k].tokens.Some? && qs[k].tokens == Continuation(responses[k - 1])
  {
    var pages := Fetches(responses);
    var s := StopPage(pages, maxPages, 0).value;
    StopPageSpec(pages, maxPages, 0);
    var qs := QueriesUpTo(url, pageSize, responses, s + 1);
    forall k | 0 < k < |qs|
      ensures qs[k].tokens.Some? && qs[k].tokens == Continuation(responses[k - 1])
    {
      var j := k - 1;
      assert Continues(pages, maxPages, j);
      assert pages[j].cont == Continuation(responses[j]);
    }
  }

  /** What `persist_resume_metadata` stores is listed back with its code and original name, or "resume" for an empty name. */
  lemma PersistedRecord(originalName: string, code: string, blobUrl: string, pageSize: string,
                        createdAt: string, description: string)
    ensures Project(MetadataStore.MakeEntity(originalName, code, blobUrl, pageSize, createdAt, description)) ==
      Record(Str(code), Str(if originalName != "" then originalName else "resume"), Str(description),
             Str(pageSize), Str(createdAt), Str(blobUrl))
  {
    MetadataStore.MakeEntityFields(originalName, code, blobUrl, pageSize, createdAt, description);
    if originalName == "" {
      SlugifyBlank(originalName);
    }
  }
}
