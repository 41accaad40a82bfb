/** The curve agent's gateway client (`SerenPublisherClient` in
    curve/curve-gauge-yield-trader/scripts/agent.py): base-URL normalisation,
    one request to the gateway, a call to a named publisher, and the bounded
    walk over the paginated publisher catalogue. The HTTP exchange itself is
    the `Transport` parameter. */
module CurveClient {
  import opened Wrappers
  import opened Text
  import opened Json

  /** `ConfigError` and `PublisherError` of the agent; `Uncaught` stands for
      a Python error (TypeError, AttributeError, ValueError) the agent lets
      escape. */
  datatype Error =
    | ConfigError(message: string)
    | PublisherError(message: string)
    | Uncaught(message: string)

  /** One HTTP request as `urlopen` receives it. */
  datatype Request = Request(verb: string, url: string, headers: seq<(string, string)>, body: Option<Json>)

  /** What `urlopen` and `json.loads` make of one request. */
  datatype Reply =
    | HttpFailure(code: int, details: string)
    | ConnectionFailed(reason: string)
    | Received(payload: Json)
    | NotJson(raw: string)

  type Transport = Request -> Reply

  const DefaultApiBase := "https://api.serendb.com"

  datatype PublisherClient = PublisherClient(apiKey: string, baseUrl: string)

  // ---------------------------------------------------------------------
  // __init__
  // ---------------------------------------------------------------------

  /** Trailing slashes go, then a trailing `/v1/publishers`, then a trailing
      `/publishers`, then trailing slashes again. */
  function NormalizeBaseUrl(url: string): string {
    var trimmed := RStripChar(url, '/');
    var noVersioned := if EndsWith(trimmed, "/v1/publishers") then trimmed[..|trimmed| - 14] else trimmed;
    var noPublishers := if EndsWith(noVersioned, "/publishers") then noVersioned[..|noVersioned| - 11] else noVersioned;
    RStripChar(noPublishers, '/')
  }

  function NewPublisherClient(apiKey: string, baseUrl: string): (c: PublisherClient)
    ensures c.apiKey == apiKey
    ensures c.baseUrl <= baseUrl
    ensures c.baseUrl == [] || c.baseUrl[|c.baseUrl| - 1] != '/'
  {
    PublisherClient(apiKey, NormalizeBaseUrl(baseUrl))
  }

  function Slashes(n: nat): (r: string)
    ensures |r| == n && forall i :: 0 <= i < n ==> r[i] == '/'
  {
    seq(n, _ => '/')
  }

  lemma {:induction false} RStripSlashes(s: string, n: nat)
    requires s == [] || s[|s| - 1] != '/'
    ensures RStripChar(s + Slashes(n), '/') == s
    decreases n
  {
    if n > 0 {
      assert (s + Slashes(n))[..|s| + n - 1] == s + Slashes(n - 1);
      RStripSlashes(s, n - 1);
    } else {
      assert s + Slashes(0) == s;
    }
  }

  lemma EndsWithConcat(host: string, suffix: string, tail: string)
    requires EndsWith(tail, suffix)
    ensures EndsWith(host + suffix, tail) ==> EndsWith(host, tail[..|tail| - |suffix|])
  {
    if EndsWith(host + suffix, tail) {
      var hs := host + suffix;
      var n := |tail| - |suffix|;
      assert host[|host| - n..] == hs[|hs| - |tail|..][..n];
    }
  }

  lemma EndsWithTail(s: string, t: string, k: nat)
    requires k <= |t|
    ensures EndsWith(s, t) ==> EndsWith(s, t[k..])
  {
    if EndsWith(s, t) {
      assert s[|s| - |t[k..]|..] == s[|s| - |t|..][k..];
    }
  }

  /** The preconditions on a bare gateway host: no trailing slash and none
      of the suffixes the client strips. */
  predicate BareHost(host: string) {
    (host == [] || host[|host| - 1] != '/') && !EndsWith(host, "/publishers") && !EndsWith(host, "/v1")
  }

  lemma NormalizeBareHost(host: string, slashes: nat)
    requires BareHost(host)
    ensures NormalizeBaseUrl(host + Slashes(slashes)) == host
  {
    RStripSlashes(host, slashes);
    EndsWithTail(host, "/v1/publishers", 3);
    assert "/v1/publishers"[3..] == "/publishers";
    RStripSlashes(host, 0);
    assert host + Slashes(0) == host;
  }

  lemma NormalizeHostPublishers(host: string, slashes: nat)
    requires BareHost(host)
    ensures NormalizeBaseUrl(host + "/publishers" + Slashes(slashes)) == host
  {
    var hs := host + "/publishers";
    assert hs[|hs| - 1] == "/publishers"[10];
    RStripSlashes(hs, slashes);
    EndsWithConcat(host, "/publishers", "/v1/publishers");
    assert "/v1/publishers"[..3] == "/v1";
    assert EndsWith(hs, "/publishers");
    assert hs[..|hs| - 11] == host;
    RStripSlashes(host, 0);
    assert host + Slashes(0) == host;
  }

  lemma NormalizeHostVersioned(host: string, slashes: nat)
    requires BareHost(host)
    ensures NormalizeBaseUrl(host + "/v1/publishers" + Slashes(slashes)) == host
  {
    var hs := host + "/v1/publishers";
    assert hs[|hs| - 1] == "/v1/publishers"[13];
    RStripSlashes(hs, slashes);
    assert EndsWith(hs, "/v1/publishers");
    assert hs[..|hs| - 14] == host;
    RStripSlashes(host, 0);
    assert host + Slashes(0) == host;
  }

  /** A gateway host given with any of the publisher suffixes the client
      accepts, and any number of trailing slashes, normalises to the host. */
  lemma NormalizeDropsPublishersSuffix(host: string, suffix: string, slashes: nat)
    requires BareHost(host)
    requires suffix == "" || suffix == "/publishers" || suffix == "/v1/publishers"
    ensures NormalizeBaseUrl(host + suffix + Slashes(slashes)) == host
  {
    if suffix == "/v1/publishers" {
      NormalizeHostVersioned(host, slashes);
    } else if suffix == "/publishers" {
      NormalizeHostPublishers(host, slashes);
    } else {
      assert host + suffix == host;
      NormalizeBareHost(host, slashes);
    }
  }

  // ---------------------------------------------------------------------
  // _request and call
  // ---------------------------------------------------------------------

  /** The path `_request` and `call` use: a path that already starts with
      '/' is kept, any other gets one '/' in front. */
  function PathWithSlash(path: string): (p: string)
    ensures StartsWith(p, "/")
    ensures p == path <==> StartsWith(path, "/")
    ensures p != path ==> p == "/" + path
  {
    if StartsWith(path, "/") then path else "/" + path
  }

  function GatewayHeaders(c: PublisherClient): seq<(string, string)> {
    [("Authorization", "Bearer " + c.apiKey),
     ("Content-Type", "application/json"),
     ("Accept", "application/json")]
  }

  /** The request `_request` hands to `urlopen`: a body only for methods
      other than GET. */
  function BuildRequest(c: PublisherClient, verb: string, path: string, body: Fields): Request {
    var upperVerb := Upper(verb);
    Request(upperVerb, c.baseUrl + PathWithSlash(path), GatewayHeaders(c),
            if upperVerb != "GET" then Some(Obj(body)) else None)
  }

  /** `_request`: the decoded reply when it is a JSON object, a
      `PublisherError` otherwise. */
  function Send(c: PublisherClient, t: Transport, verb: string, path: string, body: Fields): (r: Result<Fields, Error>)
    ensures r.Err? ==> r.error.PublisherError?
    ensures r.Ok? <==> t(BuildRequest(c, verb, path, body)).Received? && t(BuildRequest(c, verb, path, body)).payload.Obj?
    ensures r.Ok? ==> Obj(r.value) == t(BuildRequest(c, verb, path, body)).payload
  {
    var p := PathWithSlash(path);
    match t(BuildRequest(c, verb, path, body))
    case HttpFailure(code, details) => Err(PublisherError("HTTP " + IntToString(code) + " on " + p + ": " + details))
    case ConnectionFailed(reason) => Err(PublisherError("Connection failed on " + p + ": " + reason))
    case NotJson(raw) => Err(PublisherError("Invalid JSON from " + p + ": " + Take(raw, 200)))
    case Received(v) =>
      if v.Obj? then Ok(v.fields) else Err(PublisherError("Response from " + p + " was not an object"))
  }

  function PublisherPath(publisher: string, path: string): string {
    "/publishers/" + publisher + PathWithSlash(path)
  }

  function CallRequest(c: PublisherClient, publisher: string, verb: string, path: string, body: Fields): Request {
    BuildRequest(c, verb, PublisherPath(publisher, path), body)
  }

  /** `call`: one request to `{base_url}/publishers/{publisher}{path}`; its
      result is the object the gateway answered with, and every failure is a
      `PublisherError` whose message starts with the publisher's name. */
  function Call(c: PublisherClient, t: Transport, publisher: string, verb: string, path: string, body: Fields): (r: Result<Fields, Error>)
    ensures r.Ok? <==> t(CallRequest(c, publisher, verb, path, body)).Received? && t(CallRequest(c, publisher, verb, path, body)).payload.Obj?
    ensures r.Ok? ==> Obj(r.value) == t(CallRequest(c, publisher, verb, path, body)).payload
    ensures r.Err? ==> r.error.PublisherError? && StartsWith(r.error.message, publisher + " ")
    ensures CallRequest(c, publisher, verb, path, body).url == c.baseUrl + "/publishers/" + publisher + PathWithSlash(path)
    ensures ("Authorization", "Bearer " + c.apiKey) in CallRequest(c, publisher, verb, path, body).headers
  {
    var target := PublisherPath(publisher, path);
    assert PathWithSlash(target) == target;
    match Send(c, t, verb, target, body)
    case Ok(v) => Ok(v)
    case Err(e) =>
      var m := publisher + " " + e.message;
      assert m[..|publisher + " "|] == publisher + " ";
      Err(PublisherError(m))
  }

  // ---------------------------------------------------------------------
  // list_publishers
  // ---------------------------------------------------------------------

  const MissingDataList := "Invalid publisher catalog response: missing data list."

  /** `"/publishers?" + urlencode({"limit": limit, "offset": offset})` */
  function PagePath(limit: int, offset: int): string {
    "/publishers?limit=" + IntToString(limit) + "&offset=" + IntToString(offset)
  }

  function PageRequest(c: PublisherClient, limit: int, offset: int): Request {
    BuildRequest(c, "GET", PagePath(limit, offset), [])
  }

  /** The dict items of a page, in order. */
  function KeepObjects(items: seq<Json>): (r: seq<Json>)
    ensures |r| <= |items|
    ensures forall k :: 0 <= k < |r| ==> r[k].Obj?
    ensures forall x :: x in r <==> x in items && x.Obj?
    decreases |items|
  {
    if items == [] then []
    else (if items[0].Obj? then [items[0]] else []) + KeepObjects(items[1..])
  }

  /** The filter keeps order and multiplicity: it works item by item, a
      dict being kept and anything else dropped. */
  lemma {:induction false} KeepObjectsAppend(a: seq<Json>, b: seq<Json>)
    ensures KeepObjects(a + b) == KeepObjects(a) + KeepObjects(b)
    decreases |a|
  {
    if a == [] {
      assert a + b == b;
    } else {
      TailOfAppend(a, b);
      KeepObjectsAppend(a[1..], b);
    }
  }

  /** On one item the filter keeps it exactly when it is a dict. */
  lemma KeepObjectsOne(x: Json)
    ensures KeepObjects([x]) == if x.Obj? then [x] else []
  {
    assert [x][1..] == [];
  }

  /** How far the offset moves: `pagination.count` when it is a positive int
      (Python counts `True` as the int 1), else the number of kept items. */
  function Advance(count: Json, kept: nat): (r: int)
    ensures count.Int? && count.i > 0 ==> r == count.i
    ensures count == Bool(true) ==> r == 1
    ensures !(count.Int? && count.i > 0) && count != Bool(true) ==> r == kept
    ensures kept > 0 ==> r > 0
  {
    match count
    case Int(n) => if n > 0 then n else kept
    case Bool(b) => if b then 1 else kept
    case _ => kept
  }

  /** What the loop makes of one page. */
  datatype Page =
    | PageFailed(error: Error)
    | FinalPage(items: seq<Json>)
    | MorePages(items: seq<Json>, advance: int)

  /** `payload.get("data")` */
  function PageData(payload: Fields): Json {
    Get(payload, "data", Null)
  }

  /** `payload.get("pagination", {})` */
  function Pagination(payload: Fields): Json {
    Get(payload, "pagination", Obj([]))
  }

  /** `has_more`: false unless the pagination is a dict whose `has_more` is
      truthy. */
  predicate HasMore(payload: Fields) {
    Pagination(payload).Obj? && Truthy(Get(Pagination(payload).fields, "has_more", Null))
  }

  /** One iteration of `list_publishers`: a failed request or a `data` entry
      that is not a list fails the walk; otherwise the page's dicts are
      kept, and the walk goes on exactly when `has_more` is truthy and the
      page kept a dict, moving by `Advance` of `pagination.count`. */
  function ReadPage(reply: Result<Fields, Error>): (p: Page)
    ensures reply.Err? ==> p == PageFailed(reply.error)
    ensures reply.Ok? && !PageData(reply.value).Arr? ==> p == PageFailed(PublisherError(MissingDataList))
    ensures p.PageFailed? <==> reply.Err? || !PageData(reply.value).Arr?
    ensures !p.PageFailed? ==> p.items == KeepObjects(PageData(reply.value).items)
    ensures p.MorePages? <==> reply.Ok? && PageData(reply.value).Arr? && HasMore(reply.value)
                              && KeepObjects(PageData(reply.value).items) != []
    ensures p.MorePages? ==> p.advance == Advance(Get(Pagination(reply.value).fields, "count", Null), |p.items|)
    ensures p.MorePages? ==> p.items != [] && p.advance > 0
    ensures !p.PageFailed? ==> forall k :: 0 <= k < |p.items| ==> p.items[k].Obj?
  {
    match reply
    case Err(e) => PageFailed(e)
    case Ok(payload) =>
      var data := PageData(payload);
      if !data.Arr? then PageFailed(PublisherError(MissingDataList))
      else
        var items := KeepObjects(data.items);
        if !HasMore(payload) || items == [] then FinalPage(items)
        else MorePages(items, Advance(Get(Pagination(payload).fields, "count", Null), |items|))
  }

  /** The catalogue walk: what it returns and the offsets it requested. */
  datatype Catalog = Catalog(outcome: Result<seq<Json>, Error>, offsets: seq<int>)

  /** The page the gateway serves at one offset. */
  function FetchPage(c: PublisherClient, t: Transport, limit: int, offset: int): Page {
    ReadPage(Send(c, t, "GET", PagePath(limit, offset), []))
  }

  function Served(c: PublisherClient, t: Transport, limit: int): int -> Page {
    offset => FetchPage(c, t, limit, offset)
  }

  /** The walk over the pages `fetch` serves, from `offset` on, with at most
      `pagesLeft` more requests. */
  function Paging(fetch: int -> Page, offset: int, pagesLeft: nat, found: seq<Json>, offsets: seq<int>): Catalog
    decreases pagesLeft
  {
    if pagesLeft == 0 then Catalog(Ok(found), offsets)
    else
      match fetch(offset)
      case PageFailed(e) => Catalog(Err(e), offsets + [offset])
      case FinalPage(items) => Catalog(Ok(found + items), offsets + [offset])
      case MorePages(items, advance) =>
        Paging(fetch, offset + advance, pagesLeft - 1, found + items, offsets + [offset])
  }

  function PageBudget(maxPages: int): nat {
    if maxPages > 0 then maxPages else 0
  }

  /** The whole walk over the pages `fetch` serves. */
  function CatalogOf(fetch: int -> Page, maxPages: int): Catalog {
    Paging(fetch, 0, PageBudget(maxPages), [], [])
  }

  /** What every page read by `ReadPage` satisfies. */
  ghost predicate PagesWellFormed(fetch: int -> Page) {
    forall offset ::
      (fetch(offset).MorePages? ==> fetch(offset).items != [] && fetch(offset).advance > 0) &&
      (!fetch(offset).PageFailed? ==> forall k :: 0 <= k < |fetch(offset).items| ==> fetch(offset).items[k].Obj?)
  }

  lemma ServedPagesWellFormed(c: PublisherClient, t: Transport, limit: int)
    ensures PagesWellFormed(Served(c, t, limit))
  {
    forall offset: int
      ensures Served(c, t, limit)(offset) == ReadPage(Send(c, t, "GET", PagePath(limit, offset), []))
    {
    }
  }

  lemma {:induction false} PagingBound(fetch: int -> Page, offset: int, pagesLeft: nat, found: seq<Json>, offsets: seq<int>)
    ensures var w := Paging(fetch, offset, pagesLeft, found, offsets);
            |w.offsets| <= |offsets| + pagesLeft
    ensures var w := Paging(fetch, offset, pagesLeft, found, offsets);
            pagesLeft == 0 ==> w.offsets == offsets
    ensures var w := Paging(fetch, offset, pagesLeft, found, offsets);
            pagesLeft > 0 ==> |w.offsets| > |offsets| && w.offsets[..|offsets| + 1] == offsets + [offset]
    decreases pagesLeft
  {
    if pagesLeft > 0 {
      var next := offsets + [offset];
      match fetch(offset)
      case MorePages(items, advance) =>
        PagingBound(fetch, offset + advance, pagesLeft - 1, found + items, next);
        var w := Paging(fetch, offset, pagesLeft, found, offsets);
        if pagesLeft > 1 {
          assert w.offsets[..|next|] == w.offsets[..|next| + 1][..|next|];
        } else {
          assert w.offsets == next;
        }
      case PageFailed(_) =>
        assert next[..|offsets| + 1] == next;
      case FinalPage(_) =>
        assert next[..|offsets| + 1] == next;
    }
  }

  /** At most `max_pages` requests, and none at all when it is not positive. */
  lemma CatalogRequestBound(fetch: int -> Page, maxPages: int)
    ensures |CatalogOf(fetch, maxPages).offsets| <= PageBudget(maxPages)
    ensures maxPages > 0 ==> |CatalogOf(fetch, maxPages).offsets| > 0 && CatalogOf(fetch, maxPages).offsets[0] == 0
  {
    PagingBound(fetch, 0, PageBudget(maxPages), [], []);
  }

  lemma {:induction false} PagingKeepsObjects(fetch: int -> Page, offset: int, pagesLeft: nat, found: seq<Json>, offsets: seq<int>)
    requires PagesWellFormed(fetch)
    requires forall k :: 0 <= k < |found| ==> found[k].Obj?
    ensures var w := Paging(fetch, offset, pagesLeft, found, offsets);
            w.outcome.Ok? ==> forall k :: 0 <= k < |w.outcome.value| ==> w.outcome.value[k].Obj?
    decreases pagesLeft
  {
    if pagesLeft > 0 {
      match fetch(offset)
      case MorePages(items, advance) =>
        PagingKeepsObjects(fetch, offset + advance, pagesLeft - 1, found + items, offsets + [offset]);
      case FinalPage(items) =>
      case PageFailed(_) =>
    }
  }

  /** The catalogue holds only dict items. */
  lemma CatalogHoldsOnlyObjects(fetch: int -> Page, maxPages: int)
    requires PagesWellFormed(fetch)
    ensures var w := CatalogOf(fetch, maxPages);
            w.outcome.Ok? ==> forall k :: 0 <= k < |w.outcome.value| ==> w.outcome.value[k].Obj?
  {
    PagingKeepsObjects(fetch, 0, PageBudget(maxPages), [], []);
  }

  predicate StrictlyIncreasing(s: seq<int>) {
    forall i, j :: 0 <= i < j < |s| ==> s[i] < s[j]
  }

  lemma {:induction false} PagingOffsetsIncrease(fetch: int -> Page, offset: int, pagesLeft: nat, found: seq<Json>, offsets: seq<int>)
    requires PagesWellFormed(fetch)
    requires StrictlyIncreasing(offsets)
    requires forall k :: 0 <= k < |offsets| ==> offsets[k] < offset
    ensures StrictlyIncreasing(Paging(fetch, offset, pagesLeft, found, offsets).offsets)
    decreases pagesLeft
  {
    if pagesLeft > 0 {
      var next := offsets + [offset];
      assert StrictlyIncreasing(next);
      match fetch(offset)
      case MorePages(items, advance) =>
        PagingOffsetsIncrease(fetch, offset + advance, pagesLeft - 1, found + items, next);
      case FinalPage(_) =>
      case PageFailed(_) =>
    }
  }

  /** The walk starts at offset 0 and never requests the same offset twice:
      each page moves the offset forward. */
  lemma CatalogOffsetsIncrease(fetch: int -> Page, maxPages: int)
    requires PagesWellFormed(fetch)
    ensures var w := CatalogOf(fetch, maxPages);
            StrictlyIncreasing(w.offsets) && (maxPages > 0 ==> w.offsets != [] && w.offsets[0] == 0)
  {
    PagingOffsetsIncrease(fetch, 0, PageBudget(maxPages), [], []);
    CatalogRequestBound(fetch, maxPages);
  }

  /** A page that holds no dict item ends the walk after that one request,
      whatever `has_more` says. */
  lemma EmptyPageEndsCatalog(c: PublisherClient, t: Transport, limit: int, maxPages: int)
    requires maxPages > 0
    requires var reply := Send(c, t, "GET", PagePath(limit, 0), []);
             reply.Ok? && Get(reply.value, "data", Null).Arr? && KeepObjects(Get(reply.value, "data", Null).items) == []
    ensures CatalogOf(Served(c, t, limit), maxPages) == Catalog(Ok([]), [0])
  {
    var fetch := Served(c, t, limit);
    assert fetch(0) == FinalPage([]);
    assert CatalogOf(fetch, maxPages) == Paging(fetch, 0, maxPages, [], []);
    var none: seq<Json> := [];
    assert Paging(fetch, 0, maxPages, [], []) == Catalog(Ok(none + none), [] + [0]);
    assert none + none == none && [] + [0] == [0];
  }

  /** The loop of `list_publishers`, over the pages `fetch` serves: one
      request per iteration, at most `max_pages` of them. */
  method WalkCatalog(fetch: int -> Page, maxPages: int)
    returns (publishers: Result<seq<Json>, Error>, offsets: seq<int>)
    ensures Catalog(publishers, offsets) == CatalogOf(fetch, maxPages)
    ensures |offsets| <= PageBudget(maxPages)
  {
    CatalogRequestBound(fetch, maxPages);
    var pages := PageBudget(maxPages);
    var found: seq<Json> := [];
    var offset := 0;
    offsets := [];
    var n := 0;
    while n < pages
      invariant 0 <= n <= pages
      invariant CatalogOf(fetch, maxPages) == Paging(fetch, offset, pages - n, found, offsets)
    {
      var page := fetch(offset);
      offsets := offsets + [offset];
      match page
      case PageFailed(e) =>
        return Err(e), offsets;
      case FinalPage(items) =>
        return Ok(found + items), offsets;
      case MorePages(items, advance) =>
        found := found + items;
        offset := offset + advance;
      n := n + 1;
    }
    publishers := Ok(found);
  }

  /** `list_publishers`: the catalogue walk over the gateway's pages; every
      publisher it returns is a dict. */
  method ListPublishers(c: PublisherClient, t: Transport, limit: int, maxPages: int)
    returns (publishers: Result<seq<Json>, Error>, offsets: seq<int>)
    ensures Catalog(publishers, offsets) == CatalogOf(Served(c, t, limit), maxPages)
    ensures |offsets| <= PageBudget(maxPages)
    ensures publishers.Ok? ==> forall k :: 0 <= k < |publishers.value| ==> publishers.value[k].Obj?
  {
    ServedPagesWellFormed(c, t, limit);
    CatalogHoldsOnlyObjects(Served(c, t, limit), maxPages);
    publishers, offsets := WalkCatalog(Served(c, t, limit), maxPages);
  }
}
