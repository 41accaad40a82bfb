/** The Coinbase Exchange client that goes through the Seren gateway
    (`SerenClient` in coinbase/grid-trader/scripts/seren_client.py): the
    choice between publisher-side authentication and signed CB-ACCESS-*
    headers, the request it builds, how it reads the HTTP status and the
    gateway envelope, and the product filters and the best-effort
    cancellation loop built on it. HTTP itself is the `Transport` parameter,
    HMAC-SHA256 with base64 the `Hmac` parameter, and `time.time()` a
    timestamp string passed in. */
module Coinbase {
  import opened Wrappers
  import opened Text
  import opened Json

  const Publisher := "coinbase-trading"
  const DefaultBaseUrl := "https://api.serendb.com"
  const LegacyNeedsCredentials := "Legacy Coinbase header mode requires CB_ACCESS_KEY, CB_ACCESS_SECRET, and CB_ACCESS_PASSPHRASE"
  const PublisherAuthenticatedMode := "publisher_authenticated"
  const DirectHeadersMode := "direct_coinbase_headers"
  const KeychainAuthFailed := "Coinbase publisher authentication failed in desktop keychain mode. Configure the Coinbase publisher API key in Seren Desktop Settings and ensure the publisher is enabled."

  /** What the client raises. */
  datatype Failure =
    | ValueError(message: string)
      /** The `HTTPError` for a 401 or 403 with publisher-side authentication;
          its message is `KeychainAuthFailed`. */
    | KeychainError(status: int)
      /** The `HTTPError` of `raise_for_status`. */
    | StatusError(status: int)
      /** An exception from the transport or from decoding the response. */
    | Raised(message: string)
      /** `x.get` on an item that is not a dict. */
    | NoGetMethod(item: Json)
      /** `for x in value` on a value that cannot be iterated. */
    | NotIterable(value: Json)

  datatype SerenClient = SerenClient(
    serenApiKey: string, accessKey: Option<string>, secret: Option<string>, passphrase: Option<string>,
    baseUrl: string, publisherAuthenticated: bool, authMode: string)

  // ---------------------------------------------------------------------
  // __init__
  // ---------------------------------------------------------------------

  /** A credential that is given and not empty. */
  predicate Given(x: Option<string>) {
    x.Some? && x.value != []
  }

  predicate HasDirectCredentials(accessKey: Option<string>, secret: Option<string>, passphrase: Option<string>) {
    Given(accessKey) && Given(secret) && Given(passphrase)
  }

  /** `SerenClient(...)`: publisher-side authentication when asked for, or,
      when not asked either way, exactly when a Coinbase credential is
      missing; signed headers without all three credentials are refused. */
  function NewSerenClient(serenApiKey: string, accessKey: Option<string>, secret: Option<string>,
                          passphrase: Option<string>, baseUrl: string, publisherAuthenticated: Option<bool>)
    : (r: Result<SerenClient, Failure>)
    ensures var direct := HasDirectCredentials(accessKey, secret, passphrase);
            (r.Err? <==> publisherAuthenticated == Some(false) && !direct)
            && (r.Err? ==> r.error == ValueError(LegacyNeedsCredentials))
            && (r.Ok? ==> r.value.publisherAuthenticated
                          == (if publisherAuthenticated.None? then !direct else publisherAuthenticated.value))
    ensures r.Ok? ==> (r.value.authMode == PublisherAuthenticatedMode <==> r.value.publisherAuthenticated)
                      && (r.value.authMode == DirectHeadersMode <==> !r.value.publisherAuthenticated)
    ensures r.Ok? && !r.value.publisherAuthenticated ==>
              HasDirectCredentials(r.value.accessKey, r.value.secret, r.value.passphrase)
    ensures r.Ok? ==> r.value.serenApiKey == serenApiKey && r.value.baseUrl == baseUrl
                      && r.value.accessKey == accessKey && r.value.secret == secret
                      && r.value.passphrase == passphrase
  {
    var direct := HasDirectCredentials(accessKey, secret, passphrase);
    var viaPublisher := if publisherAuthenticated.None? then !direct else publisherAuthenticated.value;
    if !viaPublisher && !direct then Err(ValueError(LegacyNeedsCredentials))
    else
      Ok(SerenClient(serenApiKey, accessKey, secret, passphrase, baseUrl, viaPublisher,
                     if viaPublisher then PublisherAuthenticatedMode else DirectHeadersMode))
  }

  // ---------------------------------------------------------------------
  // _sign
  // ---------------------------------------------------------------------

  /** `b64encode(hmac(b64decode(secret), message, sha256))`, given the secret
      and the message. */
  type Hmac = (string, string) -> string

  /** The text Coinbase signs: the timestamp, the upper-cased method, the
      path with its query string, and the body text. */
  function SigningMessage(timestamp: string, verb: string, path: string, bodyText: string): (m: string)
    ensures |m| == |timestamp| + |verb| + |path| + |bodyText|
  {
    timestamp + Upper(verb) + path + bodyText
  }

  /** The message splits back into its four parts at the known lengths of
      the timestamp and the method. */
  lemma SigningMessageParts(timestamp: string, verb: string, path: string, bodyText: string)
    ensures var m := SigningMessage(timestamp, verb, path, bodyText);
            m[..|timestamp|] == timestamp
            && m[|timestamp|..|timestamp| + |verb|] == Upper(verb)
            && m[|timestamp| + |verb|..] == path + bodyText
  {
    var m := SigningMessage(timestamp, verb, path, bodyText);
    assert m == timestamp + Upper(verb) + (path + bodyText);
  }

  /** The method is signed upper-cased, so its case does not change the
      signature. */
  lemma SigningIgnoresMethodCase(timestamp: string, verb: string, path: string, bodyText: string)
    ensures SigningMessage(timestamp, verb, path, bodyText) == SigningMessage(timestamp, Upper(verb), path, bodyText)
  {
    UpperIdempotent(verb);
  }

  /** `(signature_b64, timestamp)` */
  datatype Signature = Signature(signature: string, timestamp: string)

  /** `_sign(method, path, body_str)`: the timestamp it returns is the one it
      signed. */
  function Sign(c: SerenClient, hmac: Hmac, timestamp: string, verb: string, path: string, bodyText: string)
    : (r: Signature)
    ensures r.timestamp == timestamp
    ensures r.signature == hmac(OrEmpty(c.secret), SigningMessage(r.timestamp, verb, path, bodyText))
  {
    Signature(hmac(OrEmpty(c.secret), SigningMessage(timestamp, verb, path, bodyText)), timestamp)
  }

  /** `x or ''` */
  // ---------------------------------------------------------------------
  // _call: the request
  // ---------------------------------------------------------------------

  /** One `_call(method, path, body, params)`. */
  datatype ApiCall = ApiCall(verb: string, path: string, body: Option<Fields>, params: Option<Fields>)

  /** What `requests.request` is given. */
  datatype HttpRequest = HttpRequest(verb: string, url: string, headers: seq<(string, string)>,
                                     data: Option<string>, params: Option<Fields>)

  /** The gateway URL of a Coinbase path. */
  function RequestUrl(c: SerenClient, path: string): (url: string)
    ensures |url| == |c.baseUrl| + |"/publishers/coinbase-trading"| + |path|
    ensures url[..|c.baseUrl|] == c.baseUrl
    ensures url[|c.baseUrl|..] == "/publishers/coinbase-trading" + path
  {
    var url := c.baseUrl + "/publishers/" + Publisher + path;
    assert url == c.baseUrl + ("/publishers/coinbase-trading" + path);
    url
  }

  /** `json.dumps(body) if body else ''`: empty exactly when there is no
      body or the body is an empty dict. */
  function BodyText(body: Option<Fields>): (r: string)
    ensures r == [] <==> body.None? || body.value == []
  {
    if body.Some? && body.value != [] then Dumps(Obj(body.value)) else ""
  }

  /** `f'{k}={v}'` for each parameter, in order. */
  function ParamPairs(params: Fields): (r: seq<string>)
    ensures |r| == |params|
    ensures forall k :: 0 <= k < |params| ==> r[k] == params[k].0 + "=" + Display(params[k].1)
  {
    seq(|params|, k requires 0 <= k < |params| => params[k].0 + "=" + Display(params[k].1))
  }

  /** The query string signed with the path: empty without parameters,
      otherwise `?` and the `k=v` pairs joined by `&`. */
  function QueryString(params: Option<Fields>): (q: string)
    ensures q == [] <==> params.None? || params.value == []
    ensures q != [] ==> q[0] == '?'
  {
    if params.Some? && params.value != [] then "?" + Join("&", ParamPairs(params.value)) else ""
  }

  /** The query string reads back as its `k=v` pairs, in the parameters'
      order, when no key or value holds an `&`. */
  lemma QueryStringSplits(params: Fields)
    requires params != []
    requires forall k :: 0 <= k < |params| ==> '&' !in ParamPairs(params)[k]
    ensures QueryString(Some(params))[0] == '?'
    ensures Split(QueryString(Some(params))[1..], '&') == ParamPairs(params)
  {
    var q := QueryString(Some(params));
    assert q[1..] == Join(['&'], ParamPairs(params));
    SplitJoin(ParamPairs(params), '&');
  }

  /** Every parameter can be read off the signed query string. */
  lemma QueryHoldsEachParam(params: Fields, k: nat)
    requires k < |params|
    ensures Contains(QueryString(Some(params)), params[k].0 + "=" + Display(params[k].1))
  {
    var pairs := ParamPairs(params);
    JoinContainsEach("&", pairs, k);
    ContainsInSuffix("?", Join("&", pairs), pairs[k]);
  }

  function BaseHeaders(c: SerenClient): seq<(string, string)> {
    [("Authorization", "Bearer " + c.serenApiKey), ("Content-Type", "application/json")]
  }

  function SignedHeaders(c: SerenClient, sig: Signature): seq<(string, string)> {
    [("CB-ACCESS-KEY", OrEmpty(c.accessKey)), ("CB-ACCESS-SIGN", sig.signature),
     ("CB-ACCESS-TIMESTAMP", sig.timestamp), ("CB-ACCESS-PASSPHRASE", OrEmpty(c.passphrase))]
  }

  /** The request `_call` sends. */
  function RequestFor(c: SerenClient, hmac: Hmac, timestamp: string, call: ApiCall): (r: HttpRequest)
    ensures r.verb == call.verb && r.url == RequestUrl(c, call.path) && r.params == call.params
    ensures r.data.None? <==> BodyText(call.body) == []
    ensures r.data.Some? ==> r.data.value == BodyText(call.body)
  {
    var bodyText := BodyText(call.body);
    var headers :=
      if c.publisherAuthenticated then BaseHeaders(c)
      else BaseHeaders(c) + SignedHeaders(c, Sign(c, hmac, timestamp, call.verb, call.path + QueryString(call.params), bodyText));
    HttpRequest(call.verb, RequestUrl(c, call.path), headers, if bodyText != [] then Some(bodyText) else None, call.params)
  }

  /** With publisher-side authentication only the bearer token and the
      content type are sent; with signed headers the four CB-ACCESS-*
      headers follow them, the signature covering the timestamp, the method,
      the path with its query string and the body. */
  lemma RequestHeaders(c: SerenClient, hmac: Hmac, timestamp: string, call: ApiCall)
    ensures var h := RequestFor(c, hmac, timestamp, call).headers;
            (c.publisherAuthenticated ==> KeysOf(h) == ["Authorization", "Content-Type"])
            && (!c.publisherAuthenticated ==>
                  KeysOf(h) == ["Authorization", "Content-Type", "CB-ACCESS-KEY", "CB-ACCESS-SIGN",
                                     "CB-ACCESS-TIMESTAMP", "CB-ACCESS-PASSPHRASE"])
            && h[0].1 == "Bearer " + c.serenApiKey
            && (!c.publisherAuthenticated ==>
                  h[3].1 == hmac(OrEmpty(c.secret), SigningMessage(timestamp, call.verb,
                                                                   call.path + QueryString(call.params),
                                                                   BodyText(call.body)))
                  && h[4].1 == timestamp
                  && h[2].1 == OrEmpty(c.accessKey) && h[5].1 == OrEmpty(c.passphrase))
  {
    var h := RequestFor(c, hmac, timestamp, call).headers;
    if c.publisherAuthenticated {
      assert KeysOf(h) == ["Authorization", "Content-Type"];
    } else {
      assert KeysOf(h) == ["Authorization", "Content-Type", "CB-ACCESS-KEY", "CB-ACCESS-SIGN",
                                "CB-ACCESS-TIMESTAMP", "CB-ACCESS-PASSPHRASE"];
    }
  }

  // ---------------------------------------------------------------------
  // _call: the response
  // ---------------------------------------------------------------------

  /** What the transport returns: the status and the decoded JSON body, or
      `None` when the body is not JSON. */
  datatype HttpResponse = HttpResponse(status: int, payload: Option<Json>)

  /** `requests.request(...)`: the response, or the message of the exception
      it raised. */
  type Transport = HttpRequest -> Result<HttpResponse, string>

  /** The gateway envelope: a dict holding `body` stands for that body;
      any other value is returned as it is. */
  function Unwrap(data: Json): (r: Json)
    ensures data.Obj? && Lookup(data.fields, "body").Some? ==> r == Lookup(data.fields, "body").value
    ensures !data.Obj? ==> r == data
    ensures data.Obj? && Lookup(data.fields, "body").None? ==> r == data
  {
    if data.Obj? && Lookup(data.fields, "body").Some? then Lookup(data.fields, "body").value else data
  }

  /** Wrapping a value in an envelope and unwrapping it gives it back,
      wherever the `body` entry stands among the envelope's other entries. */
  lemma EnvelopeRoundTrip(before: Fields, value: Json, after: Fields)
    requires forall k :: 0 <= k < |before| ==> before[k].0 != "body"
    ensures Unwrap(Obj(before + [("body", value)] + after)) == value
  {
    LookupAfter(before, "body", value, after);
  }

  /** How `_call` reads the response: the transport's exception passes on;
      a 401 or 403 with publisher-side authentication is the keychain error;
      `raise_for_status` raises for any other status from 400 to 599; a body
      that is not JSON raises; otherwise the unwrapped body. */
  function ResponseOutcome(publisherAuthenticated: bool, reply: Result<HttpResponse, string>): (r: Result<Json, Failure>)
  {
    match reply
    case Err(message) => Err(Raised(message))
    case Ok(response) =>
      if response.status >= 400 && publisherAuthenticated && (response.status == 401 || response.status == 403) then
        Err(KeychainError(response.status))
      else if 400 <= response.status < 600 then Err(StatusError(response.status))
      else if response.payload.None? then Err(Raised("response body is not JSON"))
      else Ok(Unwrap(response.payload.value))
  }

  /** The status decides: a status error exactly for 400 to 599 (the
      keychain error standing for a 401 or 403 with publisher-side
      authentication), a keychain error never with signed headers, and a
      success only below 400 or from 600 on, with a JSON body. */
  lemma StatusMapping(publisherAuthenticated: bool, response: HttpResponse)
    ensures var r := ResponseOutcome(publisherAuthenticated, Ok(response));
            ((r.Err? && (r.error.StatusError? || r.error.KeychainError?)) <==> 400 <= response.status < 600)
            && (r.Err? && r.error.KeychainError? <==>
                  publisherAuthenticated && (response.status == 401 || response.status == 403))
            && (r.Ok? <==> !(400 <= response.status < 600) && response.payload.Some?)
            && (r.Ok? ==> r.value == Unwrap(response.payload.value))
  {
  }

  /** The two modes read a response the same way, except that publisher-side
      authentication turns a 401 or 403 into the keychain error. */
  lemma ModesDifferOnlyOnAuthStatus(reply: Result<HttpResponse, string>)
    ensures var p := ResponseOutcome(true, reply);
            var d := ResponseOutcome(false, reply);
            p == d || (reply.Ok? && (reply.value.status == 401 || reply.value.status == 403)
                       && p == Err(KeychainError(reply.value.status)) && d == Err(StatusError(reply.value.status)))
  {
  }

  /** `_call(method, path, body, params)` */
  function CallOf(c: SerenClient, send: Transport, hmac: Hmac, timestamp: string, call: ApiCall)
    : Result<Json, Failure>
  {
    ResponseOutcome(c.publisherAuthenticated, send(RequestFor(c, hmac, timestamp, call)))
  }

  /** `_call`, which adds the signed headers to the header dict in place. */
  method Call(c: SerenClient, send: Transport, hmac: Hmac, timestamp: string, call: ApiCall)
    returns (r: Result<Json, Failure>)
    ensures r == CallOf(c, send, hmac, timestamp, call)
  {
    var url := RequestUrl(c, call.path);
    var bodyText := BodyText(call.body);
    var headers := BaseHeaders(c);
    if !c.publisherAuthenticated {
      var fullPath := call.path + QueryString(call.params);
      var sig := Sign(c, hmac, timestamp, call.verb, fullPath, bodyText);
      headers := headers + SignedHeaders(c, sig);
    }
    var data := if bodyText != [] then Some(bodyText) else None;
    var reply := send(HttpRequest(call.verb, url, headers, data, call.params));
    r := ResponseOutcome(c.publisherAuthenticated, reply);
  }

  /** Every `_call` of one operation, with the clock read once for all of
      them. */
  type Api = ApiCall -> Result<Json, Failure>

  function ApiOf(c: SerenClient, send: Transport, hmac: Hmac, timestamp: string): Api {
    (call: ApiCall) => CallOf(c, send, hmac, timestamp, call)
  }

  // ---------------------------------------------------------------------
  // get_usd_products, validate_product
  // ---------------------------------------------------------------------

  const ProductsCall := ApiCall("GET", "/products", None, None)

  /** `for x in value`: a list's items, a dict's keys, a string's
      characters; anything else cannot be iterated. */
  function Iterate(value: Json): (r: Option<seq<Json>>)
    ensures value.Arr? ==> r == Some(value.items)
    ensures r.None? <==> !(value.Arr? || value.Obj? || value.Str?)
  {
    match value
    case Arr(items) => Some(items)
    case Obj(fields) => Some(seq(|fields|, k requires 0 <= k < |fields| => Str(fields[k].0)))
    case Str(s) => Some(seq(|s|, k requires 0 <= k < |s| => Str([s[k]])))
    case _ => None
  }

  predicate UsdOnline(p: Json) {
    p.Obj? && Get(p.fields, "quote_currency", Null) == Str("USD") && Get(p.fields, "status", Null) == Str("online")
  }

  /** The comprehension of `get_usd_products`: the online USD products in
      their order; `p.get` raises on the first item that is not a dict. */
  function UsdProducts(products: seq<Json>): (r: Result<seq<Json>, Failure>)
    ensures r.Ok? <==> forall k :: 0 <= k < |products| ==> products[k].Obj?
    ensures r.Err? ==> exists k :: 0 <= k < |products| && !products[k].Obj? && r.error == NoGetMethod(products[k])
    ensures r.Ok? ==> |r.value| <= |products|
    ensures r.Ok? ==> forall x :: x in r.value <==> x in products && UsdOnline(x)
    decreases |products|
  {
    if products == [] then Ok([])
    else if !products[0].Obj? then Err(NoGetMethod(products[0]))
    else
      var rest := UsdProducts(products[1..]);
      if rest.Err? then rest
      else if UsdOnline(products[0]) then Ok([products[0]] + rest.value)
      else rest
  }

  /** Filtering the online USD products again keeps them all, in order. */
  lemma {:induction false} UsdProductsIdempotent(products: seq<Json>)
    requires UsdProducts(products).Ok?
    ensures UsdProducts(UsdProducts(products).value) == UsdProducts(products)
    decreases |products|
  {
    if products != [] {
      UsdProductsIdempotent(products[1..]);
      var rest := UsdProducts(products[1..]).value;
      if UsdOnline(products[0]) {
        assert ([products[0]] + rest)[1..] == rest;
      }
    }
  }

  /** One dict in front: kept exactly when it is an online USD product. */
  lemma UsdProductsUnfold(s: seq<Json>)
    requires s != [] && s[0].Obj? && UsdProducts(s[1..]).Ok?
    ensures UsdProducts(s) == Ok((if UsdOnline(s[0]) then [s[0]] else []) + UsdProducts(s[1..]).value)
  {
    if !UsdOnline(s[0]) {
      assert [] + UsdProducts(s[1..]).value == UsdProducts(s[1..]).value;
    }
  }

  /** The filter keeps order and multiplicity: on a list of dicts it works
      item by item, an online USD product being kept and any other dropped. */
  lemma {:induction false} UsdProductsAppend(a: seq<Json>, b: seq<Json>)
    requires UsdProducts(a).Ok? && UsdProducts(b).Ok?
    ensures UsdProducts(a + b) == Ok(UsdProducts(a).value + UsdProducts(b).value)
    decreases |a|
  {
    if a == [] {
      assert a + b == b;
      assert UsdProducts(a).value + UsdProducts(b).value == UsdProducts(b).value;
    } else {
      var head := if UsdOnline(a[0]) then [a[0]] else [];
      UsdProductsUnfold(a);
      UsdProductsAppend(a[1..], b);
      TailOfAppend(a, b);
      UsdProductsUnfold(a + b);
      assert head + (UsdProducts(a[1..]).value + UsdProducts(b).value)
          == (head + UsdProducts(a[1..]).value) + UsdProducts(b).value;
    }
  }

  /** On one dict the filter keeps it exactly when it is an online USD
      product. */
  lemma UsdProductsOne(p: Json)
    requires p.Obj?
    ensures UsdProducts([p]) == Ok(if UsdOnline(p) then [p] else [])
  {
    assert [p][1..] == [];
    UsdProductsUnfold([p]);
    assert [p] + [] == [p];
  }

  /** `get_usd_products()`: the failure of `get_products`, the error of an
      answer that cannot be iterated, or the filter over its items. */
  function GetUsdProducts(api: Api): (r: Result<seq<Json>, Failure>)
    ensures api(ProductsCall).Err? ==> r == Err(api(ProductsCall).error)
    ensures api(ProductsCall).Ok? && Iterate(api(ProductsCall).value).None? ==>
              r == Err(NotIterable(api(ProductsCall).value))
    ensures api(ProductsCall).Ok? && Iterate(api(ProductsCall).value).Some? ==>
              r == UsdProducts(Iterate(api(ProductsCall).value).value)
    ensures r.Ok? ==> api(ProductsCall).Ok? && Iterate(api(ProductsCall).value).Some?
                      && forall x :: x in r.value <==> x in Iterate(api(ProductsCall).value).value && UsdOnline(x)
  {
    match api(ProductsCall)
    case Err(e) => Err(e)
    case Ok(products) =>
      match Iterate(products)
      case None => Err(NotIterable(products))
      case Some(items) => UsdProducts(items)
  }

  predicate OnlineWithId(p: Json, productId: string) {
    p.Obj? && Get(p.fields, "id", Null) == Str(productId) && Get(p.fields, "status", Null) == Str("online")
  }

  /** The loop of `validate_product`: true at the first online product with
      the id, false after the last product; `p.get` raises on an item that is
      not a dict before that. */
  function FindOnline(products: seq<Json>, productId: string): (r: Result<bool, Failure>)
    decreases |products|
  {
    if products == [] then Ok(false)
    else if !products[0].Obj? then Err(NoGetMethod(products[0]))
    else if OnlineWithId(products[0], productId) then Ok(true)
    else FindOnline(products[1..], productId)
  }

  /** True exactly when an online product has the id and every item before
      the first one is a dict; false exactly when every item is a dict and
      none is such a product. */
  lemma {:induction false} FindOnlineMeans(products: seq<Json>, productId: string)
    ensures FindOnline(products, productId) == Ok(true) <==>
              exists i :: 0 <= i < |products| && OnlineWithId(products[i], productId)
                          && forall j :: 0 <= j < i ==> products[j].Obj?
    ensures FindOnline(products, productId) == Ok(false) <==>
              forall j :: 0 <= j < |products| ==> products[j].Obj? && !OnlineWithId(products[j], productId)
    decreases |products|
  {
    if products != [] {
      FindOnlineMeans(products[1..], productId);
      var p, rest := products[0], products[1..];
      if p.Obj? && !OnlineWithId(p, productId) {
        if FindOnline(rest, productId) == Ok(true) {
          var i :| 0 <= i < |rest| && OnlineWithId(rest[i], productId) && forall j :: 0 <= j < i ==> rest[j].Obj?;
          assert OnlineWithId(products[i + 1], productId);
          assert forall j :: 0 <= j < i + 1 ==> products[j].Obj? by {
            forall j | 0 <= j < i + 1 ensures products[j].Obj? {
              if j > 0 { assert products[j] == rest[j - 1]; }
            }
          }
        }
        if exists i :: 0 <= i < |products| && OnlineWithId(products[i], productId)
                       && forall j :: 0 <= j < i ==> products[j].Obj? {
          var i :| 0 <= i < |products| && OnlineWithId(products[i], productId)
                   && forall j :: 0 <= j < i ==> products[j].Obj?;
          assert i > 0;
          assert OnlineWithId(rest[i - 1], productId);
          assert forall j :: 0 <= j < i - 1 ==> rest[j].Obj? by {
            forall j | 0 <= j < i - 1 ensures rest[j].Obj? {
              assert rest[j] == products[j + 1];
            }
          }
        }
        if forall j :: 0 <= j < |rest| ==> rest[j].Obj? && !OnlineWithId(rest[j], productId) {
          forall j | 0 <= j < |products|
            ensures products[j].Obj? && !OnlineWithId(products[j], productId)
          {
            if j > 0 { assert products[j] == rest[j - 1]; }
          }
        }
      } else if !p.Obj? {
        assert !(forall j :: 0 <= j < |products| ==> products[j].Obj? && !OnlineWithId(products[j], productId));
      }
    }
  }

  /** `validate_product(product_id)` */
  function ValidateProduct(api: Api, productId: string): (r: Result<bool, Failure>)
    ensures api(ProductsCall).Err? ==> r == Err(api(ProductsCall).error)
    ensures r == Ok(true) ==> api(ProductsCall).Ok? && Iterate(api(ProductsCall).value).Some?
    ensures api(ProductsCall).Ok? && Iterate(api(ProductsCall).value).None? ==>
              r == Err(NotIterable(api(ProductsCall).value))
    ensures api(ProductsCall).Ok? && Iterate(api(ProductsCall).value).Some? ==>
              r == FindOnline(Iterate(api(ProductsCall).value).value, productId)
  {
    match api(ProductsCall)
    case Err(e) => Err(e)
    case Ok(products) =>
      match Iterate(products)
      case None => Err(NotIterable(products))
      case Some(items) => FindOnline(items, productId)
  }

  /** `validate_product` answers true exactly when the products can be read
      and an online product has the id with only dicts before it, and false
      exactly when every product is a dict and none of them is such a product. */
  lemma ValidateProductMeans(api: Api, productId: string)
    ensures ValidateProduct(api, productId) == Ok(true) <==>
              api(ProductsCall).Ok? && Iterate(api(ProductsCall).value).Some?
              && var items := Iterate(api(ProductsCall).value).value;
                 exists i :: 0 <= i < |items| && OnlineWithId(items[i], productId)
                             && forall j :: 0 <= j < i ==> items[j].Obj?
    ensures ValidateProduct(api, productId) == Ok(false) <==>
              api(ProductsCall).Ok? && Iterate(api(ProductsCall).value).Some?
              && var items := Iterate(api(ProductsCall).value).value;
                 forall j :: 0 <= j < |items| ==> items[j].Obj? && !OnlineWithId(items[j], productId)
  {
    if api(ProductsCall).Ok? && Iterate(api(ProductsCall).value).Some? {
      FindOnlineMeans(Iterate(api(ProductsCall).value).value, productId);
    }
  }

  /** A product listed online among the USD products is a valid product. */
  lemma UsdProductIsValid(api: Api, productId: string, p: Json)
    requires GetUsdProducts(api).Ok? && p in GetUsdProducts(api).value
    requires Get(p.fields, "id", Null) == Str(productId)
    ensures ValidateProduct(api, productId) == Ok(true)
  {
    var items := Iterate(api(ProductsCall).value).value;
    assert p in items;
    var i :| 0 <= i < |items| && items[i] == p;
    FindOnlineMeans(items, productId);
    assert OnlineWithId(items[i], productId);
  }

  // ---------------------------------------------------------------------
  // cancel_all_orders
  // ---------------------------------------------------------------------

  function OpenOrdersCall(productId: string): ApiCall {
    ApiCall("GET", "/orders", None, Some([("product_id", Str(productId)), ("status", Str("open"))]))
  }

  /** `order['id']`, as the f-string of `cancel_order` writes it; `None`
      when indexing raises. */
  function OrderId(order: Json): Option<string> {
    if order.Obj? && Lookup(order.fields, "id").Some? then Some(Display(Lookup(order.fields, "id").value)) else None
  }

  /** `cancel_order(order_id)`: `DELETE /orders/<id>`. */
  function CancelCall(orderId: string): ApiCall {
    ApiCall("DELETE", "/orders/" + orderId, None, None)
  }

  /** Whether cancelling this order counts: it has an id and its DELETE did
      not raise. */
  predicate CancelSucceeds(api: Api, order: Json) {
    OrderId(order).Some? && api(CancelCall(OrderId(order).value)).Ok?
  }

  /** The calls the loop makes for these orders: a DELETE for every order
      with an id, whatever became of the ones before. */
  function CancelCalls(orders: seq<Json>): seq<ApiCall>
    decreases |orders|
  {
    if orders == [] then []
    else
      var last := orders[|orders| - 1];
      CancelCalls(orders[..|orders| - 1]) + (if OrderId(last).Some? then [CancelCall(OrderId(last).value)] else [])
  }

  /** How many of these orders were cancelled. */
  function CancelledCount(api: Api, orders: seq<Json>): (n: nat)
    ensures n <= |orders|
    decreases |orders|
  {
    if orders == [] then 0
    else CancelledCount(api, orders[..|orders| - 1]) + (if CancelSucceeds(api, orders[|orders| - 1]) then 1 else 0)
  }

  /** The positions of the orders whose cancellation succeeded. */
  function Successes(api: Api, orders: seq<Json>): set<int> {
    set k | 0 <= k < |orders| && CancelSucceeds(api, orders[k])
  }

  /** Appending an order adds its position exactly when it succeeded. */
  lemma SuccessesSnoc(api: Api, orders: seq<Json>)
    requires orders != []
    ensures var n := |orders| - 1;
            Successes(api, orders)
            == Successes(api, orders[..n]) + (if CancelSucceeds(api, orders[n]) then {n} else {})
            && n !in Successes(api, orders[..n])
  {
    var n := |orders| - 1;
    var init := orders[..n];
    forall k | k in Successes(api, orders) && k != n ensures k in Successes(api, init) {
      assert init[k] == orders[k];
    }
    forall k | k in Successes(api, init) ensures k in Successes(api, orders) {
      assert init[k] == orders[k];
    }
  }

  /** The count is the number of orders whose cancellation succeeded. */
  lemma {:induction false} CancelledCountIsSuccesses(api: Api, orders: seq<Json>)
    ensures CancelledCount(api, orders) == |Successes(api, orders)|
    decreases |orders|
  {
    if orders != [] {
      CancelledCountIsSuccesses(api, orders[..|orders| - 1]);
      SuccessesSnoc(api, orders);
    }
  }

  /** All orders are cancelled exactly when every cancellation succeeded. */
  lemma {:induction false} AllCancelled(api: Api, orders: seq<Json>)
    ensures CancelledCount(api, orders) == |orders| <==> forall k :: 0 <= k < |orders| ==> CancelSucceeds(api, orders[k])
    decreases |orders|
  {
    if orders != [] {
      var n := |orders| - 1;
      AllCancelled(api, orders[..n]);
      assert forall k :: 0 <= k < n ==> orders[..n][k] == orders[k];
    }
  }

  /** `cancel_all_orders(product_id)`: the open orders, then one DELETE per
      order with an id; a failed cancellation is skipped. The result is the
      count of successful cancellations and the calls made, in order. */
  function CancelAllOf(api: Api, productId: string): (Result<nat, Failure>, seq<ApiCall>) {
    match api(OpenOrdersCall(productId))
    case Err(e) => (Err(e), [OpenOrdersCall(productId)])
    case Ok(orders) =>
      match Iterate(orders)
      case None => (Err(NotIterable(orders)), [OpenOrdersCall(productId)])
      case Some(items) => (Ok(CancelledCount(api, items)), [OpenOrdersCall(productId)] + CancelCalls(items))
  }

  /** `cancel_all_orders`, with its counter. */
  method CancelAllOrders(api: Api, productId: string) returns (r: Result<nat, Failure>, sent: seq<ApiCall>)
    ensures (r, sent) == CancelAllOf(api, productId)
  {
    sent := [OpenOrdersCall(productId)];
    var reply := api(OpenOrdersCall(productId));
    if reply.Err? {
      return Err(reply.error), sent;
    }
    var items := Iterate(reply.value);
    if items.None? {
      return Err(NotIterable(reply.value)), sent;
    }
    var orders := items.value;
    var cancelled := 0;
    var i := 0;
    while i < |orders|
      invariant 0 <= i <= |orders|
      invariant cancelled == CancelledCount(api, orders[..i])
      invariant sent == [OpenOrdersCall(productId)] + CancelCalls(orders[..i])
    {
      var order := orders[i];
      assert orders[..i + 1][..i] == orders[..i];
      var id := OrderId(order);
      if id.Some? {
        sent := sent + [CancelCall(id.value)];
        var outcome := api(CancelCall(id.value));
        if outcome.Ok? {
          cancelled := cancelled + 1;
        }
      }
      i := i + 1;
    }
    assert orders[..i] == orders;
    r := Ok(cancelled);
  }

  /** The count never exceeds the number of open orders, and is the number
      of orders whose cancellation succeeded. */
  lemma CancelAllBounds(api: Api, productId: string)
    ensures var (r, _) := CancelAllOf(api, productId);
            r.Ok? ==> api(OpenOrdersCall(productId)).Ok?
                      && Iterate(api(OpenOrdersCall(productId)).value).Some?
                      && var orders := Iterate(api(OpenOrdersCall(productId)).value).value;
                         r.value <= |orders|
                         && r.value == |Successes(api, orders)|
  {
    var reply := api(OpenOrdersCall(productId));
    if reply.Ok? && Iterate(reply.value).Some? {
      CancelledCountIsSuccesses(api, Iterate(reply.value).value);
    }
  }

  /** The positions of the orders that have an id. */
  function WithId(orders: seq<Json>): set<int> {
    set k | 0 <= k < |orders| && OrderId(orders[k]).Some?
  }

  lemma WithIdSnoc(orders: seq<Json>)
    requires orders != []
    ensures var n := |orders| - 1;
            WithId(orders) == WithId(orders[..n]) + (if OrderId(orders[n]).Some? then {n} else {})
            && n !in WithId(orders[..n])
  {
    var n := |orders| - 1;
    var init := orders[..n];
    forall k | k in WithId(orders) && k != n ensures k in WithId(init) {
      assert init[k] == orders[k];
    }
    forall k | k in WithId(init) ensures k in WithId(orders) {
      assert init[k] == orders[k];
    }
  }

  /** A failed cancellation does not stop the loop: one DELETE is sent per
      order with an id. */
  lemma {:induction false} OneCancelPerOrderWithId(orders: seq<Json>)
    ensures |CancelCalls(orders)| == |WithId(orders)|
    decreases |orders|
  {
    if orders != [] {
      OneCancelPerOrderWithId(orders[..|orders| - 1]);
      WithIdSnoc(orders);
    }
  }

  /** Every order with an id gets its DELETE. */
  lemma {:induction false} EveryOrderAttempted(orders: seq<Json>, k: nat)
    requires k < |orders| && OrderId(orders[k]).Some?
    ensures CancelCall(OrderId(orders[k]).value) in CancelCalls(orders)
    decreases |orders|
  {
    var n := |orders| - 1;
    if k < n {
      assert orders[..n][k] == orders[k];
      EveryOrderAttempted(orders[..n], k);
    }
  }
}
