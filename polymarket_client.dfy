/** The Polymarket client's routing (`PolymarketClient` in
    polymarket/bot/scripts/polymarket_client.py): how it picks between
    publisher-side and header authentication, the alias list of trading
    publishers, and the ordered fallback over those aliases. The Seren
    gateway's `call_publisher` is the `Gateway` parameter; the environment is
    a map. */
module Polymarket {
  import opened Wrappers
  import opened Text
  import opened Json

  /** The exceptions the client raises: `ValueError` and `RuntimeError` of
      its own, and `Raised` for a plain `Exception`, or one from the gateway
      passed on unchanged, with the message `str()` gives for it. */
  datatype Failure =
    | ValueError(message: string)
    | RuntimeError(message: string)
    | Raised(message: string)

  datatype PolymarketClient = PolymarketClient(
    apiKey: Option<string>, passphrase: Option<string>, secret: Option<string>, address: Option<string>,
    desktopPublisherAuth: bool, authMode: string, tradingPublishers: seq<string>)

  // ---------------------------------------------------------------------
  // __init__
  // ---------------------------------------------------------------------

  const MissingCredentials := "Polymarket credentials required: POLY_API_KEY, POLY_PASSPHRASE, POLY_ADDRESS"
  const DesktopMode := "desktop_publisher_auth"
  const DirectMode := "direct_polymarket_headers"
  const DefaultAliases: seq<string> := ["polymarket-trading", "polymarket-trading-serenai"]

  /** `given or os.getenv(name)` */
  function Credential(given: Option<string>, env: map<string, string>, name: string): Option<string> {
    if given.Some? && given.value != [] then given
    else if name in env then Some(env[name])
    else None
  }

  /** A credential that is set and not empty. */
  predicate Present(x: Option<string>) {
    x.Some? && x.value != []
  }

  /** An alias as the client keeps it: not blank, no surrounding
      whitespace. */
  predicate Stripped(a: string) {
    a != [] && !IsSpace(a[0]) && !IsSpace(a[|a| - 1])
  }

  /** The entries of a comma-separated setting, stripped, the blank ones
      dropped. */
  function KeepNonBlank(parts: seq<string>): (r: seq<string>)
    ensures forall k :: 0 <= k < |r| ==> Stripped(r[k])
    ensures |r| <= |parts|
  {
    if parts == [] then []
    else if Strip(parts[0]) == [] then KeepNonBlank(parts[1..])
    else [Strip(parts[0])] + KeepNonBlank(parts[1..])
  }

  /** What one entry contributes: its stripped form, or nothing when it is
      blank. */
  function KeptPart(part: string): seq<string> {
    if Strip(part) == [] then [] else [Strip(part)]
  }

  /** The loop keeps each entry's piece, in order. */
  lemma {:induction false} KeepNonBlankPieces(parts: seq<string>)
    ensures KeepNonBlank(parts) == ConcatMap(KeptPart, parts)
    decreases |parts|
  {
    if parts != [] {
      KeepNonBlankPieces(parts[1..]);
    }
  }

  /** An alias is kept exactly when it is the stripped form of some entry
      and not blank. */
  lemma KeepNonBlankHolds(parts: seq<string>, x: string)
    ensures x in KeepNonBlank(parts) <==> x != [] && exists k :: 0 <= k < |parts| && Strip(parts[k]) == x
  {
    KeepNonBlankPieces(parts);
    ConcatMapHolds(KeptPart, parts, x);
  }

  /** The entries are kept in the order they are written. */
  lemma KeepNonBlankAppend(a: seq<string>, b: seq<string>)
    ensures KeepNonBlank(a + b) == KeepNonBlank(a) + KeepNonBlank(b)
  {
    KeepNonBlankPieces(a);
    KeepNonBlankPieces(b);
    KeepNonBlankPieces(a + b);
    ConcatMapAppend(KeptPart, a, b);
  }

  /** One entry gives its stripped form, or nothing when it is blank. */
  lemma KeepNonBlankOne(part: string)
    ensures KeepNonBlank([part]) == KeptPart(part)
  {
    KeepNonBlankPieces([part]);
    assert [part][1..] == [];
  }

  /** Dropping and stripping entries adds no character. */
  lemma {:induction false} KeepNonBlankWithout(parts: seq<string>, c: char)
    requires forall k :: 0 <= k < |parts| ==> c !in parts[k]
    ensures forall k :: 0 <= k < |KeepNonBlank(parts)| ==> c !in KeepNonBlank(parts)[k]
    decreases |parts|
  {
    if parts != [] {
      StripWithout(parts[0], c);
      KeepNonBlankWithout(parts[1..], c);
    }
  }

  /** Aliases that survive being written comma-separated and read back. */
  predicate CleanAliases(aliases: seq<string>) {
    forall k :: 0 <= k < |aliases| ==> Stripped(aliases[k]) && ',' !in aliases[k]
  }

  /** `POLYMARKET_TRADING_PUBLISHERS`, when set and not blank; the two
      default aliases otherwise. */
  function ParseAliases(setting: string): (r: seq<string>)
    ensures CleanAliases(r)
  {
    var s := Strip(setting);
    if s == [] then
      DefaultAliasesClean();
      DefaultAliases
    else
      var parts := Split(s, ',');
      ListedAliasesClean(parts);
      KeepNonBlank(parts)
  }

  lemma DefaultAliasesClean()
    ensures CleanAliases(DefaultAliases)
  {
    var a, b := DefaultAliases[0], DefaultAliases[1];
    assert a[0] == 'p' && a[|a| - 1] == 'g' && ',' !in a;
    assert b[0] == 'p' && b[|b| - 1] == 'i' && ',' !in b;
  }

  lemma ListedAliasesClean(parts: seq<string>)
    requires forall k :: 0 <= k < |parts| ==> ',' !in parts[k]
    ensures CleanAliases(KeepNonBlank(parts))
  {
    KeepNonBlankWithout(parts, ',');
  }

  /** Whether the API key, passphrase and address are all available. */
  predicate HasLegacyCredentials(apiKey: Option<string>, passphrase: Option<string>, address: Option<string>,
                                 env: map<string, string>) {
    Present(Credential(apiKey, env, "POLY_API_KEY"))
    && Present(Credential(passphrase, env, "POLY_PASSPHRASE"))
    && Present(Credential(address, env, "POLY_ADDRESS"))
  }

  /** `__init__`: the credentials from the arguments or the environment; the
      mode forced by `desktop_publisher_auth`, or else publisher-side
      authentication exactly when the API key, passphrase or address is
      missing. Direct headers without those three credentials are refused,
      and the mode name follows the flag. */
  function NewClient(apiKey: Option<string>, passphrase: Option<string>, secret: Option<string>,
                     address: Option<string>, desktopPublisherAuth: Option<bool>, env: map<string, string>)
    : (r: Result<PolymarketClient, Failure>)
    ensures var legacy := HasLegacyCredentials(apiKey, passphrase, address, env);
            (r.Err? <==> desktopPublisherAuth == Some(false) && !legacy)
            && (r.Err? ==> r.error == ValueError(MissingCredentials))
            && (r.Ok? ==> r.value.desktopPublisherAuth
                          == (if desktopPublisherAuth.None? then !legacy else desktopPublisherAuth.value))
            && (r.Ok? ==> (r.value.authMode == DesktopMode <==> r.value.desktopPublisherAuth)
                          && (r.value.authMode == DirectMode <==> !r.value.desktopPublisherAuth))
            && (r.Ok? && !r.value.desktopPublisherAuth ==>
                  Present(r.value.apiKey) && Present(r.value.passphrase) && Present(r.value.address))
    ensures r.Ok? ==> r.value.apiKey == Credential(apiKey, env, "POLY_API_KEY")
                      && r.value.passphrase == Credential(passphrase, env, "POLY_PASSPHRASE")
                      && r.value.secret == Credential(secret, env, "POLY_SECRET")
                      && r.value.address == Credential(address, env, "POLY_ADDRESS")
                      && r.value.tradingPublishers == ParseAliases(EnvGet(env, "POLYMARKET_TRADING_PUBLISHERS", ""))
  {
    var key := Credential(apiKey, env, "POLY_API_KEY");
    var phrase := Credential(passphrase, env, "POLY_PASSPHRASE");
    var sec := Credential(secret, env, "POLY_SECRET");
    var addr := Credential(address, env, "POLY_ADDRESS");
    var hasLegacy := Present(key) && Present(phrase) && Present(addr);
    var desktop := if desktopPublisherAuth.None? then !hasLegacy else desktopPublisherAuth.value;
    if !desktop && !hasLegacy then Err(ValueError(MissingCredentials))
    else
      Ok(PolymarketClient(key, phrase, sec, addr, desktop, if desktop then DesktopMode else DirectMode,
                          ParseAliases(EnvGet(env, "POLYMARKET_TRADING_PUBLISHERS", ""))))
  }

  /** The secret plays no part in choosing the mode or the aliases. */
  lemma SecretNotConsidered(apiKey: Option<string>, passphrase: Option<string>, secret1: Option<string>,
                            secret2: Option<string>, address: Option<string>, forced: Option<bool>,
                            env: map<string, string>)
    ensures var r1 := NewClient(apiKey, passphrase, secret1, address, forced, env);
            var r2 := NewClient(apiKey, passphrase, secret2, address, forced, env);
            r1.Ok? == r2.Ok?
            && (r1.Ok? ==> r1.value.desktopPublisherAuth == r2.value.desktopPublisherAuth
                           && r1.value.authMode == r2.value.authMode
                           && r1.value.tradingPublishers == r2.value.tradingPublishers)
  {
    var r1 := NewClient(apiKey, passphrase, secret1, address, forced, env);
    var r2 := NewClient(apiKey, passphrase, secret2, address, forced, env);
    assert r1.Ok? == r2.Ok?;
    if r1.Ok? {
      assert r1.value.(secret := None) == r2.value.(secret := None);
    }
  }

  lemma StripSpacedEntry()
    ensures Strip(" b") == "b"
  {
    var s := " b";
    assert |s| == 2 && s[0] == ' ' && s[1] == 'b';
    assert IsSpace(s[0]);
    assert s[1..] == "b";
    assert !IsSpace('b');
    assert TrimStart("b") == "b";
    assert TrimStart(s) == TrimStart(s[1..]);
    assert TrimEnd("b") == "b";
  }

  lemma StripPlainEntry()
    ensures Strip("a") == "a"
  {
    assert !IsSpace("a"[0]);
    assert TrimStart("a") == "a";
    assert TrimEnd("a") == "a";
  }

  lemma StripSpacedSetting()
    ensures Strip("a, b") == "a, b"
  {
    assert TrimStart("a, b") == "a, b";
    assert TrimEnd("a, b") == "a, b";
  }

  lemma SplitSpacedSetting()
    ensures Split("a, b", ',') == ["a", " b"]
  {
    var s := "a, b";
    assert s[0] != ',' && s[1] == ',';
    assert IndexOf(s, ',') == 1;
    assert s[..1] == "a" && s[2..] == " b";
    assert ',' !in " b";
  }

  lemma KeepSpacedParts()
    ensures KeepNonBlank(["a", " b"]) == ["a", "b"]
  {
    KeepNonBlankPieces(["a", " b"]);
    ConcatMapTwo(KeptPart, "a", " b");
    StripPlainEntry();
    StripSpacedEntry();
    assert KeptPart("a") == ["a"];
    assert KeptPart(" b") == ["b"];
  }

  /** A setting written with a space after its comma reads as the listed
      aliases, stripped, in order. */
  lemma SpacedAliasSetting()
    ensures ParseAliases("a, b") == ["a", "b"]
  {
    StripSpacedSetting();
    SplitSpacedSetting();
    KeepSpacedParts();
  }

  /** Without the setting, or with a blank one, the aliases are the
      sidecar-native slug and then the legacy one. */
  lemma DefaultAliasOrder(env: map<string, string>)
    requires Strip(EnvGet(env, "POLYMARKET_TRADING_PUBLISHERS", "")) == []
    ensures ParseAliases(EnvGet(env, "POLYMARKET_TRADING_PUBLISHERS", "")) == ["polymarket-trading", "polymarket-trading-serenai"]
  {
  }

  /** A list of stripped, comma-free aliases written comma-separated is read
      back as the same list, in the same order. */
  lemma AliasesRoundTrip(aliases: seq<string>)
    requires |aliases| >= 1 && CleanAliases(aliases)
    ensures ParseAliases(Join(",", aliases)) == aliases
  {
    var joined := Join(",", aliases);
    JoinedAliases(aliases);
    ParseStrippedSetting(joined, aliases);
  }

  /** What reading back a joined list needs: the join has no surrounding
      whitespace, splits back into the list, and every entry is kept. */
  lemma JoinedAliases(aliases: seq<string>)
    requires |aliases| >= 1
    requires forall k :: 0 <= k < |aliases| ==> Stripped(aliases[k]) && ',' !in aliases[k]
    ensures var joined := Join(",", aliases);
            Stripped(joined) && Split(joined, ',') == aliases && KeepNonBlank(aliases) == aliases
  {
    JoinedStripped(aliases);
    SplitJoined(aliases);
    KeepStripped(aliases);
  }

  lemma JoinedStripped(aliases: seq<string>)
    requires |aliases| >= 1
    requires forall k :: 0 <= k < |aliases| ==> Stripped(aliases[k])
    ensures Stripped(Join(",", aliases))
  {
    JoinEnds(",", aliases);
    assert Stripped(aliases[0]) && Stripped(aliases[|aliases| - 1]);
  }

  lemma SplitJoined(aliases: seq<string>)
    requires |aliases| >= 1
    requires forall k :: 0 <= k < |aliases| ==> ',' !in aliases[k]
    ensures Split(Join(",", aliases), ',') == aliases
  {
    assert "," == [','];
    SplitJoin(aliases, ',');
  }

  lemma ParseStrippedSetting(setting: string, aliases: seq<string>)
    requires Stripped(setting)
    requires Split(setting, ',') == aliases && KeepNonBlank(aliases) == aliases
    ensures ParseAliases(setting) == aliases
  {
    StripUnchanged(setting);
  }

  lemma {:induction false} KeepStripped(parts: seq<string>)
    requires forall k :: 0 <= k < |parts| ==> Stripped(parts[k])
    ensures KeepNonBlank(parts) == parts
    decreases |parts|
  {
    if parts != [] {
      var p, rest := parts[0], parts[1..];
      StripUnchanged(p);
      KeepStripped(rest);
      KeepCons(p, rest);
      assert [p] + rest == parts;
    }
  }

  lemma KeepCons(p: string, rest: seq<string>)
    requires Stripped(p) && Strip(p) == p
    ensures KeepNonBlank([p] + rest) == [p] + KeepNonBlank(rest)
  {
    assert ([p] + rest)[1..] == rest;
  }

  // ---------------------------------------------------------------------
  // _get_auth_headers
  // ---------------------------------------------------------------------

  /** `x or ''` */
  /** No headers with publisher-side authentication; the three POLY_*
      headers otherwise. The secret is never sent. */
  function AuthHeaders(c: PolymarketClient): (r: seq<(string, string)>)
    ensures c.desktopPublisherAuth <==> r == []
    ensures !c.desktopPublisherAuth ==>
              |r| == 3 && r[0].0 == "POLY_API_KEY" && r[1].0 == "POLY_PASSPHRASE" && r[2].0 == "POLY_ADDRESS"
    ensures !c.desktopPublisherAuth ==>
              r[0].1 == OrEmpty(c.apiKey) && r[1].1 == OrEmpty(c.passphrase) && r[2].1 == OrEmpty(c.address)
  {
    if c.desktopPublisherAuth then []
    else [("POLY_API_KEY", OrEmpty(c.apiKey)), ("POLY_PASSPHRASE", OrEmpty(c.passphrase)),
          ("POLY_ADDRESS", OrEmpty(c.address))]
  }

  // ---------------------------------------------------------------------
  // _call_trading
  // ---------------------------------------------------------------------

  /** One `call_publisher(publisher, method, path, headers, body)`. */
  datatype PublisherCall = PublisherCall(publisher: string, verb: string, path: string,
                                         headers: Option<seq<(string, string)>>, body: Option<Fields>)

  /** The gateway: the decoded response, or the message of the exception
      `call_publisher` raised. */
  type Gateway = PublisherCall -> Result<Json, string>

  function TradingCall(c: PolymarketClient, publisher: string, verb: string, path: string, body: Option<Fields>)
    : PublisherCall
  {
    var headers := AuthHeaders(c);
    PublisherCall(publisher, verb, path, if headers == [] then None else Some(headers), body)
  }

  /** What the gateway answers for each alias in turn. */
  function Answers(c: PolymarketClient, gw: Gateway, verb: string, path: string, body: Option<Fields>)
    : (r: seq<Result<Json, string>>)
    ensures |r| == |c.tradingPublishers|
    ensures forall k :: 0 <= k < |r| ==> r[k] == gw(TradingCall(c, c.tradingPublishers[k], verb, path, body))
  {
    seq(|c.tradingPublishers|, k requires 0 <= k < |c.tradingPublishers| =>
          gw(TradingCall(c, c.tradingPublishers[k], verb, path, body)))
  }

  const DesktopAuthFailed := "Polymarket desktop publisher authentication failed. Configure Polymarket publisher credentials in Seren Desktop and ensure the publisher is enabled."
  const NoPublisherConfigured := "No Polymarket trading publisher configured"

  predicate NotFound(message: string) {
    Contains(message, "404")
  }

  predicate AuthRejected(message: string) {
    Contains(message, "401") || Contains(message, "403")
  }

  /** The loop's result and the number of aliases it called. */
  datatype Fallback = Fallback(outcome: Result<Json, Failure>, calls: nat)

  /** The loop from alias `index` on, given each alias's answer: a 404, 401
      or 403 on an alias that is not the last moves on; on the last alias a
      401 or 403 with publisher-side authentication becomes the
      authentication error; anything else is raised as it is. */
  function FallbackFrom(answers: seq<Result<Json, string>>, desktop: bool, index: nat, lastError: Option<string>)
    : Fallback
    requires index <= |answers|
    decreases |answers| - index
  {
    if index == |answers| then
      Fallback(if lastError.Some? then Err(Raised(lastError.value)) else Err(RuntimeError(NoPublisherConfigured)), index)
    else
      match answers[index]
      case Ok(v) => Fallback(Ok(v), index + 1)
      case Err(message) =>
        if NotFound(message) && index < |answers| - 1 then FallbackFrom(answers, desktop, index + 1, Some(message))
        else if AuthRejected(message) && index < |answers| - 1 then FallbackFrom(answers, desktop, index + 1, Some(message))
        else if desktop && AuthRejected(message) then Fallback(Err(Raised(DesktopAuthFailed)), index + 1)
        else Fallback(Err(Raised(message)), index + 1)
  }

  /** `_call_trading(method, path, body)` */
  function CallTradingOf(c: PolymarketClient, gw: Gateway, verb: string, path: string, body: Option<Fields>): Fallback {
    FallbackFrom(Answers(c, gw, verb, path, body), c.desktopPublisherAuth, 0, None)
  }

  /** `_call_trading`, with its loop over the aliases. */
  method CallTrading(c: PolymarketClient, gw: Gateway, verb: string, path: string, body: Option<Fields>)
    returns (r: Result<Json, Failure>, calls: nat)
    ensures Fallback(r, calls) == CallTradingOf(c, gw, verb, path, body)
  {
    var answers := Answers(c, gw, verb, path, body);
    var publishers := c.tradingPublishers;
    var lastError: Option<string> := None;
    var index := 0;
    while index < |publishers|
      invariant 0 <= index <= |publishers|
      invariant FallbackFrom(answers, c.desktopPublisherAuth, 0, None)
                == FallbackFrom(answers, c.desktopPublisherAuth, index, lastError)
    {
      var reply := gw(TradingCall(c, publishers[index], verb, path, body));
      assert reply == answers[index];
      if reply.Ok? {
        return Ok(reply.value), index + 1;
      }
      var message := reply.error;
      if NotFound(message) && index < |publishers| - 1 {
        lastError := Some(message);
        index := index + 1;
        continue;
      }
      if AuthRejected(message) && index < |publishers| - 1 {
        lastError := Some(message);
        index := index + 1;
        continue;
      }
      if c.desktopPublisherAuth && AuthRejected(message) {
        return Err(Raised(DesktopAuthFailed)), index + 1;
      }
      return Err(Raised(message)), index + 1;
    }
    if lastError.Some? {
      return Err(Raised(lastError.value)), index;
    }
    return Err(RuntimeError(NoPublisherConfigured)), index;
  }

  /** Past the first alias the remembered error never decides anything: the
      loop always returns or raises on the last alias, so `raise
      last_error` cannot run. */
  lemma {:induction false} LastErrorNeverRaised(answers: seq<Result<Json, string>>, desktop: bool, index: nat,
                                                e1: Option<string>, e2: Option<string>)
    requires index < |answers|
    ensures FallbackFrom(answers, desktop, index, e1) == FallbackFrom(answers, desktop, index, e2)
    decreases |answers| - index
  {
    if answers[index].Err? && index < |answers| - 1 {
      var m := answers[index].error;
      if NotFound(m) || AuthRejected(m) {
        LastErrorNeverRaised(answers, desktop, index + 1, Some(m), Some(m));
      }
    }
  }

  /** With no alias there is no call and a `RuntimeError`; with at least one
      the loop never ends in it. */
  lemma NoAliasNoCall(answers: seq<Result<Json, string>>, desktop: bool)
    ensures answers == [] ==> FallbackFrom(answers, desktop, 0, None) == Fallback(Err(RuntimeError(NoPublisherConfigured)), 0)
    ensures answers != [] ==> !FallbackFrom(answers, desktop, 0, None).outcome.Err?
                              || !FallbackFrom(answers, desktop, 0, None).outcome.error.RuntimeError?
  {
    if answers != [] {
      FallbackRaisesOnly(answers, desktop, 0, None);
    }
  }

  lemma {:induction false} FallbackRaisesOnly(answers: seq<Result<Json, string>>, desktop: bool, index: nat, lastError: Option<string>)
    requires index < |answers|
    ensures var f := FallbackFrom(answers, desktop, index, lastError);
            f.outcome.Err? ==> f.outcome.error.Raised?
    decreases |answers| - index
  {
    if answers[index].Err? && index < |answers| - 1 {
      var m := answers[index].error;
      if NotFound(m) || AuthRejected(m) {
        FallbackRaisesOnly(answers, desktop, index + 1, Some(m));
      }
    }
  }

  /** The aliases are called in order, and the loop moves past an alias only
      when it answered with a 404, 401 or 403: every alias before the last
      one called failed that way. The first answer that succeeds is the
      result; an error that is not a 404, 401 or 403 ends the loop at once. */
  lemma {:induction false} FallbackOrder(answers: seq<Result<Json, string>>, desktop: bool, index: nat, lastError: Option<string>)
    requires index < |answers|
    ensures var f := FallbackFrom(answers, desktop, index, lastError);
            index < f.calls <= |answers|
            && (forall k :: index <= k < f.calls - 1 ==>
                  answers[k].Err? && (NotFound(answers[k].error) || AuthRejected(answers[k].error)))
            && (f.outcome.Ok? <==> answers[f.calls - 1].Ok?)
            && (f.outcome.Ok? ==> f.outcome.value == answers[f.calls - 1].value)
            && (f.calls < |answers| && answers[f.calls - 1].Err? ==>
                  !NotFound(answers[f.calls - 1].error) && !AuthRejected(answers[f.calls - 1].error)
                  && f.outcome == Err(Raised(answers[f.calls - 1].error)))
    decreases |answers| - index
  {
    if answers[index].Err? && index < |answers| - 1 {
      var m := answers[index].error;
      if NotFound(m) || AuthRejected(m) {
        FallbackOrder(answers, desktop, index + 1, Some(m));
      }
    }
  }

  /** On the last alias a 401 or 403 becomes the authentication error with
      publisher-side authentication, and is raised as it is with direct
      headers; any other error is raised as it is. */
  lemma LastAliasError(answers: seq<Result<Json, string>>, desktop: bool)
    requires answers != []
    requires FallbackFrom(answers, desktop, 0, None).calls == |answers|
    requires answers[|answers| - 1].Err?
    ensures var m := answers[|answers| - 1].error;
            FallbackFrom(answers, desktop, 0, None).outcome
            == if desktop && AuthRejected(m) then Err(Raised(DesktopAuthFailed)) else Err(Raised(m))
  {
    LastAliasFrom(answers, desktop, 0, None);
  }

  lemma {:induction false} LastAliasFrom(answers: seq<Result<Json, string>>, desktop: bool, index: nat, lastError: Option<string>)
    requires index < |answers|
    requires FallbackFrom(answers, desktop, index, lastError).calls == |answers|
    requires answers[|answers| - 1].Err?
    ensures var m := answers[|answers| - 1].error;
            FallbackFrom(answers, desktop, index, lastError).outcome
            == if desktop && AuthRejected(m) then Err(Raised(DesktopAuthFailed)) else Err(Raised(m))
    decreases |answers| - index
  {
    if index < |answers| - 1 {
      FallbackOrder(answers, desktop, index, lastError);
      var m := answers[index].error;
      LastAliasFrom(answers, desktop, index + 1, Some(m));
    }
  }

  /** Which aliases are tried does not depend on the mode: given the same
      answers, both modes call the same aliases and end the same way, except
      that publisher-side authentication turns a final 401 or 403 into the
      authentication error. */
  lemma {:induction false} FallbackIgnoresMode(answers: seq<Result<Json, string>>, index: nat, lastError: Option<string>)
    requires index <= |answers|
    ensures var d := FallbackFrom(answers, true, index, lastError);
            var h := FallbackFrom(answers, false, index, lastError);
            d.calls == h.calls
            && (d.outcome == h.outcome
                || (d.outcome == Err(Raised(DesktopAuthFailed)) && h.outcome.Err? && h.outcome.error.Raised?
                    && AuthRejected(h.outcome.error.message)))
    decreases |answers| - index
  {
    if index < |answers| && answers[index].Err? && index < |answers| - 1 {
      var m := answers[index].error;
      if NotFound(m) || AuthRejected(m) {
        FallbackIgnoresMode(answers, index + 1, Some(m));
      }
    }
  }

  /** The recorded case of a first alias that is not found: the second
      alias answers and is the result, after two calls. */
  lemma NotFoundFallsBackToLegacySlug(payload: Json)
    ensures var message := "Publisher call failed: 404 - not found";
            FallbackFrom([Err(message), Ok(payload)], true, 0, None) == Fallback(Ok(payload), 2)
  {
    var message := "Publisher call failed: 404 - not found";
    assert OccursAt(message, "404", 23);
  }

  /** The recorded case of a gateway that rejects every call with a 401 in
      publisher-side mode: both default aliases are called and the result
      is the authentication error. */
  lemma UnauthorizedDesktopCall()
    ensures var message := "Publisher call failed: 401 - unauthorized";
            FallbackFrom([Err(message), Err(message)], true, 0, None) == Fallback(Err(Raised(DesktopAuthFailed)), 2)
  {
    var message := "Publisher call failed: 401 - unauthorized";
    assert OccursAt(message, "401", 23);
  }

  // ---------------------------------------------------------------------
  // get_balance
  // ---------------------------------------------------------------------

  /** The balance `get_balance` reads from the outcome of the call: the
      `balance` of the (possibly `body`-wrapped) dict, or the number itself;
      0.0 for a failed call, for anything `float()` rejects and for any
      other payload. */
  function BalanceOf(outcome: Result<Json, Failure>): (balance: real)
    ensures outcome.Err? ==> balance == 0.0
    ensures outcome.Ok? && !outcome.value.Obj? ==> balance == 0.0
    ensures outcome.Ok? && outcome.value.Obj? ==>
              var data := Get(outcome.value.fields, "body", outcome.value);
              (data.Null? || data.Str? || data.Arr? ==> balance == 0.0)
              && (data.Int? ==> balance == data.i as real)
              && (data.Float? ==> balance == data.value)
  {
    match outcome
    case Err(_) => 0.0
    case Ok(response) =>
      if !response.Obj? then 0.0
      else
        var data := Get(response.fields, "body", response);
        if data.Obj? then
          match ToFloat(Get(data.fields, "balance", Float(0.0, "0.0")))
          case Some(f) => f.value
          case None => 0.0
        else if data.Int? || data.Float? || data.Bool? then ToFloat(data).value.value
        else 0.0
  }

  /** `get_balance`: never raises; a failure, or a payload that is neither a
      dict nor a number, gives 0.0. */
  method GetBalance(c: PolymarketClient, gw: Gateway) returns (balance: real)
    ensures balance == BalanceOf(CallTradingOf(c, gw, "GET", "/balance", None).outcome)
  {
    var outcome, _ := CallTrading(c, gw, "GET", "/balance", None);
    balance := BalanceOf(outcome);
  }
}
