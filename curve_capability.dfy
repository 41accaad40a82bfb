/** The RPC capability check of the curve agent
    (curve/curve-gauge-yield-trader/scripts/agent.py): the probe list a config
    may override, and the probes sent through the gateway, in order, until one
    answers. */
module CurveCapability {
  import opened Wrappers
  import opened Text
  import opened Json
  import opened CurveClient
  import opened CurveDiscovery

  // ---------------------------------------------------------------------
  // _rpc_probe_config
  // ---------------------------------------------------------------------

  datatype Probe = Probe(verb: string, path: string, body: Fields)

  const ChainIdBody: Fields :=
    [("jsonrpc", Str("2.0")), ("id", Int(1)), ("method", Str("eth_chainId")), ("params", Arr([]))]

  /** `DEFAULT_RPC_PROBES` */
  const DefaultProbes: seq<Probe> :=
    [Probe("GET", "/health", []), Probe("POST", "/", ChainIdBody), Probe("POST", "/rpc", ChainIdBody)]

  /** The methods a configured probe may use. */
  const ProbeVerbs: seq<string> := ["GET", "POST", "PUT", "PATCH", "DELETE"]

  datatype ProbeConfig = ProbeConfig(required: bool, probes: seq<Probe>)

  /** A probe the client can send: an allowed method, upper case, and a path
      that starts with '/'. */
  predicate Sendable(p: Probe) {
    OneOf(p.verb, ProbeVerbs) && Upper(p.verb) == p.verb && StartsWith(p.path, "/")
  }

  lemma DefaultProbesSendable()
    ensures forall k :: 0 <= k < |DefaultProbes| ==> Sendable(DefaultProbes[k])
  {
    assert Sendable(Probe("GET", "/health", []));
    assert Sendable(Probe("POST", "/", ChainIdBody));
    assert Sendable(Probe("POST", "/rpc", ChainIdBody));
  }

  /** `rpc_capability.probes[{index}]` */
  function ProbeIndex(index: nat): string {
    "rpc_capability.probes[" + NatToString(index) + "]"
  }

  /** The checks on one entry's method, path and body. */
  function CheckProbe(index: nat, verb: string, path: string, body: Json): (r: Result<Probe, Error>)
    requires Upper(verb) == verb
    ensures r.Ok? <==> OneOf(verb, ProbeVerbs) && StartsWith(path, "/") && body.Obj?
    ensures r.Ok? ==> Sendable(r.value) && body.Obj? && r.value == Probe(verb, path, body.fields)
    ensures r.Err? ==> r.error.ConfigError? && StartsWith(r.error.message, ProbeIndex(index))
  {
    var at := ProbeIndex(index);
    if !OneOf(verb, ProbeVerbs) then
      var rest := ".method '" + verb + "' is not supported.";
      StartsWithConcat(at, rest);
      assert at + ".method '" + verb + "' is not supported." == at + rest;
      Err(ConfigError(at + ".method '" + verb + "' is not supported."))
    else if !StartsWith(path, "/") then
      StartsWithConcat(at, ".path must start with '/'.");
      Err(ConfigError(at + ".path must start with '/'."))
    else if !body.Obj? then
      StartsWithConcat(at, ".body must be an object.");
      Err(ConfigError(at + ".body must be an object."))
    else Ok(Probe(verb, path, body.fields))
  }

  /** `str(probe.get("method", "GET")).upper()` */
  function ProbeVerb(fields: Fields): string {
    Upper(Display(Get(fields, "method", Str("GET"))))
  }

  /** `str(probe.get("path", ""))` */
  function ProbePath(fields: Fields): string {
    Display(Get(fields, "path", Str("")))
  }

  /** `probe.get("body", {})` */
  function ProbeBody(fields: Fields): Json {
    Get(fields, "body", Obj([]))
  }

  /** One iteration of the loop in `_rpc_probe_config`: a dict whose method
      (default GET, upper-cased), path (default empty) and body (default an
      empty dict) pass the checks becomes a probe; anything else is a
      `ConfigError` naming the entry. */
  function ReadProbe(index: nat, probe: Json): (r: Result<Probe, Error>)
    ensures r.Ok? <==> probe.Obj? && OneOf(ProbeVerb(probe.fields), ProbeVerbs)
                       && StartsWith(ProbePath(probe.fields), "/") && ProbeBody(probe.fields).Obj?
    ensures r.Ok? ==> probe.Obj? && r.value.verb == ProbeVerb(probe.fields) && r.value.path == ProbePath(probe.fields)
                      && Obj(r.value.body) == ProbeBody(probe.fields)
    ensures r.Ok? ==> Sendable(r.value)
    ensures !probe.Obj? ==> r == Err(ConfigError(ProbeIndex(index) + " must be an object."))
    ensures r.Err? ==> r.error.ConfigError? && StartsWith(r.error.message, ProbeIndex(index))
  {
    if !probe.Obj? then
      StartsWithConcat(ProbeIndex(index), " must be an object.");
      Err(ConfigError(ProbeIndex(index) + " must be an object."))
    else
      UpperIdempotent(Display(Get(probe.fields, "method", Str("GET"))));
      CheckProbe(index, ProbeVerb(probe.fields), ProbePath(probe.fields), ProbeBody(probe.fields))
  }

  /** What the loop body makes of the entry at an index. */
  type Reader = (nat, Json) -> Result<Probe, Error>

  const Read: Reader := (index: nat, probe: Json) => ReadProbe(index, probe)

  /** The loop over `probes_raw` from entry `index` on. */
  function ProbesFrom(items: seq<Json>, read: Reader, index: nat, acc: seq<Probe>): Result<seq<Probe>, Error>
    requires index <= |items|
    decreases |items| - index
  {
    if index == |items| then Ok(acc)
    else
      match read(index, items[index])
      case Err(e) => Err(e)
      case Ok(p) => ProbesFrom(items, read, index + 1, acc + [p])
  }

  /** `_rpc_probe_config` */
  function ProbeConfigOf(config: Fields): Result<ProbeConfig, Error> {
    var capability := Get(config, "rpc_capability", Obj([]));
    if !capability.Obj? then Err(ConfigError("Config field 'rpc_capability' must be an object when provided."))
    else
      var required := Truthy(Get(capability.fields, "required", Bool(true)));
      var raw := Get(capability.fields, "probes", Null);
      if raw.Null? then Ok(ProbeConfig(required, DefaultProbes))
      else if !raw.Arr? || raw.items == [] then Err(ConfigError("rpc_capability.probes must be a non-empty list."))
      else
        match ProbesFrom(raw.items, Read, 0, [])
        case Err(e) => Err(e)
        case Ok(probes) => Ok(ProbeConfig(required, probes))
  }

  /** The loop succeeds exactly when every entry from `index` on is
      accepted, and then appends the probes read from them, in order. */
  lemma {:induction false} ProbesFromReadsEach(items: seq<Json>, read: Reader, index: nat, acc: seq<Probe>)
    requires index <= |items|
    ensures ProbesFrom(items, read, index, acc).Ok? <==> forall k :: index <= k < |items| ==> read(k, items[k]).Ok?
    ensures var r := ProbesFrom(items, read, index, acc);
            r.Ok? ==> |r.value| == |acc| + |items| - index && r.value[..|acc|] == acc
                      && forall k :: index <= k < |items| ==> r.value[|acc| + k - index] == read(k, items[k]).value
    decreases |items| - index
  {
    if index < |items| && read(index, items[index]).Ok? {
      var next := acc + [read(index, items[index]).value];
      ProbesFromReadsEach(items, read, index + 1, next);
      var r := ProbesFrom(items, read, index, acc);
      if r.Ok? {
        assert r.value[..|acc|] == r.value[..|next|][..|acc|];
        assert r.value[|acc|] == r.value[..|next|][|acc|];
      }
    }
  }

  /** A rejected list is rejected with the error of its first bad entry. */
  lemma {:induction false} ProbesFromFirstError(items: seq<Json>, read: Reader, index: nat, acc: seq<Probe>)
    requires index <= |items|
    ensures var r := ProbesFrom(items, read, index, acc);
            r.Err? ==> exists k :: index <= k < |items| && read(k, items[k]) == Err(r.error)
                                   && forall j :: index <= j < k ==> read(j, items[j]).Ok?
    decreases |items| - index
  {
    if index < |items| && read(index, items[index]).Ok? {
      ProbesFromFirstError(items, read, index + 1, acc + [read(index, items[index]).value]);
    }
  }

  /** `_rpc_probe_config` defaults: `required` is true unless given, and
      without a `probes` entry the three default probes are used. */
  lemma ProbeConfigDefaults(config: Fields)
    ensures var capability := Get(config, "rpc_capability", Obj([]));
            capability.Obj? && Lookup(capability.fields, "required").None? && ProbeConfigOf(config).Ok? ==>
              ProbeConfigOf(config).value.required
    ensures var capability := Get(config, "rpc_capability", Obj([]));
            capability.Obj? && Get(capability.fields, "probes", Null).Null? ==>
              ProbeConfigOf(config).Ok? && ProbeConfigOf(config).value.probes == DefaultProbes
  {
  }

  /** The probe loop over a given list accepts it exactly when each entry
      is accepted, the probes keeping the list's order, and otherwise fails
      with the error of one of its entries. */
  lemma ReadAllProbes(items: seq<Json>)
    ensures ProbesFrom(items, Read, 0, []).Ok? <==> forall k :: 0 <= k < |items| ==> ReadProbe(k, items[k]).Ok?
    ensures var r := ProbesFrom(items, Read, 0, []);
            r.Ok? ==> |r.value| == |items| && forall k :: 0 <= k < |items| ==> r.value[k] == ReadProbe(k, items[k]).value
    ensures var r := ProbesFrom(items, Read, 0, []);
            r.Err? ==> exists k :: 0 <= k < |items| && ReadProbe(k, items[k]) == Err(r.error)
  {
    ProbesFromReadsEach(items, Read, 0, []);
    ProbesFromFirstError(items, Read, 0, []);
    assert forall k :: 0 <= k < |items| ==> Read(k, items[k]) == ReadProbe(k, items[k]);
  }

  /** A given probe list is accepted exactly when each entry is, the probes
      keeping the list's order, and otherwise fails with the error of one of
      its entries. */
  lemma ProbeConfigReadsEach(config: Fields)
    ensures var capability := Get(config, "rpc_capability", Obj([]));
            capability.Obj? ==>
              var raw := Get(capability.fields, "probes", Null);
              raw.Arr? && raw.items != [] ==>
                (ProbeConfigOf(config).Ok? <==> ProbesFrom(raw.items, Read, 0, []).Ok?)
                && (ProbeConfigOf(config).Ok? ==> ProbeConfigOf(config).value.probes == ProbesFrom(raw.items, Read, 0, []).value)
                && (ProbeConfigOf(config).Err? ==> ProbeConfigOf(config).error == ProbesFrom(raw.items, Read, 0, []).error)
  {
  }

  /** `_rpc_probe_config` gives a non-empty list of sendable probes, or a
      `ConfigError`: a `rpc_capability` entry that is not a dict, a `probes`
      entry that is given but is not a non-empty list, or a bad probe. */
  lemma ProbeConfigSendable(config: Fields)
    ensures ProbeConfigOf(config).Ok? ==>
              ProbeConfigOf(config).value.probes != []
              && forall k :: 0 <= k < |ProbeConfigOf(config).value.probes| ==> Sendable(ProbeConfigOf(config).value.probes[k])
    ensures ProbeConfigOf(config).Err? ==> ProbeConfigOf(config).error.ConfigError?
    ensures !Get(config, "rpc_capability", Obj([])).Obj? ==>
              ProbeConfigOf(config) == Err(ConfigError("Config field 'rpc_capability' must be an object when provided."))
    ensures var capability := Get(config, "rpc_capability", Obj([]));
            var raw := if capability.Obj? then Get(capability.fields, "probes", Null) else Null;
            !raw.Null? && !(raw.Arr? && raw.items != []) ==>
              ProbeConfigOf(config) == Err(ConfigError("rpc_capability.probes must be a non-empty list."))
  {
    DefaultProbesSendable();
    ProbeConfigReadsEach(config);
    var capability := Get(config, "rpc_capability", Obj([]));
    if capability.Obj? {
      var raw := Get(capability.fields, "probes", Null);
      if raw.Arr? && raw.items != [] {
        ReadAllProbes(raw.items);
        var r := ProbesFrom(raw.items, Read, 0, []);
        if r.Ok? {
          forall k | 0 <= k < |r.value|
            ensures Sendable(r.value[k])
          {
            assert r.value[k] == ReadProbe(k, raw.items[k]).value;
          }
        }
      }
    }
  }

  /** `_rpc_probe_config` with its loop. */
  method RpcProbeConfig(config: Fields) returns (r: Result<ProbeConfig, Error>)
    ensures r == ProbeConfigOf(config)
  {
    var capability := Get(config, "rpc_capability", Obj([]));
    if !capability.Obj? {
      return Err(ConfigError("Config field 'rpc_capability' must be an object when provided."));
    }
    var required := Truthy(Get(capability.fields, "required", Bool(true)));
    var raw := Get(capability.fields, "probes", Null);
    if raw.Null? {
      return Ok(ProbeConfig(required, DefaultProbes));
    }
    if !raw.Arr? || raw.items == [] {
      return Err(ConfigError("rpc_capability.probes must be a non-empty list."));
    }
    var probes: seq<Probe> := [];
    var index := 0;
    while index < |raw.items|
      invariant 0 <= index <= |raw.items|
      invariant ProbesFrom(raw.items, Read, 0, []) == ProbesFrom(raw.items, Read, index, probes)
    {
      var probe := ReadProbe(index, raw.items[index]);
      if probe.Err? {
        return Err(probe.error);
      }
      probes := probes + [probe.value];
      index := index + 1;
    }
    return Ok(ProbeConfig(required, probes));
  }

  // ---------------------------------------------------------------------
  // check_rpc_capability
  // ---------------------------------------------------------------------

  /** `f"{method} {path}"` */
  function Label(p: Probe): string {
    p.verb + " " + p.path
  }

  function Labels(probes: seq<Probe>): (r: seq<string>)
    ensures |r| == |probes| && forall k :: 0 <= k < |probes| ==> r[k] == Label(probes[k])
  {
    seq(|probes|, k requires 0 <= k < |probes| => Label(probes[k]))
  }

  /** The outcome of the probe loop: the first probe that answered with its
      response, and the errors of the probes before it. */
  datatype ProbeRun = ProbeRun(answer: Option<(Probe, Fields)>, errors: seq<string>)

  /** Sending one probe through the gateway. */
  type Attempt = Probe -> Result<Fields, Error>

  function CallFor(c: PublisherClient, t: Transport, publisher: string): Attempt {
    (p: Probe) => Call(c, t, publisher, p.verb, p.path, p.body)
  }

  /** The probe loop from probe `index` on, with the errors collected so
      far. */
  function TryProbes(probes: seq<Probe>, attempt: Attempt, index: nat, errors: seq<string>): ProbeRun
    requires index <= |probes|
    decreases |probes| - index
  {
    if index == |probes| then ProbeRun(None, errors)
    else
      match attempt(probes[index])
      case Ok(response) => ProbeRun(Some((probes[index], response)), errors)
      case Err(e) => TryProbes(probes, attempt, index + 1, errors + [Label(probes[index]) + ": " + e.message])
  }

  /** The probes are sent in order until one answers: each error recorded
      is that of the probe at its position, and the answer, if any, is from
      the probe right after the failed ones; with no answer every probe
      failed. */
  lemma {:induction false} TryProbesInOrder(probes: seq<Probe>, attempt: Attempt, index: nat, errors: seq<string>)
    requires index <= |probes| && |errors| == index
    ensures var r := TryProbes(probes, attempt, index, errors);
            index <= |r.errors| <= |probes| && r.errors[..index] == errors
            && (forall i :: index <= i < |r.errors| ==>
                  attempt(probes[i]).Err? && r.errors[i] == Label(probes[i]) + ": " + attempt(probes[i]).error.message)
            && (r.answer.Some? ==> |r.errors| < |probes| && r.answer.value.0 == probes[|r.errors|]
                                   && attempt(probes[|r.errors|]) == Ok(r.answer.value.1))
            && (r.answer.None? ==> |r.errors| == |probes|)
    decreases |probes| - index
  {
    if index < |probes| && attempt(probes[index]).Err? {
      var next := errors + [Label(probes[index]) + ": " + attempt(probes[index]).error.message];
      TryProbesInOrder(probes, attempt, index + 1, next);
      var r := TryProbes(probes, attempt, index, errors);
      assert r.errors[..index] == r.errors[..index + 1][..index];
      assert r.errors[index] == r.errors[..index + 1][index];
    }
  }

  /** Later probes are never sent: two gateways that answer the probes up to
      and including the first answered one alike give the same run. */
  lemma {:induction false} TryProbesStopsAtAnswer(probes: seq<Probe>, a: Attempt, b: Attempt, index: nat, errors: seq<string>)
    requires index <= |probes| && |errors| == index
    requires forall i :: index <= i < |probes| && i <= |TryProbes(probes, a, index, errors).errors| ==> a(probes[i]) == b(probes[i])
    ensures TryProbes(probes, a, index, errors) == TryProbes(probes, b, index, errors)
    decreases |probes| - index
  {
    if index < |probes| {
      TryProbesInOrder(probes, a, index, errors);
      assert a(probes[index]) == b(probes[index]);
      if a(probes[index]).Err? {
        var next := errors + [Label(probes[index]) + ": " + a(probes[index]).error.message];
        TryProbesStopsAtAnswer(probes, a, b, index + 1, next);
      }
    }
  }

  /** What `check_rpc_capability` returns: status "ok" with the probe that
      answered and its sorted keys, or status "warning" with the error. */
  datatype Report =
    | Ready(required: bool, connector: string, publisher: string, source: string,
            probe: (string, string), preview: seq<string>)
    | Warning(required: bool, connector: string, publisher: string, source: string, error: string)

  function Connector(chain: string): string {
    "rpc_" + chain
  }

  function FailureMessage(chain: string, publisher: string, probes: seq<Probe>, errors: seq<string>): string {
    var base := "RPC capability check failed for chain '" + chain + "' "
                + "(connector '" + Connector(chain) + "', publisher '" + publisher + "'). "
                + "Probes attempted: " + Join(", ", Labels(probes)) + ".";
    if errors != [] then base + " Errors: " + Join(" | ", errors) else base
  }

  /** The report once the probes ran. */
  function Verdict(chain: string, pc: ProbeConfig, res: Resolution, run: ProbeRun): Result<Report, Error> {
    match run.answer
    case Some(answered) =>
      Ok(Ready(pc.required, Connector(chain), res.publisher, res.source,
               (answered.0.verb, answered.0.path), SortStrings(KeysOf(answered.1))))
    case None =>
      var message := FailureMessage(chain, res.publisher, pc.probes, run.errors);
      if pc.required then Err(ConfigError(message))
      else Ok(Warning(pc.required, Connector(chain), res.publisher, res.source, message))
  }

  /** `check_rpc_capability`: the probe config, then the publisher, then the
      probes through `call`. */
  function CapabilityOf(c: PublisherClient, t: Transport, chain: string, config: Fields): Result<Report, Error> {
    match ProbeConfigOf(config)
    case Err(e) => Err(e)
    case Ok(pc) =>
      match RpcPublisherForChain(chain, config, Served(c, t, CatalogLimit)).outcome
      case Err(e) => Err(e)
      case Ok(res) => Verdict(chain, pc, res, TryProbes(pc.probes, CallFor(c, t, res.publisher), 0, []))
  }

  /** The failure message names every probe and quotes every error. */
  lemma FailureMessageListsAll(chain: string, publisher: string, probes: seq<Probe>, errors: seq<string>)
    ensures forall k :: 0 <= k < |probes| ==> Contains(FailureMessage(chain, publisher, probes, errors), Label(probes[k]))
    ensures forall k :: 0 <= k < |errors| ==> Contains(FailureMessage(chain, publisher, probes, errors), errors[k])
  {
    var intro := "RPC capability check failed for chain '" + chain + "' "
                 + "(connector '" + Connector(chain) + "', publisher '" + publisher + "'). "
                 + "Probes attempted: ";
    var labels := Join(", ", Labels(probes));
    var base := intro + labels + ".";
    var message := FailureMessage(chain, publisher, probes, errors);
    forall k | 0 <= k < |probes|
      ensures Contains(message, Label(probes[k]))
    {
      JoinContainsEach(", ", Labels(probes), k);
      ContainsInSuffix(intro, labels, Label(probes[k]));
      ContainsInPrefix(intro + labels, ".", Label(probes[k]));
      if errors != [] {
        ContainsInPrefix(base, " Errors: ", Label(probes[k]));
        ContainsInPrefix(base + " Errors: ", Join(" | ", errors), Label(probes[k]));
      }
    }
    forall k | 0 <= k < |errors|
      ensures Contains(message, errors[k])
    {
      JoinContainsEach(" | ", errors, k);
      ContainsInSuffix(base + " Errors: ", Join(" | ", errors), errors[k]);
    }
  }

  /** A probe that answered makes the check pass, with the response's keys
      sorted; when none answers, a required check fails with a
      `ConfigError` and an optional one gives a warning, both carrying a
      message that lists every probe and every error. */
  lemma VerdictSpec(chain: string, pc: ProbeConfig, res: Resolution, run: ProbeRun)
    ensures var r := Verdict(chain, pc, res, run);
            run.answer.Some? ==>
              r.Ok? && r.value.Ready? && r.value.connector == "rpc_" + chain
              && r.value.publisher == res.publisher && r.value.source == res.source
              && SortedStrings(r.value.preview) && multiset(r.value.preview) == multiset(KeysOf(run.answer.value.1))
    ensures var r := Verdict(chain, pc, res, run);
            run.answer.None? ==>
              (pc.required <==> r.Err?)
              && (r.Err? ==> r.error.ConfigError?)
              && var message := if r.Err? then r.error.message else r.value.error;
                 (r.Ok? ==> r.value.Warning?)
                 && (forall k :: 0 <= k < |pc.probes| ==> Contains(message, Label(pc.probes[k])))
                 && (forall k :: 0 <= k < |run.errors| ==> Contains(message, run.errors[k]))
  {
    FailureMessageListsAll(chain, res.publisher, pc.probes, run.errors);
  }

  /** With a gateway whose every probe fails, each probe is sent once and
      its error quoted, in order. */
  lemma AllProbesFailed(probes: seq<Probe>, attempt: Attempt)
    ensures var r := TryProbes(probes, attempt, 0, []);
            r.answer.None? <==> forall k :: 0 <= k < |probes| ==> attempt(probes[k]).Err?
    ensures var r := TryProbes(probes, attempt, 0, []);
            r.answer.None? ==>
              |r.errors| == |probes|
              && forall k :: 0 <= k < |probes| ==> r.errors[k] == Label(probes[k]) + ": " + attempt(probes[k]).error.message
  {
    TryProbesInOrder(probes, attempt, 0, []);
  }

  /** `check_rpc_capability` with its probe loop: the probes are tried in
      order and the first that answers decides. */
  method CheckRpcCapability(c: PublisherClient, t: Transport, chain: string, config: Fields)
    returns (r: Result<Report, Error>)
    ensures r == CapabilityOf(c, t, chain, config)
  {
    var pc := RpcProbeConfig(config);
    if pc.Err? {
      return Err(pc.error);
    }
    var resolved := ResolveRpcPublisher(c, t, chain, config);
    if resolved.outcome.Err? {
      return Err(resolved.outcome.error);
    }
    var res := resolved.outcome.value;
    var probes := pc.value.probes;
    var errors: seq<string> := [];
    var index := 0;
    while index < |probes|
      invariant 0 <= index <= |probes|
      invariant TryProbes(probes, CallFor(c, t, res.publisher), 0, []) == TryProbes(probes, CallFor(c, t, res.publisher), index, errors)
    {
      var probe := probes[index];
      var response := Call(c, t, res.publisher, probe.verb, probe.path, probe.body);
      if response.Ok? {
        return Verdict(chain, pc.value, res, ProbeRun(Some((probe, response.value)), errors));
      }
      errors := errors + [Label(probe) + ": " + response.error.message];
      index := index + 1;
    }
    return Verdict(chain, pc.value, res, ProbeRun(None, errors));
  }
}
