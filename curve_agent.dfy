/** One run of the curve agent (curve/curve-gauge-yield-trader/scripts/agent.py):
    the inputs it accepts, the signer, the trade plan it derives from the
    gateway's gauge ranking, and the gate that keeps every run a dry run
    unless live trading is configured and confirmed. The environment, the
    wallet file and the gateway are parameters. */
module CurveAgent {
  import opened Wrappers
  import opened Text
  import opened Json
  import opened CurveClient
  import opened CurveDiscovery
  import opened CurveCapability

  const DefaultDryRun := true
  const DefaultWalletPath := "state/wallet.local.json"
  const DefaultPositionSyncPath := "/positions/update"

  // ---------------------------------------------------------------------
  // _resolve_inputs
  // ---------------------------------------------------------------------

  /** The validated `inputs` block; the deposit amount is the float value
      `float()` made of it. */
  datatype Inputs = Inputs(chain: string, walletMode: string, liveMode: bool,
                           depositToken: string, depositAmountUsd: Json, topNGauges: int)

  predicate ValidInputs(i: Inputs) {
    IsSupportedChain(i.chain)
    && (i.walletMode == "local" || i.walletMode == "ledger")
    && i.depositAmountUsd.Float? && i.depositAmountUsd.value > 0.0
    && i.topNGauges >= 1
  }

  /** The four checks, in the order the agent makes them, on values already
      converted. */
  function CheckInputs(chain: string, walletMode: string, liveMode: bool, token: string,
                       amount: Json, topN: int): (r: Result<Inputs, Error>)
    requires amount.Float?
    ensures r.Ok? <==> ValidInputs(Inputs(chain, walletMode, liveMode, token, amount, topN))
    ensures r.Ok? ==> r.value == Inputs(chain, walletMode, liveMode, token, amount, topN)
    ensures r.Err? ==> r.error.ConfigError?
    ensures !IsSupportedChain(chain) ==> r == Err(ConfigError("Unsupported chain '" + chain + "'."))
  {
    if !IsSupportedChain(chain) then Err(ConfigError("Unsupported chain '" + chain + "'."))
    else if walletMode != "local" && walletMode != "ledger" then
      Err(ConfigError("wallet_mode must be 'local' or 'ledger'."))
    else if amount.value <= 0.0 then Err(ConfigError("deposit_amount_usd must be > 0."))
    else if topN < 1 then Err(ConfigError("top_n_gauges must be >= 1."))
    else Ok(Inputs(chain, walletMode, liveMode, token, amount, topN))
  }

  /** `float(inputs.get("deposit_amount_usd", 100))`, None where it raises. */
  function AmountOf(f: Fields): Option<Json> {
    ToFloat(Get(f, "deposit_amount_usd", Int(100)))
  }

  /** `int(inputs.get("top_n_gauges", 3))`, None where it raises. */
  function TopNOf(f: Fields): Option<int> {
    ToInt(Get(f, "top_n_gauges", Int(3)))
  }

  /** The `inputs` block read with its defaults and conversions, before the
      checks. */
  function GivenInputs(f: Fields, amount: Json, topN: int): Inputs {
    Inputs(Display(Get(f, "chain", Str("ethereum"))), Display(Get(f, "wallet_mode", Str("local"))),
           Truthy(Get(f, "live_mode", Bool(false))), Display(Get(f, "deposit_token", Str("USDC"))),
           amount, topN)
  }

  /** `_resolve_inputs`: defaults for absent keys, `str`/`bool`/`float`/`int`
      conversions (a failing conversion escapes uncaught), then the checks.
      The converted block is returned exactly when it passes them. */
  function ResolveInputs(config: Fields): (r: Result<Inputs, Error>)
    ensures r.Ok? ==> ValidInputs(r.value)
    ensures !Get(config, "inputs", Obj([])).Obj? ==> r == Err(ConfigError("Config field 'inputs' must be an object."))
    ensures var raw := Get(config, "inputs", Obj([]));
            raw.Obj? && AmountOf(raw.fields).None? ==> r.Err? && r.error.Uncaught?
    ensures var raw := Get(config, "inputs", Obj([]));
            raw.Obj? && AmountOf(raw.fields).Some? && TopNOf(raw.fields).None? ==> r.Err? && r.error.Uncaught?
    ensures var raw := Get(config, "inputs", Obj([]));
            raw.Obj? && AmountOf(raw.fields).Some? && TopNOf(raw.fields).Some? ==>
              var given := GivenInputs(raw.fields, AmountOf(raw.fields).value, TopNOf(raw.fields).value);
              (r.Ok? <==> ValidInputs(given))
              && (r.Ok? ==> r.value == given)
              && (r.Err? ==> r.error.ConfigError?)
  {
    var raw := Get(config, "inputs", Obj([]));
    if !raw.Obj? then Err(ConfigError("Config field 'inputs' must be an object."))
    else
      var f := raw.fields;
      match AmountOf(f)
      case None => Err(Uncaught("deposit_amount_usd is not convertible to float"))
      case Some(amount) =>
        match TopNOf(f)
        case None => Err(Uncaught("top_n_gauges is not convertible to int"))
        case Some(topN) =>
          var given := GivenInputs(f, amount, topN);
          CheckInputs(given.chain, given.walletMode, given.liveMode, given.depositToken, amount, topN)
  }

  /** A config without an `inputs` block runs on ethereum with a local
      wallet, in paper mode, depositing 100 USDC into the top of 3 gauges. */
  lemma DefaultInputs(config: Fields)
    requires Lookup(config, "inputs").None?
    ensures ResolveInputs(config) == Ok(Inputs("ethereum", "local", false, "USDC", Float(100.0, "100.0"), 3))
  {
    assert Get(config, "inputs", Obj([])) == Obj([]);
    assert IsSupportedChain("ethereum");
    assert IntToString(100) == "100" by {
      assert NatToString(1) == "1";
      assert NatToString(10) == NatToString(1) + [DigitChar(0)];
      assert NatToString(100) == NatToString(10) + [DigitChar(0)];
    }
    assert IntToString(100) + ".0" == "100.0";
    assert ToFloat(Int(100)) == Some(Float(100.0, "100.0"));
    assert ToInt(Int(3)) == Some(3);
  }

  // ---------------------------------------------------------------------
  // load_local_wallet and resolve_signer
  // ---------------------------------------------------------------------

  /** The wallet files: for a path, the JSON value stored there, or None
      when there is no such file. */
  type WalletFiles = string -> Option<Json>

  /** `load_local_wallet`: the stored object, which must hold an address and
      a private key. */
  function LoadLocalWallet(path: string, files: WalletFiles): (r: Result<Fields, Error>)
    ensures r.Err? ==> r.error.ConfigError?
    ensures r.Ok? <==> files(path).Some? && files(path).value.Obj?
                       && Lookup(files(path).value.fields, "address").Some?
                       && Lookup(files(path).value.fields, "private_key_hex").Some?
    ensures r.Ok? ==> Obj(r.value) == files(path).value
  {
    match files(path)
    case None => Err(ConfigError("Local wallet file not found: " + path + ". Run with --init-wallet first."))
    case Some(w) =>
      if !w.Obj? then Err(ConfigError("Local wallet file must contain a JSON object."))
      else if Lookup(w.fields, "address").None? || Lookup(w.fields, "private_key_hex").None? then
        Err(ConfigError("Local wallet file is missing required fields."))
      else Ok(w.fields)
  }

  /** The signer a trade is made with; a ledger signer holds no key. */
  datatype Signer = Signer(mode: string, address: Json, privateKeyHex: Option<Json>)

  /** `resolve_signer`: the local wallet's address and key, or the ledger
      address, which must be non-empty. */
  function ResolveSigner(walletMode: string, walletPath: string, ledgerAddress: string, files: WalletFiles)
    : (r: Result<Signer, Error>)
    ensures r.Err? ==> r.error.ConfigError?
    ensures walletMode == "local" ==>
              (r.Ok? <==> LoadLocalWallet(walletPath, files).Ok?)
              && (r.Ok? ==> var w := LoadLocalWallet(walletPath, files).value;
                            r.value.mode == "local"
                            && ("address", r.value.address) in w
                            && r.value.privateKeyHex.Some? && ("private_key_hex", r.value.privateKeyHex.value) in w)
    ensures walletMode != "local" ==>
              (r.Ok? <==> ledgerAddress != [])
              && (r.Ok? ==> r.value == Signer("ledger", Str(ledgerAddress), None))
  {
    if walletMode == "local" then
      match LoadLocalWallet(walletPath, files)
      case Err(e) => Err(e)
      case Ok(w) =>
        Ok(Signer("local", Lookup(w, "address").value, Some(Lookup(w, "private_key_hex").value)))
    else if ledgerAddress == [] then
      Err(ConfigError("ledger mode requires --ledger-address or config.wallet.ledger_address."))
    else Ok(Signer("ledger", Str(ledgerAddress), None))
  }

  // ---------------------------------------------------------------------
  // choose_trade_plan
  // ---------------------------------------------------------------------

  datatype TradePlan = TradePlan(token: string, amountUsd: Json, gaugeAddress: Json, expectedRewardApy: Json)

  function PlanFields(p: TradePlan): Fields {
    [("token", Str(p.token)), ("amount_usd", p.amountUsd),
     ("gauge_address", p.gaugeAddress), ("expected_reward_apy", p.expectedRewardApy)]
  }

  /** The first entry of the `gauges` list when it is a dict, `{}` otherwise. */
  function TopGauge(response: Fields): Fields {
    match Lookup<Json>(response, "gauges")
    case Some(Arr(items)) => if items != [] && items[0].Obj? then items[0].fields else []
    case _ => []
  }

  /** `d.get(key) or fallback` */
  function OrElse(found: Option<Json>, fallback: Json): (r: Json)
    ensures r == fallback || (found.Some? && r == found.value && Truthy(r))
    ensures found.Some? && Truthy(found.value) ==> r == found.value
  {
    if found.Some? && Truthy(found.value) then found.value else fallback
  }

  /** `choose_trade_plan` */
  function ChooseTradePlan(response: Fields, token: string, amount: Json): TradePlan {
    var top := TopGauge(response);
    TradePlan(token, amount,
              OrElse(Lookup(top, "address"), Str("unknown")),
              OrElse(Lookup(top, "reward_apy"), OrElse(Lookup(top, "apr"), Str("unknown"))))
  }

  /** The plan deposits the configured amount of the configured token into
      the top-ranked gauge, at its reward rate (its `apr` when no
      `reward_apy` is given); "unknown" stands in for what the ranking does
      not say, so neither entry is ever empty. */
  lemma TradePlanFromTopGauge(response: Fields, token: string, amount: Json)
    ensures var plan := ChooseTradePlan(response, token, amount);
            plan.token == token && plan.amountUsd == amount
            && Truthy(plan.gaugeAddress) && Truthy(plan.expectedRewardApy)
    ensures var plan := ChooseTradePlan(response, token, amount);
            var address := Lookup(TopGauge(response), "address");
            (plan.gaugeAddress == Str("unknown") || address == Some(plan.gaugeAddress))
            && (address.Some? && Truthy(address.value) ==> plan.gaugeAddress == address.value)
    ensures var plan := ChooseTradePlan(response, token, amount);
            var reward := Lookup(TopGauge(response), "reward_apy");
            var apr := Lookup(TopGauge(response), "apr");
            if reward.Some? && Truthy(reward.value) then plan.expectedRewardApy == reward.value
            else if apr.Some? && Truthy(apr.value) then plan.expectedRewardApy == apr.value
            else plan.expectedRewardApy == Str("unknown")
  {
  }

  /** A ranking without a non-empty `gauges` list whose first entry is a
      dict gives a plan that names no gauge and no rate. */
  lemma NoRankingNoGauge(response: Fields, token: string, amount: Json)
    requires match Lookup<Json>(response, "gauges")
             case Some(Arr(items)) => items == [] || !items[0].Obj?
             case _ => true
    ensures ChooseTradePlan(response, token, amount) == TradePlan(token, amount, Str("unknown"), Str("unknown"))
  {
    assert TopGauge(response) == [];
  }

  // ---------------------------------------------------------------------
  // The calls run_once makes itself
  // ---------------------------------------------------------------------

  datatype Purpose = SyncPositions | FetchGauges | Preflight | LiveTrade

  /** One `client.call(publisher, method, path, body)` made by the agent. */
  datatype Sent = Sent(purpose: Purpose, publisher: string, verb: string, path: string, body: Fields)

  /** What the gateway answers to one call. */
  type Gateway = Sent -> Result<Fields, Error>

  function GatewayFor(c: PublisherClient, t: Transport): Gateway {
    (s: Sent) => Call(c, t, s.publisher, s.verb, s.path, s.body)
  }

  /** Whether a trail holds a call to the trade endpoint. */
  predicate Traded(sent: seq<Sent>) {
    exists k :: 0 <= k < |sent| && sent[k].purpose == LiveTrade
  }

  /** What `run_once` has settled before its first own call. */
  datatype Setup = Setup(client: PublisherClient, inputs: Inputs, dryRun: bool, signer: Signer)

  /** `fetch_top_gauges` */
  function GaugesCall(s: Setup): Sent {
    Sent(FetchGauges, "curve-finance", "GET", "/gauges/highest-rewards",
         [("chain", Str(s.inputs.chain)), ("limit", Int(s.inputs.topNGauges))])
  }

  /** The body `preflight_liquidity` and `execute_live_trade` both send. */
  function LiquidityBody(s: Setup, plan: TradePlan): Fields {
    [("chain", Str(s.inputs.chain)), ("action", Str("add_liquidity_to_curve_gauge")),
     ("signer_mode", Str(s.signer.mode)), ("signer_address", s.signer.address),
     ("trade_plan", Obj(PlanFields(plan)))]
  }

  function PreflightCall(s: Setup, plan: TradePlan): Sent {
    Sent(Preflight, "evm-exec", "POST", "/preflight/liquidity", LiquidityBody(s, plan))
  }

  function TradeCall(s: Setup, plan: TradePlan): Sent {
    Sent(LiveTrade, "evm-exec", "POST", "/trade/liquidity", LiquidityBody(s, plan))
  }

  function SyncCall(s: Setup, path: string): Sent {
    Sent(SyncPositions, "evm-exec", "POST", path, [("chain", Str(s.inputs.chain)), ("address", s.signer.address)])
  }

  // ---------------------------------------------------------------------
  // run_once
  // ---------------------------------------------------------------------

  const MissingApiKey := "SEREN_API_KEY is required in the environment."
  const LiveNotConfirmed := "Live mode requested but --yes-live was not provided. Dry-run is the safe default."
  const DryRunWarning := "No live transaction submitted. Set inputs.live_mode=true and pass --yes-live only after wallet funding and signer checks."

  /** `api.base_url` from the config when it is non-empty, else the
      environment's, else the default gateway. */
  function BaseUrlOf(config: Fields, env: map<string, string>): string {
    var api := Get(config, "api", Obj([]));
    var configured := if api.Obj? then Display(Get(api.fields, "base_url", Str(""))) else "";
    if configured != [] then configured else EnvGet(env, "SEREN_API_BASE_URL", DefaultApiBase)
  }

  datatype WalletSettings = WalletSettings(path: string, ledgerAddress: string)

  /** `config.get("wallet", {}).get(...)`: a `wallet` entry that is not a
      dict has no `get` and the run fails with an uncaught error. */
  function WalletSettingsOf(config: Fields): Result<WalletSettings, Error> {
    var w := Get(config, "wallet", Obj([]));
    if !w.Obj? then Err(Uncaught("config.wallet has no attribute 'get'"))
    else Ok(WalletSettings(Display(Get(w.fields, "path", Str(DefaultWalletPath))),
                           Display(Get(w.fields, "ledger_address", Str("")))))
  }

  /** `ledger_address or ledger_from_config` */
  function LedgerFor(ledgerAddress: string, w: WalletSettings): string {
    if ledgerAddress != [] then ledgerAddress else w.ledgerAddress
  }

  /** Everything `run_once` does before the capability check: the API key,
      the client, the inputs, the dry-run flag and the signer. */
  function Prepare(env: map<string, string>, config: Fields, ledgerAddress: string, files: WalletFiles)
    : (r: Result<Setup, Error>)
    ensures Strip(EnvGet(env, "SEREN_API_KEY", "")) == [] ==> r == Err(ConfigError(MissingApiKey))
    ensures r.Ok? ==> r.value.client.apiKey == Strip(EnvGet(env, "SEREN_API_KEY", "")) != []
    ensures r.Ok? ==> r.value.client == NewPublisherClient(r.value.client.apiKey, BaseUrlOf(config, env))
    ensures r.Ok? ==> ResolveInputs(config) == Ok(r.value.inputs)
    ensures r.Ok? ==> r.value.dryRun == Truthy(Get(config, "dry_run", Bool(DefaultDryRun)))
    ensures r.Ok? ==> WalletSettingsOf(config).Ok?
                      && var w := WalletSettingsOf(config).value;
                         ResolveSigner(r.value.inputs.walletMode, w.path, LedgerFor(ledgerAddress, w), files) == Ok(r.value.signer)
    ensures Strip(EnvGet(env, "SEREN_API_KEY", "")) != [] && ResolveInputs(config).Err? ==> r == Err(ResolveInputs(config).error)
    ensures Strip(EnvGet(env, "SEREN_API_KEY", "")) != [] && ResolveInputs(config).Ok? && WalletSettingsOf(config).Err? ==>
              r == Err(WalletSettingsOf(config).error)
    ensures Strip(EnvGet(env, "SEREN_API_KEY", "")) != [] && ResolveInputs(config).Ok? && WalletSettingsOf(config).Ok? ==>
              var w := WalletSettingsOf(config).value;
              var signer := ResolveSigner(ResolveInputs(config).value.walletMode, w.path, LedgerFor(ledgerAddress, w), files);
              (r.Ok? <==> signer.Ok?) && (signer.Err? ==> r == Err(signer.error))
  {
    var apiKey := Strip(EnvGet(env, "SEREN_API_KEY", ""));
    if apiKey == [] then Err(ConfigError(MissingApiKey))
    else
      var client := NewPublisherClient(apiKey, BaseUrlOf(config, env));
      match ResolveInputs(config)
      case Err(e) => Err(e)
      case Ok(inputs) =>
        var dryRun := Truthy(Get(config, "dry_run", Bool(DefaultDryRun)));
        match WalletSettingsOf(config)
        case Err(e) => Err(e)
        case Ok(w) =>
          match ResolveSigner(inputs.walletMode, w.path, LedgerFor(ledgerAddress, w), files)
          case Err(e) => Err(e)
          case Ok(signer) => Ok(Setup(client, inputs, dryRun, signer))
  }

  /** Whether the configuration asks for a live trade. */
  predicate LiveRequested(s: Setup) {
    !s.dryRun && s.inputs.liveMode
  }

  datatype SyncSettings = SyncSettings(enabled: bool, path: string)

  /** The `position_sync` block: enabled by default, on the default path;
      the path must start with '/'. */
  function SyncSettingsOf(config: Fields): (r: Result<SyncSettings, Error>)
    ensures r.Ok? ==> StartsWith(r.value.path, "/")
    ensures r.Err? ==> r == Err(ConfigError("position_sync.path must start with '/'."))
    ensures !Get(config, "position_sync", Obj([])).Obj? ==> r == Ok(SyncSettings(true, DefaultPositionSyncPath))
    ensures var raw := Get(config, "position_sync", Obj([]));
            raw.Obj? ==>
              var path := Display(Get(raw.fields, "path", Str(DefaultPositionSyncPath)));
              (r.Ok? <==> StartsWith(path, "/"))
              && (r.Ok? ==> r.value == SyncSettings(Truthy(Get(raw.fields, "enabled", Bool(true))), path))
  {
    var raw := Get(config, "position_sync", Obj([]));
    var enabled := if raw.Obj? then Truthy(Get(raw.fields, "enabled", Bool(true))) else true;
    var path := if raw.Obj? then Display(Get(raw.fields, "path", Str(DefaultPositionSyncPath))) else DefaultPositionSyncPath;
    if !StartsWith(path, "/") then Err(ConfigError("position_sync.path must start with '/'."))
    else Ok(SyncSettings(enabled, path))
  }

  datatype PositionSync = Skipped | SyncResponse(response: Fields) | SyncWarning(error: string)

  datatype SyncOutcome = SyncOutcome(outcome: Result<PositionSync, Error>, sent: seq<Sent>)

  /** The position sync: a gateway failure is a warning on a paper run and
      stops a live one. */
  function SyncStep(s: Setup, gw: Gateway, settings: SyncSettings): SyncOutcome {
    if !settings.enabled then SyncOutcome(Ok(Skipped), [])
    else
      var call := SyncCall(s, settings.path);
      match gw(call)
      case Ok(v) => SyncOutcome(Ok(SyncResponse(v)), [call])
      case Err(e) =>
        if !e.PublisherError? then SyncOutcome(Err(e), [call])
        else if !LiveRequested(s) then SyncOutcome(Ok(SyncWarning(e.message)), [call])
        else SyncOutcome(Err(ConfigError("Position sync failed before live trade: " + e.message)), [call])
  }

  /** The result of a run: mode "dry-run" with its warning, or "live" with
      the trade's response. */
  datatype RunReport = RunReport(mode: string, warning: Option<string>, chain: string,
                                 signerMode: string, signerAddress: Json, rpcCapability: Report,
                                 positionSync: PositionSync, tradePlan: TradePlan, preflight: Fields,
                                 liveExecution: Option<Fields>)

  /** A run's result and the calls it made itself, in order. */
  datatype Run = Run(outcome: Result<RunReport, Error>, sent: seq<Sent>)

  /** The gauge ranking, the trade plan, the preflight, then the gate. */
  function Finish(s: Setup, gw: Gateway, capability: Report, sync: PositionSync, yesLive: bool): Run {
    var gauges := GaugesCall(s);
    match gw(gauges)
    case Err(e) => Run(Err(e), [gauges])
    case Ok(ranking) =>
      var plan := ChooseTradePlan(ranking, s.inputs.depositToken, s.inputs.depositAmountUsd);
      var preflight := PreflightCall(s, plan);
      match gw(preflight)
      case Err(e) => Run(Err(e), [gauges, preflight])
      case Ok(checked) =>
        if !LiveRequested(s) then
          Run(Ok(RunReport("dry-run", Some(DryRunWarning), s.inputs.chain, s.signer.mode, s.signer.address,
                           capability, sync, plan, checked, None)),
              [gauges, preflight])
        else if !yesLive then Run(Err(ConfigError(LiveNotConfirmed)), [gauges, preflight])
        else
          var trade := TradeCall(s, plan);
          match gw(trade)
          case Err(e) => Run(Err(e), [gauges, preflight, trade])
          case Ok(executed) =>
            Run(Ok(RunReport("live", None, s.inputs.chain, s.signer.mode, s.signer.address,
                             capability, sync, plan, checked, Some(executed))),
                [gauges, preflight, trade])
  }

  /** `run_once` after `Prepare`, given the capability report and the
      position-sync settings. */
  function RunWith(s: Setup, capability: Result<Report, Error>, settings: Result<SyncSettings, Error>,
                   gw: Gateway, yesLive: bool): Run {
    match capability
    case Err(e) => Run(Err(e), [])
    case Ok(report) =>
      match settings
      case Err(e) => Run(Err(e), [])
      case Ok(ss) =>
        var synced := SyncStep(s, gw, ss);
        match synced.outcome
        case Err(e) => Run(Err(e), synced.sent)
        case Ok(sync) =>
          var rest := Finish(s, gw, report, sync, yesLive);
          Run(rest.outcome, synced.sent + rest.sent)
  }

  /** `run_once` once `Prepare` has an outcome, with the capability check
      and the gateway as they depend on the setup. */
  function RunFrom(prepared: Result<Setup, Error>, check: Setup -> Result<Report, Error>,
                   settings: Result<SyncSettings, Error>, gateway: Setup -> Gateway, yesLive: bool): Run {
    match prepared
    case Err(e) => Run(Err(e), [])
    case Ok(s) => RunWith(s, check(s), settings, gateway(s), yesLive)
  }

  /** `run_once(config, yes_live, ledger_address)` in an environment, with
      the wallet files and the gateway. */
  function RunOnceOf(env: map<string, string>, config: Fields, yesLive: bool, ledgerAddress: string,
                     files: WalletFiles, t: Transport): Run {
    RunFrom(Prepare(env, config, ledgerAddress, files),
            (s: Setup) => CapabilityOf(s.client, t, s.inputs.chain, config),
            SyncSettingsOf(config), (s: Setup) => GatewayFor(s.client, t), yesLive)
  }

  // ---------------------------------------------------------------------
  // The gate
  // ---------------------------------------------------------------------

  /** A paper run never sends the trade and reports mode "dry-run". */
  lemma PaperRunNeverTrades(s: Setup, capability: Result<Report, Error>, settings: Result<SyncSettings, Error>,
                            gw: Gateway, yesLive: bool)
    requires !LiveRequested(s)
    ensures var run := RunWith(s, capability, settings, gw, yesLive);
            !Traded(run.sent)
            && (run.outcome.Ok? ==> run.outcome.value.mode == "dry-run"
                                    && run.outcome.value.warning == Some(DryRunWarning)
                                    && run.outcome.value.liveExecution.None?)
  {
  }

  /** The calls `Finish` makes: the ranking first, and the trade only as
      the third call, after a preflight of the same body that succeeded. */
  lemma FinishTrail(s: Setup, gw: Gateway, report: Report, sync: PositionSync, yesLive: bool)
    ensures var f := Finish(s, gw, report, sync, yesLive);
            1 <= |f.sent| <= 3 && f.sent[0].purpose == FetchGauges
            && (|f.sent| >= 2 ==> f.sent[1].purpose == Preflight)
            && (Traded(f.sent) <==> |f.sent| == 3)
            && (|f.sent| == 3 ==>
                  LiveRequested(s) && yesLive && f.sent[2].purpose == LiveTrade
                  && f.sent[2].body == f.sent[1].body && gw(f.sent[1]).Ok?)
            && ((f.outcome.Ok? && f.outcome.value.mode == "live") <==> (|f.sent| == 3 && gw(f.sent[2]).Ok?))
  {
    var f := Finish(s, gw, report, sync, yesLive);
    var gauges := GaugesCall(s);
    if gw(gauges).Ok? {
      var plan := ChooseTradePlan(gw(gauges).value, s.inputs.depositToken, s.inputs.depositAmountUsd);
      var preflight := PreflightCall(s, plan);
      if gw(preflight).Ok? && LiveRequested(s) && yesLive {
        assert f.sent == [gauges, preflight, TradeCall(s, plan)];
        assert f.sent[2].purpose == LiveTrade;
      } else if gw(preflight).Ok? {
        assert f.sent == [gauges, preflight];
      } else {
        assert f.sent == [gauges, preflight];
      }
    } else {
      assert f.sent == [gauges];
    }
  }

  /** The position sync makes at most one call, to sync. */
  lemma SyncTrail(s: Setup, gw: Gateway, settings: SyncSettings)
    ensures var synced := SyncStep(s, gw, settings);
            |synced.sent| <= 1 && forall k :: 0 <= k < |synced.sent| ==> synced.sent[k].purpose == SyncPositions
  {
  }

  /** Calls that are not trades, put before a trail, change neither whether
      it trades nor its last two calls. */
  lemma TrailAfterSync(a: seq<Sent>, b: seq<Sent>)
    requires forall k :: 0 <= k < |a| ==> a[k].purpose != LiveTrade
    ensures Traded(a + b) <==> Traded(b)
    ensures |b| >= 1 ==> (a + b)[|a + b| - 1] == b[|b| - 1]
    ensures |b| >= 2 ==> (a + b)[|a + b| - 2] == b[|b| - 2]
    ensures (forall k :: 0 <= k < |b| - 1 ==> b[k].purpose != LiveTrade)
            ==> forall k :: 0 <= k < |a + b| - 1 ==> (a + b)[k].purpose != LiveTrade
  {
    if Traded(a + b) {
      var k :| 0 <= k < |a + b| && (a + b)[k].purpose == LiveTrade;
      assert b[k - |a|].purpose == LiveTrade;
    }
    if Traded(b) {
      var k :| 0 <= k < |b| && b[k].purpose == LiveTrade;
      assert (a + b)[|a| + k].purpose == LiveTrade;
    }
  }

  /** The trade is sent only on a live run confirmed with `yes_live`, as the
      last call and the only trade, right after a preflight of the same
      plan that succeeded. */
  lemma TradeOnlyWhenConfirmed(s: Setup, capability: Result<Report, Error>, settings: Result<SyncSettings, Error>,
                               gw: Gateway, yesLive: bool)
    ensures var run := RunWith(s, capability, settings, gw, yesLive);
            Traded(run.sent) ==>
              LiveRequested(s) && yesLive && capability.Ok? && settings.Ok?
              && |run.sent| >= 2
              && run.sent[|run.sent| - 1].purpose == LiveTrade
              && run.sent[|run.sent| - 2].purpose == Preflight
              && run.sent[|run.sent| - 1].body == run.sent[|run.sent| - 2].body
              && gw(run.sent[|run.sent| - 2]).Ok?
              && forall k :: 0 <= k < |run.sent| - 1 ==> run.sent[k].purpose != LiveTrade
  {
    if capability.Ok? && settings.Ok? {
      var synced := SyncStep(s, gw, settings.value);
      SyncTrail(s, gw, settings.value);
      if synced.outcome.Ok? {
        var rest := Finish(s, gw, capability.value, synced.outcome.value, yesLive);
        FinishTrail(s, gw, capability.value, synced.outcome.value, yesLive);
        TrailAfterSync(synced.sent, rest.sent);
      }
    }
  }

  /** A run reports mode "live" exactly when the trade was sent and
      answered. */
  lemma LiveReportMeansTraded(s: Setup, capability: Result<Report, Error>, settings: Result<SyncSettings, Error>,
                              gw: Gateway, yesLive: bool)
    ensures var run := RunWith(s, capability, settings, gw, yesLive);
            (run.outcome.Ok? && run.outcome.value.mode == "live")
            <==> (Traded(run.sent) && gw(run.sent[|run.sent| - 1]).Ok?)
  {
    if capability.Ok? && settings.Ok? {
      var synced := SyncStep(s, gw, settings.value);
      SyncTrail(s, gw, settings.value);
      if synced.outcome.Ok? {
        var rest := Finish(s, gw, capability.value, synced.outcome.value, yesLive);
        FinishTrail(s, gw, capability.value, synced.outcome.value, yesLive);
        TrailAfterSync(synced.sent, rest.sent);
      }
    }
  }

  /** A live run without `yes_live` never trades and always fails; once its
      preflight has passed, with the confirmation error. */
  lemma LiveRunNeedsConfirmation(s: Setup, capability: Result<Report, Error>, settings: Result<SyncSettings, Error>,
                                 gw: Gateway)
    requires LiveRequested(s)
    ensures var run := RunWith(s, capability, settings, gw, false);
            !Traded(run.sent) && run.outcome.Err?
    ensures var run := RunWith(s, capability, settings, gw, false);
            run.sent != [] && run.sent[|run.sent| - 1].purpose == Preflight && gw(run.sent[|run.sent| - 1]).Ok? ==>
              run.outcome == Err(ConfigError(LiveNotConfirmed))
  {
    var run := RunWith(s, capability, settings, gw, false);
    if capability.Ok? && settings.Ok? {
      var synced := SyncStep(s, gw, settings.value);
      if synced.outcome.Ok? {
        var rest := Finish(s, gw, capability.value, synced.outcome.value, false);
        assert run.sent == synced.sent + rest.sent;
      }
    }
  }

  /** A failed position sync is only a warning on a paper run; on a live run
      it is a `ConfigError` quoting the failure and nothing further is sent. */
  lemma SyncFailureStopsLiveRun(s: Setup, report: Report, settings: SyncSettings, gw: Gateway, yesLive: bool)
    requires settings.enabled
    requires gw(SyncCall(s, settings.path)).Err? && gw(SyncCall(s, settings.path)).error.PublisherError?
    ensures var run := RunWith(s, Ok(report), Ok(settings), gw, yesLive);
            var failure := gw(SyncCall(s, settings.path)).error.message;
            if LiveRequested(s) then
              run == Run(Err(ConfigError("Position sync failed before live trade: " + failure)), [SyncCall(s, settings.path)])
            else
              run.sent[0] == SyncCall(s, settings.path)
              && (run.outcome.Ok? ==> run.outcome.value.positionSync == SyncWarning(failure))
  {
  }

  /** Without an API key nothing is called and the run fails with a
      `ConfigError`. */
  lemma NoApiKeyNoCalls(env: map<string, string>, config: Fields, yesLive: bool, ledgerAddress: string,
                        files: WalletFiles, t: Transport)
    requires Strip(EnvGet(env, "SEREN_API_KEY", "")) == []
    ensures RunOnceOf(env, config, yesLive, ledgerAddress, files, t) == Run(Err(ConfigError(MissingApiKey)), [])
  {
  }

  /** The gate, whatever the capability check and the gateway answer: the
      trade is sent only when the setup succeeded with `dry_run` false,
      `live_mode` true and `yes_live` given; and every successful run of a
      setup that leaves `dry_run` on, or `live_mode` off, is a dry run. */
  lemma RunFromGate(prepared: Result<Setup, Error>, check: Setup -> Result<Report, Error>,
                    settings: Result<SyncSettings, Error>, gateway: Setup -> Gateway, yesLive: bool)
    ensures var run := RunFrom(prepared, check, settings, gateway, yesLive);
            Traded(run.sent) ==> prepared.Ok? && LiveRequested(prepared.value) && yesLive
    ensures var run := RunFrom(prepared, check, settings, gateway, yesLive);
            prepared.Ok? && !LiveRequested(prepared.value) ==>
              !Traded(run.sent) && (run.outcome.Ok? ==> run.outcome.value.mode == "dry-run")
  {
    if prepared.Ok? {
      var s := prepared.value;
      TradeOnlyWhenConfirmed(s, check(s), settings, gateway(s), yesLive);
      if !LiveRequested(s) {
        PaperRunNeverTrades(s, check(s), settings, gateway(s), yesLive);
      }
    }
  }

  /** The gate, for `run_once` itself: the trade is sent only when the API
      key is set, the inputs are valid, `dry_run` is false, `live_mode` is
      true and `yes_live` is given. */
  lemma RunOnceGate(env: map<string, string>, config: Fields, yesLive: bool, ledgerAddress: string,
                    files: WalletFiles, t: Transport)
    ensures var run := RunOnceOf(env, config, yesLive, ledgerAddress, files, t);
            Traded(run.sent) ==>
              var p := Prepare(env, config, ledgerAddress, files);
              p.Ok? && ValidInputs(p.value.inputs) && !p.value.dryRun && p.value.inputs.liveMode && yesLive
    ensures var run := RunOnceOf(env, config, yesLive, ledgerAddress, files, t);
            var p := Prepare(env, config, ledgerAddress, files);
            p.Ok? && !LiveRequested(p.value) ==>
              !Traded(run.sent) && (run.outcome.Ok? ==> run.outcome.value.mode == "dry-run")
  {
    RunFromGate(Prepare(env, config, ledgerAddress, files),
                (s: Setup) => CapabilityOf(s.client, t, s.inputs.chain, config),
                SyncSettingsOf(config), (s: Setup) => GatewayFor(s.client, t), yesLive);
  }
}
