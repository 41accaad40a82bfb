# Seren gateway trading clients, modelled in Dafny

This project models three Python clients of the Seren gateway. All three
reach a trading venue's API through `/publishers/<slug>` paths.

* **The Curve gauge-yield agent** (`curve/curve-gauge-yield-trader/scripts/agent.py`):
  * the `SerenPublisherClient` (base-URL normalisation, requests, the paged
    publisher catalogue);
  * the validation of the `inputs` block and the signer;
  * the discovery of an RPC publisher per chain (tokenizer, "RPC-like" test,
    scoring and tie-break, `rpc_publishers` overrides);
  * the RPC capability probes;
  * `run_once`, whose gate keeps every run a dry run unless live mode is
    configured and confirmed with `--yes-live`.
* **The Polymarket client** (`polymarket/bot/scripts/polymarket_client.py`):
  * the choice between desktop publisher authentication and direct POLY_*
    headers;
  * the trading-publisher aliases read from `POLYMARKET_TRADING_PUBLISHERS`;
  * the fallback from one alias to the next on 404, 401 and 403 answers;
  * `get_balance`.
* **The Coinbase `SerenClient`** (`coinbase/grid-trader/scripts/seren_client.py`):
  * the choice between publisher-side authentication and signed
    CB-ACCESS-* headers;
  * the request it builds, including the signing message and the query
    string;
  * how it reads HTTP statuses and the gateway envelope;
  * the product filters;
  * the best-effort `cancel_all_orders` loop.

Modules:

| module | file | what it holds |
|---|---|---|
| `Wrappers` | `wrappers.dfy` | `Option` and `Result` |
| `Text` | `text.dfy` | the Python string operations the sources use (`strip`, `lower`, `upper`, `split`, `join`, `in`, `sorted`, `str(int)`) |
| `Json` | `json.dfy` | decoded JSON values and Python's `dict.get`, `bool()`, `str()`, `float()`, `int()`, `json.dumps` on them |
| `CurveClient`, `CurveDiscovery`, `CurveCapability`, `CurveAgent` | `curve_*.dfy` | the Curve agent |
| `Polymarket` | `polymarket_client.dfy` | the Polymarket client |
| `Coinbase` | `coinbase_client.dfy` | the Coinbase client |

How the model is built:

* A client is never changed after its constructor returns, so each client is
  a datatype built by a function that returns a `Result`. The constructor's
  `ValueError` is the `Err` case.
* The network is a function parameter: a `Transport` for raw HTTP, or a
  `Gateway` / `Api` for already-decoded answers. Loops that call it are
  methods. Each method is proved equal to a recursive specification
  function, and the properties are lemmas about that function. The
  loops are:
  * the catalogue pages;
  * discovery;
  * the overrides;
  * the probe list;
  * the probes;
  * the alias fallback;
  * `cancel_all_orders`.
* Each loop method also returns the calls it made, so that lemmas can
  state which requests are sent, in what order, and which never are.

## Model

| member | source | states |
|---|---|---|
| `Text.Strip` | curve/curve-gauge-yield-trader/scripts/agent.py:638 | `str.strip()`: the result has no whitespace at either end and is no longer than the input |
| `Text.StripRemovesOuterSpace` | curve/curve-gauge-yield-trader/scripts/agent.py:638 | the result is the input with only whitespace taken off its start and its end: the input is some whitespace, the result, and some whitespace, in that order |
| `Text.Upper` | coinbase/grid-trader/scripts/seren_client.py:81 | `str.upper()` on ASCII: same length, each character upper-cased |
| `Text.UpperIdempotent` | coinbase/grid-trader/scripts/seren_client.py:81 | upper-casing twice is upper-casing once |
| `Text.Split` | polymarket/bot/scripts/polymarket_client.py:71 | `s.split(',')`: at least one part, and no part holds the separator |
| `Text.SplitJoin` | polymarket/bot/scripts/polymarket_client.py:70-72 | splitting a join on a separator that no part holds gives the parts back |
| `Text.JoinContainsEach` | coinbase/grid-trader/scripts/seren_client.py:116 | every part of `sep.join(parts)` occurs in the joined text |
| `Text.SortStrings` | curve/curve-gauge-yield-trader/scripts/agent.py:512 | `sorted()` on strings: ordered by Python's `<` and a permutation (same multiset) of the input |
| `Text.RStripChar` | curve/curve-gauge-yield-trader/scripts/agent.py:85 | `s.rstrip('/')`: a prefix of `s` that does not end in the character, and the rest of `s` is only that character |
| `Json.Lookup` | curve/curve-gauge-yield-trader/scripts/agent.py:213 | `d.get(key)` finds a value exactly when some entry has the key, and the key with that value is one of the entries; the same lookup serves `discovered.get(chain)` (curve/curve-gauge-yield-trader/scripts/agent.py:425) and any other string-keyed dict |
| `CurveClient.NewPublisherClient` | curve/curve-gauge-yield-trader/scripts/agent.py:83-89 | keeps the API key; the base URL is a prefix of the given one and has no trailing slash |
| `CurveClient.RStripSlashes` | curve/curve-gauge-yield-trader/scripts/agent.py:85 | stripping any number of trailing slashes from text that does not end in one gives that text back |
| `CurveClient.NormalizeBareHost` | curve/curve-gauge-yield-trader/scripts/agent.py:83-89 | a host with trailing slashes normalises to the host |
| `CurveClient.NormalizeHostPublishers` | curve/curve-gauge-yield-trader/scripts/agent.py:86-89 | a host followed by `/publishers` and slashes normalises to the host |
| `CurveClient.NormalizeHostVersioned` | curve/curve-gauge-yield-trader/scripts/agent.py:86-89 | a host followed by `/v1/publishers` and slashes normalises to the host |
| `CurveClient.NormalizeDropsPublishersSuffix` | curve/curve-gauge-yield-trader/scripts/agent.py:83-89 | any of the three accepted suffixes, with any number of trailing slashes, normalises to the bare host |
| `CurveClient.PathWithSlash` | curve/curve-gauge-yield-trader/scripts/agent.py:98 | a path that starts with `/` is kept as it is; any other path gets exactly one `/` in front; either way the result starts with `/` |
| `CurveClient.Send` | curve/curve-gauge-yield-trader/scripts/agent.py:91-130 | succeeds exactly when the transport delivered a JSON object, and returns that object; every failure is a `PublisherError` |
| `CurveClient.Call` | curve/curve-gauge-yield-trader/scripts/agent.py:132-141 | one request to `{base}/publishers/{publisher}{path}` with the bearer token; succeeds exactly on a JSON object answer; every error message starts with the publisher's name |
| `CurveClient.KeepObjects` | curve/curve-gauge-yield-trader/scripts/agent.py:154 | keeps exactly the dict items, none added |
| `CurveClient.KeepObjectsAppend` | curve/curve-gauge-yield-trader/scripts/agent.py:154 | the filter keeps the order of the items: filtering a concatenation is the concatenation of the filtered parts |
| `CurveClient.KeepObjectsOne` | curve/curve-gauge-yield-trader/scripts/agent.py:154 | a single item is kept exactly when it is a dict |
| `CurveClient.ReadPage` | curve/curve-gauge-yield-trader/scripts/agent.py:150-166 | a failed request fails the page with its error; a payload whose `data` is not a list fails with "missing data list", and only those two cases fail; the page's items are the dict items of `data` in order; paging goes on exactly when `pagination` is a dict whose `has_more` is truthy and some item was kept; the offset then moves by `Advance` of `pagination.count`, which is positive |
| `CurveClient.Advance` | curve/curve-gauge-yield-trader/scripts/agent.py:162-166 | the offset moves by `count` when it is a positive int (`True` counts as 1), otherwise by the number of kept items; it moves forward whenever an item was kept |
| `CurveClient.ServedPagesWellFormed` | curve/curve-gauge-yield-trader/scripts/agent.py:149-166 | every page the gateway serves is well formed in that sense |
| `CurveClient.PagingBound` | curve/curve-gauge-yield-trader/scripts/agent.py:147-160 | the walk makes at most one request per remaining page, and at least one when any remain, starting at the current offset |
| `CurveClient.CatalogRequestBound` | curve/curve-gauge-yield-trader/scripts/agent.py:143-147 | at most `max_pages` requests, none when it is not positive, and the first one at offset 0 |
| `CurveClient.PagingKeepsObjects` | curve/curve-gauge-yield-trader/scripts/agent.py:154-155 | the walk only ever collects dict items |
| `CurveClient.CatalogHoldsOnlyObjects` | curve/curve-gauge-yield-trader/scripts/agent.py:143-168 | every publisher in the catalogue is a dict |
| `CurveClient.PagingOffsetsIncrease` | curve/curve-gauge-yield-trader/scripts/agent.py:162-166 | the requested offsets strictly increase |
| `CurveClient.CatalogOffsetsIncrease` | curve/curve-gauge-yield-trader/scripts/agent.py:145-166 | the walk starts at offset 0 and never requests an offset twice |
| `CurveClient.EmptyPageEndsCatalog` | curve/curve-gauge-yield-trader/scripts/agent.py:159-160 | a first page with no dict item ends the walk after one request with an empty catalogue, whatever `has_more` says |
| `CurveClient.WalkCatalog` | curve/curve-gauge-yield-trader/scripts/agent.py:143-168 | the loop computes the catalogue and the offsets of the specification walk, within `max_pages` requests |
| `CurveClient.ListPublishers` | curve/curve-gauge-yield-trader/scripts/agent.py:143-168 | `list_publishers` over the gateway: the specification walk, within `max_pages` requests, holding only dicts |
| `CurveDiscovery.RunLength` | curve/curve-gauge-yield-trader/scripts/agent.py:353 | the leading run of `[a-z0-9]` is maximal |
| `CurveDiscovery.Runs` | curve/curve-gauge-yield-trader/scripts/agent.py:353 | every piece `re.split(r"[^a-z0-9]+")` keeps is non-empty and made of token characters |
| `CurveDiscovery.Tokenize` | curve/curve-gauge-yield-trader/scripts/agent.py:352-353 | every token is non-empty and made of `[a-z0-9]` |
| `CurveDiscovery.WholeTokenInSuffix` | curve/curve-gauge-yield-trader/scripts/agent.py:353 | whole-token matches are unchanged by dropping a prefix that ends at a token boundary |
| `CurveDiscovery.WholeTokenAfterSeparator` | curve/curve-gauge-yield-trader/scripts/agent.py:353 | a leading separator changes no whole token |
| `CurveDiscovery.WholeTokenAtStart` | curve/curve-gauge-yield-trader/scripts/agent.py:353 | the whole token at the start is exactly the first run |
| `CurveDiscovery.WholeTokenPastRun` | curve/curve-gauge-yield-trader/scripts/agent.py:353 | a whole token after the first run is a whole token of the text |
| `CurveDiscovery.WholeTokenBeyondRun` | curve/curve-gauge-yield-trader/scripts/agent.py:353 | any other whole token lies after the first run |
| `CurveDiscovery.WholeTokenAfterRun` | curve/curve-gauge-yield-trader/scripts/agent.py:353 | the whole tokens of text that starts with a run are that run and the whole tokens after it |
| `CurveDiscovery.RunsAreWholeTokens` | curve/curve-gauge-yield-trader/scripts/agent.py:353 | the split pieces are exactly the whole tokens (both directions) |
| `CurveDiscovery.TokenizeFindsWholeTokens` | curve/curve-gauge-yield-trader/scripts/agent.py:352-353 | `t in _tokenize(v)` exactly when `t` occurs as a whole token of `v.lower()`: "grpc" does not yield "rpc" |
| `CurveDiscovery.LoweredStrings` | curve/curve-gauge-yield-trader/scripts/agent.py:336-338 | no more texts than categories; which texts and in what order are given by `LoweredStringsHolds`, `LoweredStringsAppend` and `LoweredStringsOne` |
| `CurveDiscovery.LoweredStringsHolds` | curve/curve-gauge-yield-trader/scripts/agent.py:336-338 | a text is in the result exactly when some category is a string whose lower-cased form is that text |
| `CurveDiscovery.LoweredStringsAppend` | curve/curve-gauge-yield-trader/scripts/agent.py:336-338 | the categories keep their order: the texts of a concatenation are the texts of its parts, concatenated |
| `CurveDiscovery.LoweredStringsOne` | curve/curve-gauge-yield-trader/scripts/agent.py:336-338 | one category gives its lower-cased text when it is a string, and nothing otherwise |
| `CurveDiscovery.Score` | curve/curve-gauge-yield-trader/scripts/agent.py:392-402 | the score lies between 0 and 50 (20 + 12 + 8 + 6 + 4) |
| `CurveDiscovery.Consider` | curve/curve-gauge-yield-trader/scripts/agent.py:363-402 | a publisher gives a candidate exactly when it is eligible (a dict, not inactive, RPC-like, non-blank slug, a term among its tokens), and the candidate carries its stripped lowered slug |
| `CurveDiscovery.AtLeastTransitive` | curve/curve-gauge-yield-trader/scripts/agent.py:403 | the ranking of the tie-break (higher score, then smaller slug) is transitive |
| `CurveDiscovery.JudgeForIsProper` | curve/curve-gauge-yield-trader/scripts/agent.py:363-402 | every candidate the inner loop considers has a non-empty slug and a score of at least 0 |
| `CurveDiscovery.StepIsMax` | curve/curve-gauge-yield-trader/scripts/agent.py:403-405 | one update keeps the better of the best so far and the new candidate |
| `CurveDiscovery.ScanFromIsArgmax` | curve/curve-gauge-yield-trader/scripts/agent.py:361-405 | the scan ends at a candidate ranking at least as high as its start and as every candidate seen |
| `CurveDiscovery.ScanIsArgmax` | curve/curve-gauge-yield-trader/scripts/agent.py:361-405 | from the initial `-1, ""`, the result is empty exactly when no candidate exists, otherwise one of them, ranking at least as high as all |
| `CurveDiscovery.BestForIsArgmax` | curve/curve-gauge-yield-trader/scripts/agent.py:361-405 | the chosen slug is an eligible publisher's with the highest score, the smallest slug among ties; none exactly when no publisher is eligible |
| `CurveDiscovery.SlugForAppend` | curve/curve-gauge-yield-trader/scripts/agent.py:407-408 | a lookup after adding one entry |
| `CurveDiscovery.DiscoverFromKeeps` | curve/curve-gauge-yield-trader/scripts/agent.py:360-408 | chains already found, or not listed, keep their lookup |
| `CurveDiscovery.DiscoverFromFinds` | curve/curve-gauge-yield-trader/scripts/agent.py:360-408 | a listed chain maps to its inner loop's slug when that slug is non-empty |
| `CurveDiscovery.DiscoverFromKeys` | curve/curve-gauge-yield-trader/scripts/agent.py:360-408 | every new entry is a listed chain with a non-empty slug |
| `CurveDiscovery.DiscoverFromDistinct` | curve/curve-gauge-yield-trader/scripts/agent.py:360-408 | no chain is recorded twice |
| `CurveDiscovery.NamesOf` | curve/curve-gauge-yield-trader/scripts/agent.py:62-73 | the chain names in declaration order |
| `CurveDiscovery.OneOfEach` | curve/curve-gauge-yield-trader/scripts/agent.py:50-61 | each listed name is a member of the list |
| `CurveDiscovery.DiscoveryChainsSupported` | curve/curve-gauge-yield-trader/scripts/agent.py:50-73 | the discovery table names exactly the supported chains, all of them supported |
| `CurveDiscovery.DiscoveryChainsDistinct` | curve/curve-gauge-yield-trader/scripts/agent.py:62-73 | each chain appears once in the discovery table |
| `CurveDiscovery.DiscoveredSlugIsBest` | curve/curve-gauge-yield-trader/scripts/agent.py:356-410 | the discovered slug of a chain is the best candidate for its terms, absent when there is none or the chain has no terms |
| `CurveDiscovery.DiscoveredEntriesWellFormed` | curve/curve-gauge-yield-trader/scripts/agent.py:356-410 | the discovered mapping has distinct, supported chains and non-empty slugs |
| `CurveDiscovery.BestCandidate` | curve/curve-gauge-yield-trader/scripts/agent.py:361-405 | the inner loop computes the best candidate of the specification |
| `CurveDiscovery.DiscoverOver` | curve/curve-gauge-yield-trader/scripts/agent.py:360-408 | the outer loop computes the specification mapping |
| `CurveDiscovery.DiscoverRpcPublishers` | curve/curve-gauge-yield-trader/scripts/agent.py:356-410 | `_discovered_rpc_publishers` over a catalogue computes the specification mapping |
| `CurveDiscovery.AllValidEach` | curve/curve-gauge-yield-trader/scripts/agent.py:321-327 | every entry is valid exactly when each one is |
| `CurveDiscovery.CleanOverridesAcceptsValid` | curve/curve-gauge-yield-trader/scripts/agent.py:321-328 | the loop succeeds exactly when all entries are valid |
| `CurveDiscovery.CleanOverridesAccepts` | curve/curve-gauge-yield-trader/scripts/agent.py:321-328 | the loop succeeds exactly when every entry names a supported chain and a non-blank string |
| `CurveDiscovery.CleanOverridesErrors` | curve/curve-gauge-yield-trader/scripts/agent.py:322-327 | every error the loop raises is a `ConfigError` |
| `CurveDiscovery.CleanSlugsUpdate` | curve/curve-gauge-yield-trader/scripts/agent.py:328 | storing a stripped non-empty slug under a supported chain keeps the mapping clean |
| `CurveDiscovery.CleanOverridesSlugs` | curve/curve-gauge-yield-trader/scripts/agent.py:321-328 | the result maps supported chains to stripped, non-empty slugs |
| `CurveDiscovery.ItemKeysCons` | curve/curve-gauge-yield-trader/scripts/agent.py:321 | the keys of a non-empty entry list are the first key and the rest |
| `CurveDiscovery.CleanOverridesKeys` | curve/curve-gauge-yield-trader/scripts/agent.py:321-328 | the result's keys are the given keys together with those cleaned before |
| `CurveDiscovery.CleanOverridesValues` | curve/curve-gauge-yield-trader/scripts/agent.py:321-328 | each key holds the stripped slug of its last entry |
| `CurveDiscovery.CleanOverridesSpec` | curve/curve-gauge-yield-trader/scripts/agent.py:313-329 | accepted exactly when all entries are valid; errors are `ConfigError`s; the result holds exactly the given keys, each with the stripped slug of its last entry |
| `CurveDiscovery.CleanOverridesUntouched` | curve/curve-gauge-yield-trader/scripts/agent.py:321-328 | a chain no entry names keeps its value |
| `CurveDiscovery.OverridesOfSpec` | curve/curve-gauge-yield-trader/scripts/agent.py:313-329 | `null` gives no overrides; errors are `ConfigError`s; a dict is accepted exactly when all entries are valid; the slugs are clean |
| `CurveDiscovery.RpcPublisherOverrides` | curve/curve-gauge-yield-trader/scripts/agent.py:313-329 | the method computes the specification overrides |
| `CurveDiscovery.ResolveRpcPublisher` | curve/curve-gauge-yield-trader/scripts/agent.py:413-438 | the method computes the specification resolution over the gateway's catalogue |
| `CurveDiscovery.OverrideDecides` | curve/curve-gauge-yield-trader/scripts/agent.py:419-422 | an override decides with no catalogue request and gives a non-empty publisher; a malformed override block fails before any request |
| `CurveDiscovery.CatalogReadOnlyWithoutOverride` | curve/curve-gauge-yield-trader/scripts/agent.py:421-424 | the catalogue is read only without an override for the chain, and then with `list_publishers`' paging |
| `CurveDiscovery.CatalogPublisherIsBest` | curve/curve-gauge-yield-trader/scripts/agent.py:424-427 | a publisher from the catalogue is the best candidate for the chain's terms and is non-empty |
| `CurveDiscovery.NoPublisherMeansNoCandidate` | curve/curve-gauge-yield-trader/scripts/agent.py:424-438 | the "no publisher" error comes only when no catalogue entry is eligible for the chain's terms |
| `CurveDiscovery.NoPublisherShowsAvailable` | curve/curve-gauge-yield-trader/scripts/agent.py:434-437 | the error message quotes the available list |
| `CurveDiscovery.AvailableListsDiscovered` | curve/curve-gauge-yield-trader/scripts/agent.py:429-433 | "none" exactly when nothing was discovered; otherwise the `chain:slug` texts joined by ", ", taken from the discovered pairs sorted by chain: as many as discovered, in sorted key order, each one discovered and each discovered pair present and named in the text |
| `CurveDiscovery.SlugForFirst` | curve/curve-gauge-yield-trader/scripts/agent.py:431 | the lookup of an entry's chain returns that entry's slug when no earlier entry has the chain |
| `CurveCapability.DefaultProbesSendable` | curve/curve-gauge-yield-trader/scripts/agent.py:23-49 | the three default probes use a supported method and a path starting with `/` |
| `CurveCapability.CheckProbe` | curve/curve-gauge-yield-trader/scripts/agent.py:461-475 | accepted exactly when the verb is one of the allowed methods, the path starts with `/` and the body is a dict; an accepted probe is sendable and carries those fields; each error is a `ConfigError` naming the entry's index |
| `CurveCapability.ReadProbe` | curve/curve-gauge-yield-trader/scripts/agent.py:456-475 | accepted exactly when the entry is a dict whose upper-cased `method` (default GET) is allowed, whose `path` starts with `/` and whose `body` (default an empty dict) is a dict; the accepted probe carries exactly those verb, path and body and is sendable; a non-dict entry gives the "must be an object" error; every error is a `ConfigError` naming the entry's index |
| `CurveCapability.ProbesFromReadsEach` | curve/curve-gauge-yield-trader/scripts/agent.py:454-476 | the loop succeeds exactly when every entry is accepted, and appends their probes in order |
| `CurveCapability.ProbesFromFirstError` | curve/curve-gauge-yield-trader/scripts/agent.py:454-468 | a rejected list fails with its first bad entry's error |
| `CurveCapability.ProbeConfigDefaults` | curve/curve-gauge-yield-trader/scripts/agent.py:446-449 | `required` defaults to true; without `probes` the three default probes are used |
| `CurveCapability.ReadAllProbes` | curve/curve-gauge-yield-trader/scripts/agent.py:454-476 | the list is accepted exactly when each entry is, gives one probe per entry in order, or fails with an entry's error |
| `CurveCapability.ProbeConfigReadsEach` | curve/curve-gauge-yield-trader/scripts/agent.py:441-476 | a non-empty probe list is read entry by entry |
| `CurveCapability.ProbeConfigSendable` | curve/curve-gauge-yield-trader/scripts/agent.py:441-476 | a successful result is a non-empty list of sendable probes; every failure is a `ConfigError`; a non-dict `rpc_capability` gives exactly its "must be an object" error; a `probes` entry that is present but not a non-empty list gives exactly the "must be a non-empty list" error |
| `CurveCapability.RpcProbeConfig` | curve/curve-gauge-yield-trader/scripts/agent.py:441-476 | the method computes the specification configuration |
| `CurveCapability.Labels` | curve/curve-gauge-yield-trader/scripts/agent.py:517 | one `METHOD path` label per probe, in order |
| `CurveCapability.TryProbesInOrder` | curve/curve-gauge-yield-trader/scripts/agent.py:494-515 | probes are tried in order; every probe before the answered one failed, with its error recorded; the answer comes from the probe after the recorded errors; with no answer every probe failed |
| `CurveCapability.TryProbesStopsAtAnswer` | curve/curve-gauge-yield-trader/scripts/agent.py:505-513 | probes after the first answered one are never sent |
| `CurveCapability.FailureMessageListsAll` | curve/curve-gauge-yield-trader/scripts/agent.py:517-524 | the failure message names every probe and quotes every error |
| `CurveCapability.VerdictSpec` | curve/curve-gauge-yield-trader/scripts/agent.py:505-535 | an answer gives an `ok` report for `rpc_<chain>` with the sorted response keys; otherwise a `ConfigError` exactly when the check is required, else a warning, whose message names every probe and error |
| `CurveCapability.AllProbesFailed` | curve/curve-gauge-yield-trader/scripts/agent.py:494-515 | no answer exactly when every probe fails, and then every probe's error is quoted, in order |
| `CurveCapability.CheckRpcCapability` | curve/curve-gauge-yield-trader/scripts/agent.py:479-535 | the method computes the specification capability report |
| `CurveAgent.CheckInputs` | curve/curve-gauge-yield-trader/scripts/agent.py:224-240 | accepted exactly when valid; every error is a `ConfigError`; an unsupported chain is reported first |
| `CurveAgent.ResolveInputs` | curve/curve-gauge-yield-trader/scripts/agent.py:212-240 | a non-dict block is rejected; a `deposit_amount_usd` or `top_n_gauges` that `float()`/`int()` cannot convert raises; otherwise the block is accepted exactly when the converted inputs (the given values or the defaults, through `str`/`bool`) are valid, the accepted inputs are those converted values, and a rejection is a `ConfigError` |
| `CurveAgent.DefaultInputs` | curve/curve-gauge-yield-trader/scripts/agent.py:213-222 | no `inputs` block gives ethereum, a local wallet, paper mode, 100 USDC and 3 gauges |
| `CurveAgent.LoadLocalWallet` | curve/curve-gauge-yield-trader/scripts/agent.py:274-286 | loaded exactly when the file holds a dict with `address` and `private_key_hex`, and then that dict; errors are `ConfigError`s |
| `CurveAgent.ResolveSigner` | curve/curve-gauge-yield-trader/scripts/agent.py:289-310 | a local signer takes the wallet's address and key; a ledger signer needs a non-empty address |
| `CurveAgent.OrElse` | curve/curve-gauge-yield-trader/scripts/agent.py:564-565 | `x or fallback`: the found value when truthy, else the fallback |
| `CurveAgent.TradePlanFromTopGauge` | curve/curve-gauge-yield-trader/scripts/agent.py:552-571 | the plan keeps token and amount, takes the top gauge's address and APY (or APR) when truthy, and never leaves an entry falsy |
| `CurveAgent.NoRankingNoGauge` | curve/curve-gauge-yield-trader/scripts/agent.py:558-565 | a ranking without a usable top gauge gives "unknown" for address and APY |
| `CurveAgent.Prepare` | curve/curve-gauge-yield-trader/scripts/agent.py:638-658 | no API key fails first; with a key, invalid inputs fail with the error `_resolve_inputs` raised; a success carries the client, inputs and dry-run flag the configuration gives and the signer resolved from the wallet settings and the ledger address (the argument, or the configured one when it is empty); with a key and valid inputs, bad wallet settings fail with their error, and otherwise the run succeeds exactly when the signer resolves, failing with the signer's error |
| `CurveAgent.SyncSettingsOf` | curve/curve-gauge-yield-trader/scripts/agent.py:664-673 | a non-dict block gives the defaults (enabled, default path); for a dict block the settings are accepted exactly when `str` of its `path` (default path by default) starts with `/`, and then carry `bool` of its `enabled` (true by default) and that path; the only error is the `position_sync.path` `ConfigError` |
| `CurveAgent.PaperRunNeverTrades` | curve/curve-gauge-yield-trader/scripts/agent.py:708-723 | a run without live mode, or with `dry_run`, never sends the trade and reports "dry-run" with the warning |
| `CurveAgent.FinishTrail` | curve/curve-gauge-yield-trader/scripts/agent.py:691-748 | ranking first, preflight second, and the trade only third, with the preflight's body after a preflight that succeeded; "live" exactly when the trade succeeded |
| `CurveAgent.SyncTrail` | curve/curve-gauge-yield-trader/scripts/agent.py:675-690 | the position sync makes at most one call, to sync |
| `CurveAgent.TrailAfterSync` | curve/curve-gauge-yield-trader/scripts/agent.py:676-691 | calls before the trail that are not trades change neither whether it trades nor its last two calls |
| `CurveAgent.TradeOnlyWhenConfirmed` | curve/curve-gauge-yield-trader/scripts/agent.py:708-736 | the trade is sent only with live mode, no dry run and `--yes-live`, as the last call, right after a successful preflight of the same body, and only once |
| `CurveAgent.LiveReportMeansTraded` | curve/curve-gauge-yield-trader/scripts/agent.py:731-748 | "live" is reported exactly when the trade was sent and answered |
| `CurveAgent.LiveRunNeedsConfirmation` | curve/curve-gauge-yield-trader/scripts/agent.py:725-729 | a live run without `--yes-live` never trades and fails, after a successful preflight with the confirmation error |
| `CurveAgent.SyncFailureStopsLiveRun` | curve/curve-gauge-yield-trader/scripts/agent.py:684-690 | a failed sync is a warning on a paper run; on a live run it is a `ConfigError` quoting the failure, and nothing further is sent |
| `CurveAgent.NoApiKeyNoCalls` | curve/curve-gauge-yield-trader/scripts/agent.py:638-640 | without an API key nothing is called and the run fails with a `ConfigError` |
| `CurveAgent.RunFromGate` | curve/curve-gauge-yield-trader/scripts/agent.py:708-736 | a trade implies live mode requested and confirmed; a setup not requesting live mode stays a dry run |
| `CurveAgent.RunOnceGate` | curve/curve-gauge-yield-trader/scripts/agent.py:637-748 | `run_once` trades only with valid inputs, `dry_run` false, `live_mode` true and `--yes-live`; otherwise it is a dry run |
| `Polymarket.KeepNonBlank` | polymarket/bot/scripts/polymarket_client.py:70-72 | the kept entries are stripped and non-empty, no more than the parts; which entries and in what order are given by `KeepNonBlankHolds`, `KeepNonBlankAppend` and `KeepNonBlankOne` |
| `Polymarket.KeepNonBlankHolds` | polymarket/bot/scripts/polymarket_client.py:70-72 | an alias is kept exactly when it is not empty and is the stripped form of some entry |
| `Polymarket.KeepNonBlankAppend` | polymarket/bot/scripts/polymarket_client.py:70-72 | the entries keep their order: the aliases of a concatenation are the aliases of its parts, concatenated |
| `Polymarket.KeepNonBlankOne` | polymarket/bot/scripts/polymarket_client.py:70-72 | one entry gives its stripped form, or nothing when that is empty |
| `Polymarket.KeepNonBlankPieces` | polymarket/bot/scripts/polymarket_client.py:70-72 | the comprehension is the concatenation, in order, of what each entry gives |
| `Polymarket.KeepNonBlankWithout` | polymarket/bot/scripts/polymarket_client.py:71 | stripping and dropping entries adds no comma |
| `Polymarket.ParseAliases` | polymarket/bot/scripts/polymarket_client.py:68-75 | the aliases are stripped, non-empty and comma-free |
| `Polymarket.DefaultAliasesClean` | polymarket/bot/scripts/polymarket_client.py:75 | the two default aliases are clean |
| `Polymarket.ListedAliasesClean` | polymarket/bot/scripts/polymarket_client.py:70-72 | the entries kept from comma-free parts are clean |
| `Polymarket.NewClient` | polymarket/bot/scripts/polymarket_client.py:46-75 | `ValueError` exactly when legacy mode is forced without key, passphrase and address; the mode is auto-detected from those three otherwise; the mode name follows the flag; direct mode has all three; the client keeps each credential as `given or os.getenv(name)` and the aliases `ParseAliases` reads from `POLYMARKET_TRADING_PUBLISHERS` |
| `Polymarket.SecretNotConsidered` | polymarket/bot/scripts/polymarket_client.py:51-53 | the secret plays no part in the mode or the aliases |
| `Polymarket.DefaultAliasOrder` | polymarket/bot/scripts/polymarket_client.py:73-75 | a blank or missing setting gives `polymarket-trading` first, then `polymarket-trading-serenai` |
| `Polymarket.AliasesRoundTrip` | polymarket/bot/scripts/polymarket_client.py:68-72 | a clean alias list written comma-separated is read back as itself, in order |
| `Polymarket.SpacedAliasSetting` | polymarket/bot/scripts/polymarket_client.py:68-72 | the setting `"a, b"` gives the aliases `a` and `b`, in that order |
| `Polymarket.JoinedAliases` | polymarket/bot/scripts/polymarket_client.py:68-72 | a joined clean list is stripped, splits back into the list, and keeps every entry |
| `Polymarket.JoinedStripped` | polymarket/bot/scripts/polymarket_client.py:68 | a join of stripped entries has no surrounding whitespace |
| `Polymarket.SplitJoined` | polymarket/bot/scripts/polymarket_client.py:71 | splitting on commas undoes the join |
| `Polymarket.ParseStrippedSetting` | polymarket/bot/scripts/polymarket_client.py:68-72 | a stripped setting is read as its kept split entries |
| `Polymarket.KeepStripped` | polymarket/bot/scripts/polymarket_client.py:71 | stripped entries are all kept unchanged |
| `Polymarket.KeepCons` | polymarket/bot/scripts/polymarket_client.py:71 | a stripped first entry is kept in front |
| `Polymarket.AuthHeaders` | polymarket/bot/scripts/polymarket_client.py:77-85 | no headers exactly in desktop mode; otherwise the three POLY_* headers with the credentials or "" |
| `Polymarket.Answers` | polymarket/bot/scripts/polymarket_client.py:95-103 | one gateway answer per alias, in order, with the same method, path, headers and body |
| `Polymarket.CallTrading` | polymarket/bot/scripts/polymarket_client.py:87-123 | the loop computes the specification outcome and number of calls |
| `Polymarket.LastErrorNeverRaised` | polymarket/bot/scripts/polymarket_client.py:121-122 | once an alias is tried the remembered error has no effect: `raise last_error` cannot run |
| `Polymarket.NoAliasNoCall` | polymarket/bot/scripts/polymarket_client.py:121-123 | no alias gives no call and a `RuntimeError`; with an alias that error never occurs |
| `Polymarket.FallbackRaisesOnly` | polymarket/bot/scripts/polymarket_client.py:104-119 | with an alias to try, every failure is a raised exception |
| `Polymarket.FallbackOrder` | polymarket/bot/scripts/polymarket_client.py:95-119 | aliases are tried in order; each one passed over failed with 404, 401 or 403; the result is the last alias' answer; another error ends the loop at once |
| `Polymarket.LastAliasError` | polymarket/bot/scripts/polymarket_client.py:113-119 | a failing last alias raises the desktop authentication error for 401/403 in desktop mode, its own error otherwise |
| `Polymarket.LastAliasFrom` | polymarket/bot/scripts/polymarket_client.py:104-119 | the same from any starting alias |
| `Polymarket.FallbackIgnoresMode` | polymarket/bot/scripts/polymarket_client.py:104-119 | both modes make the same calls; their results differ only where desktop mode replaces a 401/403 error with its own message |
| `Polymarket.NotFoundFallsBackToLegacySlug` | polymarket/bot/scripts/test_polymarket_client_auth.py:59-73 | a 404 from the first alias leads to the second one, whose answer is the result, after two calls |
| `Polymarket.UnauthorizedDesktopCall` | polymarket/bot/scripts/test_polymarket_client_auth.py:75-81 | a 401 on the first alias in desktop mode falls back, and a 401 on the last raises the desktop authentication error |
| `Polymarket.BalanceOf` | polymarket/bot/scripts/polymarket_client.py:349-369 | 0.0 on any failure or a non-dict answer; after the `body` field is unwrapped, 0.0 for null, text or a list, and an int or float converted to its value |
| `Polymarket.GetBalance` | polymarket/bot/scripts/polymarket_client.py:342-369 | the balance of the `/balance` call's outcome, never raising |
| `Coinbase.NewSerenClient` | coinbase/grid-trader/scripts/seren_client.py:46-66 | `ValueError` exactly when signed mode is forced without all three credentials; auto-detects otherwise; mode name follows the flag; signed mode has all three credentials; fields kept |
| `Coinbase.SigningMessage` | coinbase/grid-trader/scripts/seren_client.py:81 | the message is as long as its four parts together |
| `Coinbase.SigningMessageParts` | coinbase/grid-trader/scripts/seren_client.py:81 | the message splits back into timestamp, upper-cased method, and path with body |
| `Coinbase.SigningIgnoresMethodCase` | coinbase/grid-trader/scripts/seren_client.py:81 | the method's case does not change the message |
| `Coinbase.Sign` | coinbase/grid-trader/scripts/seren_client.py:68-84 | returns the timestamp it signed and the HMAC of the secret over that message |
| `Coinbase.RequestUrl` | coinbase/grid-trader/scripts/seren_client.py:108 | the URL is the base URL followed by `/publishers/coinbase-trading` and the path |
| `Coinbase.BodyText` | coinbase/grid-trader/scripts/seren_client.py:109 | empty exactly when there is no body or it is an empty dict |
| `Coinbase.ParamPairs` | coinbase/grid-trader/scripts/seren_client.py:116 | one `k=v` per parameter, in order |
| `Coinbase.QueryString` | coinbase/grid-trader/scripts/seren_client.py:114-117 | empty exactly without parameters; otherwise starts with `?` |
| `Coinbase.QueryStringSplits` | coinbase/grid-trader/scripts/seren_client.py:114-117 | with parameters whose `k=v` texts hold no `&`, the query is `?` followed by text that splits at `&` into exactly those `k=v` texts, in order |
| `Coinbase.QueryHoldsEachParam` | coinbase/grid-trader/scripts/seren_client.py:116-117 | every `k=v` occurs in the signed query string |
| `Json.KeysOf` | coinbase/grid-trader/scripts/seren_client.py:110-125 | the keys of a dict (here the request headers) in order |
| `Coinbase.RequestFor` | coinbase/grid-trader/scripts/seren_client.py:108-134 | the request keeps the method and parameters, uses the publisher URL, and sends the body text only when non-empty |
| `Coinbase.RequestHeaders` | coinbase/grid-trader/scripts/seren_client.py:110-125 | publisher mode sends only the bearer token and content type; signed mode adds the four CB-ACCESS-* headers, signing timestamp, method, path with query, and body |
| `Coinbase.Unwrap` | coinbase/grid-trader/scripts/seren_client.py:147-149 | a dict holding `body` unwraps to that entry's value; a non-dict, or a dict without `body`, is returned unchanged |
| `Coinbase.EnvelopeRoundTrip` | coinbase/grid-trader/scripts/seren_client.py:147-148 | a dict with a `body` entry anywhere, after any fields that are not `body`, unwraps to that entry's value |
| `Coinbase.StatusMapping` | coinbase/grid-trader/scripts/seren_client.py:135-149 | an error exactly for 400 to 599; the keychain error exactly for 401/403 in publisher mode; success otherwise with a JSON body, unwrapped |
| `Coinbase.ModesDifferOnlyOnAuthStatus` | coinbase/grid-trader/scripts/seren_client.py:135-143 | both modes read a response alike except 401/403, keychain error against status error |
| `Coinbase.Call` | coinbase/grid-trader/scripts/seren_client.py:86-149 | the method, which fills the headers in place, computes the specification outcome |
| `Coinbase.Iterate` | coinbase/grid-trader/scripts/seren_client.py:196-199 | a list iterates over its items; only lists, dicts and strings can be iterated |
| `Coinbase.UsdProducts` | coinbase/grid-trader/scripts/seren_client.py:196-200 | succeeds exactly when every item is a dict, else fails on a non-dict item; keeps exactly the online USD products, none added |
| `Coinbase.UsdProductsAppend` | coinbase/grid-trader/scripts/seren_client.py:196-200 | the filter keeps the order of the products: filtering a concatenation is the concatenation of the filtered parts |
| `Coinbase.UsdProductsOne` | coinbase/grid-trader/scripts/seren_client.py:196-200 | a single dict product is kept exactly when it is online and USD-quoted |
| `Coinbase.UsdProductsIdempotent` | coinbase/grid-trader/scripts/seren_client.py:196-200 | filtering the result again changes nothing |
| `Coinbase.GetUsdProducts` | coinbase/grid-trader/scripts/seren_client.py:189-200 | a failed product call fails alike; a product answer that cannot be iterated fails with that error; otherwise the result is the filter of the products, holding exactly the products that are online and USD-quoted |
| `Coinbase.FindOnlineMeans` | coinbase/grid-trader/scripts/seren_client.py:212-216 | true exactly when an online product has the id and the items before it are dicts; false exactly when all items are dicts and none matches |
| `Coinbase.ValidateProduct` | coinbase/grid-trader/scripts/seren_client.py:202-216 | a failed product call fails alike; an answer that cannot be iterated fails with that error; otherwise the answer is the loop over the products: true only from an iterable product list |
| `Coinbase.ValidateProductMeans` | coinbase/grid-trader/scripts/seren_client.py:202-216 | true exactly when the products can be read and an online product has the id with only dicts before it; false exactly when every product is a dict and none of them is online with the id |
| `Coinbase.UsdProductIsValid` | coinbase/grid-trader/scripts/seren_client.py:189-216 | a product in the USD list validates by its id |
| `Coinbase.CancelledCount` | coinbase/grid-trader/scripts/seren_client.py:290-299 | the count never exceeds the number of orders |
| `Coinbase.SuccessesSnoc` | coinbase/grid-trader/scripts/seren_client.py:292-297 | one more order adds its position exactly when its cancellation succeeded |
| `Coinbase.CancelledCountIsSuccesses` | coinbase/grid-trader/scripts/seren_client.py:290-299 | the count is the number of orders whose cancellation succeeded |
| `Coinbase.AllCancelled` | coinbase/grid-trader/scripts/seren_client.py:290-299 | every order counted exactly when every cancellation succeeded |
| `Coinbase.CancelAllOrders` | coinbase/grid-trader/scripts/seren_client.py:281-299 | the loop computes the specification count and calls |
| `Coinbase.CancelAllBounds` | coinbase/grid-trader/scripts/seren_client.py:281-299 | the count is at most the open orders and equals the successful cancellations |
| `Coinbase.WithIdSnoc` | coinbase/grid-trader/scripts/seren_client.py:293-294 | one more order adds its position exactly when it has an id |
| `Coinbase.OneCancelPerOrderWithId` | coinbase/grid-trader/scripts/seren_client.py:292-297 | one DELETE per order with an id: a failure does not stop the loop |
| `Coinbase.EveryOrderAttempted` | coinbase/grid-trader/scripts/seren_client.py:268-297 | every order with an id gets its `DELETE /orders/<id>` |

## Left out

* I/O and the outside world are parameters or not modelled:
  * HTTP, JSON decoding and urllib are the `Transport` / `Gateway` / `Api`
    parameters, which return already-decoded JSON values.
  * The process environment is a map parameter.
  * The wallet file is an oracle that returns its decoded content. Path
    normalisation, `create_local_wallet` and key derivation are not modelled.
  * `argparse`, `main`, `load_config`, and the helper scripts
    `run_agent_server.py` and `setup_cron.py` are not part of this model.
* Coinbase signing:
  * HMAC-SHA256 with base64 is the `Hmac` parameter. A secret that is not
    valid base64, which makes `b64decode` raise, is not modelled.
  * `time.time()` is a timestamp string parameter, read once per operation.
* Python text and numbers:
  * Case mapping covers ASCII only.
  * `str.strip()` removes ASCII and Latin-1 whitespace only.
  * `str()` of a float is its recorded text, and floats are `real`, so
    there is no rounding.
  * `str()` of a string nested in a list is shown without `repr`'s
    escaping.
  * `float()` of a string is read as plain decimal text only (an optional
    sign, digits, at most one dot). The other forms Python accepts, such as
    an exponent (`"1e2"`), `"inf"`, `"nan"` or digit separators
    (`"1_000"`), are read as failed conversions, so the model raises where
    the source would go on with a number. `int()` of a string likewise
    does not accept digit separators.
  * JSON values hold no NaN or Infinity, which Python's `json.loads`
    accepts. So the model does not capture that a NaN
    `deposit_amount_usd` passes the `<= 0` check in
    `curve/curve-gauge-yield-trader/scripts/agent.py:228-229`.
* Python dicts:
  * A JSON object is a list of pairs, and a lookup takes the first pair with
    the key. `json.loads` keeps the last of duplicate keys instead, so the
    two agree on objects with distinct keys, which is what the model takes
    a decoded `dict` to be. The `rpc_publishers` loop, where a later entry
    overwrites an earlier one, is modelled entry by entry over the pairs.
  * `rpc_publishers keys must be strings` cannot occur for decoded JSON, so
    it is not modelled.
* Polymarket:
  * `get_markets`, `get_price`, `get_midpoint`, `get_positions`,
    `get_open_orders`, `place_order` and `cancel_order` are not part of this
    model. They are further calls through the modelled `_call_trading`,
    with float and JSON-text parsing.
  * The `SerenClient.call_publisher` it calls is the `Gateway` parameter;
    its error text is the string that `str(exc)` gives.
* Coinbase:
  * `get_accounts`, `get_account_balance` and `place_limit_order` are not
    part of this model, because they format and parse floats.
  * `requests`' own handling of `params` is not modelled. The model keeps
    the parameters in the request as given.
* Curve: the network timeout and the `Accept` header value are carried as
  given, not interpreted.
* Curve: the only failures of `_request` the model has are an HTTP error,
  a connection error and a body that is not JSON. Other exceptions that
  escape `curve/curve-gauge-yield-trader/scripts/agent.py:115-121` (a body
  that is not UTF-8, a read timeout) are not modelled. In the source they
  are not `PublisherError`s, so they pass through the `except
  PublisherError` of the capability probe loop and of the sync downgrade
  and end the run.
- Coinbase.Call: a body that is not JSON raises; the model gives the fixed
  message "response body is not JSON" instead of the exception's own text.
- Polymarket.BalanceOf: the contract does not state the dict case (`float()` of the `balance` entry, 0.0 when that conversion raises) nor the bool case; the function computes both as the source does.
