/** How the curve agent finds the RPC publisher for a chain
    (curve/curve-gauge-yield-trader/scripts/agent.py): the tokenizer, the
    "RPC-like" test, the scoring and tie-break that pick one slug per chain
    from the publisher catalogue, the `rpc_publishers` overrides, and the
    resolution order override, then catalogue, then error. */
module CurveDiscovery {
  import opened Wrappers
  import opened Text
  import opened Json
  import opened CurveClient

  // ---------------------------------------------------------------------
  // Chains
  // ---------------------------------------------------------------------

  /** `SUPPORTED_CHAINS` */
  const SupportedChains: seq<string> :=
    ["ethereum", "arbitrum", "base", "optimism", "polygon", "avalanche", "bsc", "gnosis", "zksync", "scroll"]

  predicate OneOf(x: string, names: seq<string>)
    decreases |names|
  {
    names != [] && (names[0] == x || OneOf(x, names[1..]))
  }

  predicate IsSupportedChain(chain: string) {
    OneOf(chain, SupportedChains)
  }

  /** `CHAIN_DISCOVERY_TERMS`, in its declaration order. */
  const ChainDiscoveryTerms: seq<(string, seq<string>)> := [
    ("ethereum", ["ethereum"]),
    ("arbitrum", ["arbitrum"]),
    ("base", ["base"]),
    ("optimism", ["optimism"]),
    ("polygon", ["polygon", "matic"]),
    ("avalanche", ["avalanche", "avax"]),
    ("bsc", ["bsc", "binance", "bnb"]),
    ("gnosis", ["gnosis", "xdai"]),
    ("zksync", ["zksync"]),
    ("scroll", ["scroll"])
  ]

  /** `list_publishers()` is called with its defaults. */
  const CatalogLimit := 100
  const CatalogMaxPages := 5

  // ---------------------------------------------------------------------
  // _tokenize
  // ---------------------------------------------------------------------

  predicate IsTokenChar(c: char) {
    'a' <= c <= 'z' || '0' <= c <= '9'
  }

  predicate AllTokenChars(s: string) {
    forall i :: 0 <= i < |s| ==> IsTokenChar(s[i])
  }

  /** Length of the run of token characters that starts `s`. */
  function RunLength(s: string): (n: nat)
    ensures n <= |s|
    ensures forall i :: 0 <= i < n ==> IsTokenChar(s[i])
    ensures n == |s| || !IsTokenChar(s[n])
    decreases |s|
  {
    if s != [] && IsTokenChar(s[0]) then 1 + RunLength(s[1..]) else 0
  }

  /** The non-empty pieces `re.split(r"[^a-z0-9]+", s)` yields, in order. */
  function Runs(s: string): (r: seq<string>)
    ensures forall k :: 0 <= k < |r| ==> r[k] != [] && AllTokenChars(r[k])
    decreases |s|
  {
    if s == [] then []
    else if !IsTokenChar(s[0]) then Runs(s[1..])
    else
      var n := RunLength(s);
      assert AllTokenChars(s[..n]);
      [s[..n]] + Runs(s[n..])
  }

  /** `_tokenize`: the set of non-empty runs of `[a-z0-9]` in the lowered
      value. */
  function Tokenize(value: string): (r: set<string>)
    ensures forall t :: t in r ==> t != [] && AllTokenChars(t)
  {
    set t | t in Runs(Lower(value))
  }

  /** `t` stands in `s` at `i` as a whole token: a run of token characters
      with no token character just before or just after it. */
  predicate WholeTokenAt(s: string, t: string, i: int) {
    OccursAt(s, t, i) && t != [] && AllTokenChars(t)
    && (i == 0 || !IsTokenChar(s[i - 1]))
    && (i + |t| == |s| || !IsTokenChar(s[i + |t|]))
  }

  lemma WholeTokenInSuffix(s: string, k: nat, t: string, j: nat)
    requires k <= |s|
    requires j > 0 || k == 0 || !IsTokenChar(s[k - 1])
    ensures WholeTokenAt(s[k..], t, j) <==> WholeTokenAt(s, t, k + j)
  {
    if WholeTokenAt(s[k..], t, j) {
      assert s[k + j..k + j + |t|] == s[k..][j..j + |t|];
    }
    if WholeTokenAt(s, t, k + j) {
      assert s[k..][j..j + |t|] == s[k + j..k + j + |t|];
    }
  }

  /** `t` stands somewhere in `s` as a whole token. */
  predicate HasWholeToken(s: string, t: string) {
    exists i :: 0 <= i <= |s| && WholeTokenAt(s, t, i)
  }

  /** A separator in front changes no whole token. */
  lemma WholeTokenAfterSeparator(s: string, t: string)
    requires s != [] && !IsTokenChar(s[0])
    ensures HasWholeToken(s, t) <==> HasWholeToken(s[1..], t)
  {
    if HasWholeToken(s[1..], t) {
      var j :| 0 <= j <= |s[1..]| && WholeTokenAt(s[1..], t, j);
      WholeTokenInSuffix(s, 1, t, j);
      assert WholeTokenAt(s, t, 1 + j);
    }
    if HasWholeToken(s, t) {
      var i :| 0 <= i <= |s| && WholeTokenAt(s, t, i);
      assert s[i] == t[0];
      WholeTokenInSuffix(s, 1, t, i - 1);
      assert WholeTokenAt(s[1..], t, i - 1);
    }
  }

  /** A whole token at the start of `s` is its first run. */
  lemma WholeTokenAtStart(s: string, t: string)
    requires s != [] && IsTokenChar(s[0])
    ensures WholeTokenAt(s, t, 0) <==> t == s[..RunLength(s)]
  {
    var n := RunLength(s);
    if WholeTokenAt(s, t, 0) {
      assert |t| == n;
      assert t == s[..n];
    }
    if t == s[..n] {
      assert OccursAt(s, t, 0);
    }
  }

  /** A whole token after the first run of `s` is a whole token of `s`. */
  lemma WholeTokenPastRun(s: string, t: string, j: nat)
    requires s != [] && IsTokenChar(s[0])
    requires WholeTokenAt(s[RunLength(s)..], t, j)
    ensures WholeTokenAt(s, t, RunLength(s) + j)
  {
    var n := RunLength(s);
    assert s[n..][j] == t[0];
    WholeTokenInSuffix(s, n, t, j);
  }

  /** A whole token of `s` other than its first run lies after that run. */
  lemma WholeTokenBeyondRun(s: string, t: string, i: nat)
    requires s != [] && IsTokenChar(s[0])
    requires 0 < i && WholeTokenAt(s, t, i)
    ensures RunLength(s) < i && WholeTokenAt(s[RunLength(s)..], t, i - RunLength(s))
  {
    var n := RunLength(s);
    assert !IsTokenChar(s[i - 1]);
    WholeTokenInSuffix(s, n, t, i - n);
  }

  /** The whole tokens of a string that starts with a run: that run, and the
      whole tokens after it. */
  lemma WholeTokenAfterRun(s: string, t: string)
    requires s != [] && IsTokenChar(s[0])
    ensures var n := RunLength(s);
            HasWholeToken(s, t) <==> t == s[..n] || HasWholeToken(s[n..], t)
  {
    var n := RunLength(s);
    WholeTokenAtStart(s, t);
    if HasWholeToken(s[n..], t) {
      var j :| 0 <= j <= |s[n..]| && WholeTokenAt(s[n..], t, j);
      WholeTokenPastRun(s, t, j);
    }
    if HasWholeToken(s, t) && t != s[..n] {
      var i :| 0 <= i <= |s| && WholeTokenAt(s, t, i);
      WholeTokenBeyondRun(s, t, i);
    }
  }

  /** The runs of `s` are exactly its whole tokens. */
  lemma {:induction false} RunsAreWholeTokens(s: string, t: string)
    ensures t in Runs(s) <==> HasWholeToken(s, t)
    decreases |s|
  {
    if s == [] {
      assert !WholeTokenAt(s, t, 0);
    } else if !IsTokenChar(s[0]) {
      RunsAreWholeTokens(s[1..], t);
      WholeTokenAfterSeparator(s, t);
      assert Runs(s) == Runs(s[1..]);
    } else {
      var n := RunLength(s);
      RunsAreWholeTokens(s[n..], t);
      WholeTokenAfterRun(s, t);
      assert Runs(s) == [s[..n]] + Runs(s[n..]);
    }
  }

  /** Membership in `_tokenize(value)` is a whole-token match in the lowered
      value, never a substring match: "grpc" does not yield "rpc". */
  lemma TokenizeFindsWholeTokens(value: string, t: string)
    ensures t in Tokenize(value) <==> HasWholeToken(Lower(value), t)
  {
    RunsAreWholeTokens(Lower(value), t);
  }

  // ---------------------------------------------------------------------
  // _is_rpc_like_publisher
  // ---------------------------------------------------------------------

  /** The lowered string entries of a list, other entries skipped. */
  function LoweredStrings(items: seq<Json>): (r: seq<string>)
    ensures |r| <= |items|
    decreases |items|
  {
    if items == [] then []
    else (if items[0].Str? then [Lower(items[0].s)] else []) + LoweredStrings(items[1..])
  }

  /** A category text is kept exactly when some entry is that string, lowered. */
  lemma {:induction false} LoweredStringsHolds(items: seq<Json>, x: string)
    ensures x in LoweredStrings(items) <==> exists k :: 0 <= k < |items| && items[k].Str? && Lower(items[k].s) == x
    decreases |items|
  {
    if items != [] {
      var head := if items[0].Str? then [Lower(items[0].s)] else [];
      var rest := LoweredStrings(items[1..]);
      LoweredStringsHolds(items[1..], x);
      if x in head + rest {
        if x in head {
          assert items[0].Str? && Lower(items[0].s) == x;
        } else {
          var k :| 0 <= k < |items[1..]| && items[1..][k].Str? && Lower(items[1..][k].s) == x;
          assert items[k + 1] == items[1..][k];
        }
      }
      if exists k :: 0 <= k < |items| && items[k].Str? && Lower(items[k].s) == x {
        var k :| 0 <= k < |items| && items[k].Str? && Lower(items[k].s) == x;
        if k == 0 {
          assert x in head;
        } else {
          assert items[1..][k - 1] == items[k];
          assert x in rest;
        }
      }
    }
  }

  /** The filter keeps the order of the entries. */
  lemma {:induction false} LoweredStringsAppend(a: seq<Json>, b: seq<Json>)
    ensures LoweredStrings(a + b) == LoweredStrings(a) + LoweredStrings(b)
    decreases |a|
  {
    if a == [] {
      assert a + b == b;
    } else {
      var head := if a[0].Str? then [Lower(a[0].s)] else [];
      TailOfAppend(a, b);
      LoweredStringsAppend(a[1..], b);
      assert LoweredStrings(a + b) == head + LoweredStrings(a[1..] + b);
      assert head + (LoweredStrings(a[1..]) + LoweredStrings(b)) == (head + LoweredStrings(a[1..])) + LoweredStrings(b);
    }
  }

  /** One entry gives its lowered text when it is a string, nothing otherwise. */
  lemma LoweredStringsOne(x: Json)
    ensures LoweredStrings([x]) == if x.Str? then [Lower(x.s)] else []
  {
    assert [x][1..] == [];
  }

  /** The `categories_text` both functions build. */
  function CategoriesText(p: Fields): string {
    var categories := Get(p, "categories", Arr([]));
    if categories.Arr? then Join(" ", LoweredStrings(categories.items)) else ""
  }

  /** `str(publisher.get(key, "")).lower()` */
  function LoweredField(p: Fields, key: string): string {
    Lower(Display(Get(p, key, Str(""))))
  }

  predicate IsRpcLike(p: Fields) {
    "rpc" in Tokenize(CategoriesText(p))
    || "rpc" in Tokenize(LoweredField(p, "slug"))
    || "rpc" in Tokenize(LoweredField(p, "name"))
    || Contains(LoweredField(p, "description"), "json-rpc")
    || Contains(LoweredField(p, "description"), "json rpc")
  }

  // ---------------------------------------------------------------------
  // _discovered_rpc_publishers
  // ---------------------------------------------------------------------

  datatype Candidate = Candidate(score: int, slug: string)

  /** `str(publisher.get("slug", "")).strip().lower()` */
  function SlugOf(p: Fields): string {
    Lower(Strip(Display(Get(p, "slug", Str("")))))
  }

  function AllTokens(p: Fields): set<string> {
    Tokenize(SlugOf(p)) + Tokenize(LoweredField(p, "name"))
    + Tokenize(CategoriesText(p)) + Tokenize(LoweredField(p, "description"))
  }

  /** `any(term in tokens for term in terms)` */
  predicate Mentions(tokens: set<string>, terms: seq<string>) {
    exists k :: 0 <= k < |terms| && terms[k] in tokens
  }

  /** The publishers that compete for a chain: dicts not marked inactive,
      RPC-like, with a non-empty slug, mentioning one of the chain's terms. */
  predicate Eligible(p: Json, terms: seq<string>) {
    p.Obj? && Get(p.fields, "is_active", Null) != Bool(false) && IsRpcLike(p.fields)
    && SlugOf(p.fields) != [] && Mentions(AllTokens(p.fields), terms)
  }

  /** 20 for a `seren-` slug, 12 for a term in the slug, 8 in the categories,
      6 in the name, 4 for "json-rpc" in the description. */
  function Score(p: Fields, terms: seq<string>): (s: int)
    ensures 0 <= s <= 50
  {
    var slug := SlugOf(p);
    (if StartsWith(slug, "seren-") then 20 else 0)
    + (if Mentions(Tokenize(slug), terms) then 12 else 0)
    + (if Mentions(Tokenize(CategoriesText(p)), terms) then 8 else 0)
    + (if Mentions(Tokenize(LoweredField(p, "name")), terms) then 6 else 0)
    + (if Contains(LoweredField(p, "description"), "json-rpc") then 4 else 0)
  }

  /** One pass of the inner loop body: the skipped publishers give None, the
      others their score and slug. */
  function Consider(p: Json, terms: seq<string>): (r: Option<Candidate>)
    ensures r.Some? <==> Eligible(p, terms)
    ensures r.Some? ==> r.value.slug == SlugOf(p.fields) && r.value.slug != [] && r.value.score >= 0
  {
    if !p.Obj? then None
    else if Get(p.fields, "is_active", Null) == Bool(false) then None
    else if !IsRpcLike(p.fields) then None
    else if SlugOf(p.fields) == [] then None
    else if !Mentions(AllTokens(p.fields), terms) then None
    else Some(Candidate(Score(p.fields, terms), SlugOf(p.fields)))
  }

  /** `score > best_score or (score == best_score and slug < best_slug)` */
  predicate Beats(c: Candidate, best: Candidate) {
    c.score > best.score || (c.score == best.score && LexLess(c.slug, best.slug))
  }

  /** `a` ranks at least as high as `b`: a higher score, or the same score and
      a slug that is not larger. */
  predicate AtLeast(a: Candidate, b: Candidate) {
    a.score > b.score || (a.score == b.score && LexLeq(a.slug, b.slug))
  }

  lemma AtLeastTransitive(a: Candidate, b: Candidate, c: Candidate)
    requires AtLeast(a, b) && AtLeast(b, c)
    ensures AtLeast(a, c)
  {
    if a.score == b.score && b.score == c.score {
      LexLeqTransitive(a.slug, b.slug, c.slug);
    }
  }

  /** `best_score = -1`, `best_slug = ""` */
  const NoCandidate := Candidate(-1, "")

  /** What the inner loop body makes of one publisher: skipped, or a
      candidate. */
  type Judge = Json -> Option<Candidate>

  function JudgeFor(terms: seq<string>): Judge {
    p => Consider(p, terms)
  }

  /** A judge whose candidates all have a non-negative score and a slug. */
  ghost predicate ProperJudge(judge: Judge) {
    forall p :: judge(p).Some? ==> judge(p).value.score >= 0 && judge(p).value.slug != []
  }

  lemma JudgeForIsProper(terms: seq<string>)
    ensures ProperJudge(JudgeFor(terms))
  {
    forall p | JudgeFor(terms)(p).Some?
      ensures JudgeFor(terms)(p).value.score >= 0 && JudgeFor(terms)(p).value.slug != []
    {
      assert JudgeFor(terms)(p) == Consider(p, terms);
    }
  }

  /** One pass of the inner loop: the best so far after one publisher. */
  function Step(judged: Option<Candidate>, best: Candidate): Candidate {
    match judged
    case None => best
    case Some(c) => if Beats(c, best) then c else best
  }

  /** A step never loses ground and keeps the better of the two. */
  lemma StepIsMax(judged: Option<Candidate>, best: Candidate)
    ensures AtLeast(Step(judged, best), best)
    ensures judged.Some? ==> AtLeast(Step(judged, best), judged.value)
    ensures Step(judged, best) == best || judged == Some(Step(judged, best))
  {
    LexLessIrreflexive(best.slug);
    if judged.Some? {
      var c := judged.value;
      LexLessIrreflexive(c.slug);
      if !Beats(c, best) {
        LexLessTotal(c.slug, best.slug);
      }
    }
  }

  /** The inner loop from a given best so far. */
  function ScanFrom(pubs: seq<Json>, judge: Judge, best: Candidate): Candidate
    decreases |pubs|
  {
    if pubs == [] then best else ScanFrom(pubs[1..], judge, Step(judge(pubs[0]), best))
  }

  /** The candidate the inner loop keeps for a chain's terms. */
  function BestFor(pubs: seq<Json>, terms: seq<string>): Candidate {
    ScanFrom(pubs, JudgeFor(terms), NoCandidate)
  }

  lemma {:induction false} ScanFromIsArgmax(pubs: seq<Json>, judge: Judge, best: Candidate)
    ensures AtLeast(ScanFrom(pubs, judge, best), best)
    ensures var r := ScanFrom(pubs, judge, best);
            r == best || exists k :: 0 <= k < |pubs| && judge(pubs[k]) == Some(r)
    ensures forall k :: 0 <= k < |pubs| && judge(pubs[k]).Some? ==>
              AtLeast(ScanFrom(pubs, judge, best), judge(pubs[k]).value)
    decreases |pubs|
  {
    if pubs != [] {
      var next := Step(judge(pubs[0]), best);
      StepIsMax(judge(pubs[0]), best);
      ScanFromIsArgmax(pubs[1..], judge, next);
      var r := ScanFrom(pubs[1..], judge, next);
      AtLeastTransitive(r, next, best);
      if judge(pubs[0]).Some? {
        AtLeastTransitive(r, next, judge(pubs[0]).value);
      }
      forall k | 0 < k < |pubs| && judge(pubs[k]).Some?
        ensures AtLeast(r, judge(pubs[k]).value)
      {
        assert pubs[k] == pubs[1..][k - 1];
      }
      if r != best && r != next {
        var k :| 0 <= k < |pubs[1..]| && judge(pubs[1..][k]) == Some(r);
        assert pubs[k + 1] == pubs[1..][k];
      }
    }
  }

  /** From `NoCandidate`, a proper judge's scan ends with an empty slug
      exactly when nothing was a candidate, and otherwise with a candidate
      that ranks at least as high as every other. */
  lemma ScanIsArgmax(pubs: seq<Json>, judge: Judge)
    requires ProperJudge(judge)
    ensures var r := ScanFrom(pubs, judge, NoCandidate);
            (r.slug == [] <==> forall k :: 0 <= k < |pubs| ==> judge(pubs[k]).None?)
    ensures var r := ScanFrom(pubs, judge, NoCandidate);
            r.slug != [] ==> exists k :: 0 <= k < |pubs| && judge(pubs[k]) == Some(r)
    ensures forall k :: 0 <= k < |pubs| && judge(pubs[k]).Some? ==>
              AtLeast(ScanFrom(pubs, judge, NoCandidate), judge(pubs[k]).value)
  {
    ScanFromIsArgmax(pubs, judge, NoCandidate);
    var r := ScanFrom(pubs, judge, NoCandidate);
    if r != NoCandidate {
      var k :| 0 <= k < |pubs| && judge(pubs[k]) == Some(r);
    }
    if exists k :: 0 <= k < |pubs| && judge(pubs[k]).Some? {
      var k :| 0 <= k < |pubs| && judge(pubs[k]).Some?;
      assert AtLeast(r, judge(pubs[k]).value);
    }
  }

  /** The slug the inner loop keeps for a chain: empty exactly when no
      publisher is eligible; otherwise the slug of an eligible publisher whose
      score is maximal, the lexicographically smallest among equal scores. */
  lemma BestForIsArgmax(pubs: seq<Json>, terms: seq<string>)
    ensures var r := BestFor(pubs, terms);
            (r.slug == [] <==> forall k :: 0 <= k < |pubs| ==> !Eligible(pubs[k], terms))
    ensures var r := BestFor(pubs, terms);
            r.slug != [] ==> exists k :: 0 <= k < |pubs| && Eligible(pubs[k], terms) && Consider(pubs[k], terms) == Some(r)
    ensures forall k :: 0 <= k < |pubs| && Eligible(pubs[k], terms) ==>
              AtLeast(BestFor(pubs, terms), Consider(pubs[k], terms).value)
  {
    JudgeForIsProper(terms);
    ScanIsArgmax(pubs, JudgeFor(terms));
    assert forall k :: 0 <= k < |pubs| ==> JudgeFor(terms)(pubs[k]) == Consider(pubs[k], terms);
  }

  /** The dict `_discovered_rpc_publishers` builds, as its (chain, slug) items
      in insertion order. */
  type Mapping = seq<(string, string)>

  /** No key is stored twice, as in a Python dict. */
  predicate DistinctKeys(d: Mapping) {
    forall i, j :: 0 <= i < j < |d| ==> d[i].0 != d[j].0
  }

  /** The outer loop from a given chain onwards, `pick` giving the slug the
      inner loop keeps for a chain's terms. */
  function DiscoverFrom(chains: seq<(string, seq<string>)>, pick: seq<string> -> string, acc: Mapping): Mapping
    decreases |chains|
  {
    if chains == [] then acc
    else
      var slug := pick(chains[0].1);
      DiscoverFrom(chains[1..], pick, if slug != [] then acc + [(chains[0].0, slug)] else acc)
  }

  function PickFor(pubs: seq<Json>): seq<string> -> string {
    terms => BestFor(pubs, terms).slug
  }

  /** What `_discovered_rpc_publishers` returns for a catalogue. */
  function DiscoveredOf(pubs: seq<Json>): Mapping {
    DiscoverFrom(ChainDiscoveryTerms, PickFor(pubs), [])
  }

  /** `acc.get(chain)` after one more entry. */
  lemma SlugForAppend(d: Mapping, entry: (string, string), chain: string)
    ensures Lookup(d + [entry], chain) ==
            if Lookup(d, chain).Some? then Lookup(d, chain)
            else if entry.0 == chain then Some(entry.1) else None
    decreases |d|
  {
    if d != [] {
      assert (d + [entry])[1..] == d[1..] + [entry];
    }
  }

  lemma {:induction false} DiscoverFromKeeps(chains: seq<(string, seq<string>)>, pick: seq<string> -> string, acc: Mapping, chain: string)
    requires Lookup(acc, chain).Some? || forall i :: 0 <= i < |chains| ==> chains[i].0 != chain
    ensures Lookup(DiscoverFrom(chains, pick, acc), chain) == Lookup(acc, chain)
    decreases |chains|
  {
    if chains != [] {
      var slug := pick(chains[0].1);
      var next := if slug != [] then acc + [(chains[0].0, slug)] else acc;
      if slug != [] {
        SlugForAppend(acc, (chains[0].0, slug), chain);
      }
      assert forall i :: 0 <= i < |chains[1..]| ==> chains[1..][i] == chains[i + 1];
      DiscoverFromKeeps(chains[1..], pick, next, chain);
    }
  }

  lemma {:induction false} DiscoverFromFinds(chains: seq<(string, seq<string>)>, pick: seq<string> -> string, acc: Mapping, j: nat)
    requires j < |chains|
    requires forall i :: 0 <= i < |chains| && i != j ==> chains[i].0 != chains[j].0
    requires Lookup(acc, chains[j].0).None?
    ensures var slug := pick(chains[j].1);
            Lookup(DiscoverFrom(chains, pick, acc), chains[j].0) == if slug != [] then Some(slug) else None
    decreases |chains|
  {
    var slug := pick(chains[0].1);
    var next := if slug != [] then acc + [(chains[0].0, slug)] else acc;
    if slug != [] {
      SlugForAppend(acc, (chains[0].0, slug), chains[j].0);
    }
    assert forall i :: 0 <= i < |chains[1..]| ==> chains[1..][i] == chains[i + 1];
    if j == 0 {
      DiscoverFromKeeps(chains[1..], pick, next, chains[0].0);
    } else {
      DiscoverFromFinds(chains[1..], pick, next, j - 1);
    }
  }

  lemma {:induction false} DiscoverFromKeys(chains: seq<(string, seq<string>)>, pick: seq<string> -> string, acc: Mapping)
    ensures var d := DiscoverFrom(chains, pick, acc);
            |acc| <= |d| && d[..|acc|] == acc
            && forall k :: |acc| <= k < |d| ==>
                 d[k].1 != [] && exists i :: 0 <= i < |chains| && chains[i].0 == d[k].0 && pick(chains[i].1) == d[k].1
    decreases |chains|
  {
    if chains != [] {
      var slug := pick(chains[0].1);
      var next := if slug != [] then acc + [(chains[0].0, slug)] else acc;
      DiscoverFromKeys(chains[1..], pick, next);
      var d := DiscoverFrom(chains[1..], pick, next);
      assert d[..|acc|] == d[..|next|][..|acc|];
      forall k | |acc| <= k < |d|
        ensures d[k].1 != [] && exists i :: 0 <= i < |chains| && chains[i].0 == d[k].0 && pick(chains[i].1) == d[k].1
      {
        if k < |next| {
          assert d[k] == d[..|next|][k] == (chains[0].0, slug);
          assert chains[0].0 == d[k].0 && pick(chains[0].1) == d[k].1;
        } else {
          var i :| 0 <= i < |chains[1..]| && chains[1..][i].0 == d[k].0 && pick(chains[1..][i].1) == d[k].1;
          assert chains[i + 1] == chains[1..][i];
        }
      }
    }
  }

  /** Names that are pairwise different. */
  predicate DistinctNames(chains: seq<(string, seq<string>)>) {
    forall i, j :: 0 <= i < j < |chains| ==> chains[i].0 != chains[j].0
  }

  lemma {:induction false} DiscoverFromDistinct(chains: seq<(string, seq<string>)>, pick: seq<string> -> string, acc: Mapping)
    requires DistinctKeys(acc) && DistinctNames(chains)
    requires forall k, i :: 0 <= k < |acc| && 0 <= i < |chains| ==> acc[k].0 != chains[i].0
    ensures DistinctKeys(DiscoverFrom(chains, pick, acc))
    decreases |chains|
  {
    if chains != [] {
      var slug := pick(chains[0].1);
      var next := if slug != [] then acc + [(chains[0].0, slug)] else acc;
      assert forall i :: 0 <= i < |chains[1..]| ==> chains[1..][i] == chains[i + 1];
      assert forall k :: 0 <= k < |acc| ==> next[k] == acc[k];
      DiscoverFromDistinct(chains[1..], pick, next);
    }
  }

  /** The chain names of a list of (chain, terms) pairs. */
  function NamesOf(chains: seq<(string, seq<string>)>): (r: seq<string>)
    ensures |r| == |chains| && forall i :: 0 <= i < |chains| ==> r[i] == chains[i].0
  {
    seq(|chains|, i requires 0 <= i < |chains| => chains[i].0)
  }

  lemma {:induction false} OneOfEach(names: seq<string>, i: nat)
    requires i < |names|
    ensures OneOf(names[i], names)
    decreases i
  {
    if i > 0 {
      OneOfEach(names[1..], i - 1);
    }
  }

  /** The chains `CHAIN_DISCOVERY_TERMS` names are `SUPPORTED_CHAINS`, in
      the same order, so all of them are supported. */
  lemma DiscoveryChainsSupported()
    ensures NamesOf(ChainDiscoveryTerms) == SupportedChains
    ensures forall i :: 0 <= i < |ChainDiscoveryTerms| ==> IsSupportedChain(ChainDiscoveryTerms[i].0)
  {
    assert NamesOf(ChainDiscoveryTerms) == SupportedChains;
    forall i | 0 <= i < |ChainDiscoveryTerms|
      ensures IsSupportedChain(ChainDiscoveryTerms[i].0)
    {
      OneOfEach(SupportedChains, i);
    }
  }

  /** Each chain appears once in `CHAIN_DISCOVERY_TERMS`. */
  lemma DiscoveryChainsDistinct()
    ensures DistinctNames(ChainDiscoveryTerms)
  {
  }

  /** Every recorded slug is the inner loop's winner for its chain (so, by
      `BestForIsArgmax`, the slug of an eligible publisher with the best
      score, ties to the smallest slug); a chain without an eligible
      publisher is absent, and so is any chain without discovery terms. */
  lemma DiscoveredSlugIsBest(pubs: seq<Json>, chain: string)
    ensures forall j :: 0 <= j < |ChainDiscoveryTerms| && ChainDiscoveryTerms[j].0 == chain ==>
              var best := BestFor(pubs, ChainDiscoveryTerms[j].1);
              Lookup(DiscoveredOf(pubs), chain) == if best.slug != [] then Some(best.slug) else None
    ensures (forall j :: 0 <= j < |ChainDiscoveryTerms| ==> ChainDiscoveryTerms[j].0 != chain) ==>
              Lookup(DiscoveredOf(pubs), chain) == None
  {
    DiscoveryChainsDistinct();
    forall j | 0 <= j < |ChainDiscoveryTerms| && ChainDiscoveryTerms[j].0 == chain
      ensures var best := BestFor(pubs, ChainDiscoveryTerms[j].1);
              Lookup(DiscoveredOf(pubs), chain) == if best.slug != [] then Some(best.slug) else None
    {
      DiscoverFromFinds(ChainDiscoveryTerms, PickFor(pubs), [], j);
    }
    if forall j :: 0 <= j < |ChainDiscoveryTerms| ==> ChainDiscoveryTerms[j].0 != chain {
      DiscoverFromKeeps(ChainDiscoveryTerms, PickFor(pubs), [], chain);
    }
  }

  /** The discovered dict holds only supported chains, each once and with a
      non-empty slug. */
  lemma DiscoveredEntriesWellFormed(pubs: seq<Json>)
    ensures DistinctKeys(DiscoveredOf(pubs))
    ensures forall k :: 0 <= k < |DiscoveredOf(pubs)| ==>
              IsSupportedChain(DiscoveredOf(pubs)[k].0) && DiscoveredOf(pubs)[k].1 != []
  {
    DiscoveryChainsSupported();
    DiscoveryChainsDistinct();
    DiscoverFromKeys(ChainDiscoveryTerms, PickFor(pubs), []);
    DiscoverFromDistinct(ChainDiscoveryTerms, PickFor(pubs), []);
  }

  /** The inner loop of `_discovered_rpc_publishers` for one chain's terms:
      it keeps the best score and slug seen so far. */
  method BestCandidate(pubs: seq<Json>, terms: seq<string>) returns (bestScore: int, bestSlug: string)
    ensures Candidate(bestScore, bestSlug) == BestFor(pubs, terms)
  {
    bestScore := -1;
    bestSlug := "";
    var k := 0;
    while k < |pubs|
      invariant 0 <= k <= |pubs|
      invariant BestFor(pubs, terms) == ScanFrom(pubs[k..], JudgeFor(terms), Candidate(bestScore, bestSlug))
    {
      assert pubs[k..][1..] == pubs[k + 1..];
      var candidate := Consider(pubs[k], terms);
      if candidate.Some? {
        var score := candidate.value.score;
        var slug := candidate.value.slug;
        if score > bestScore || (score == bestScore && LexLess(slug, bestSlug)) {
          bestScore := score;
          bestSlug := slug;
        }
      }
      k := k + 1;
    }
  }

  /** The outer loop over a list of (chain, terms) pairs: a chain whose
      inner loop found a slug is recorded. */
  method DiscoverOver(chains: seq<(string, seq<string>)>, pubs: seq<Json>) returns (discovered: Mapping)
    ensures discovered == DiscoverFrom(chains, PickFor(pubs), [])
  {
    discovered := [];
    var i := 0;
    while i < |chains|
      invariant 0 <= i <= |chains|
      invariant DiscoverFrom(chains, PickFor(pubs), []) == DiscoverFrom(chains[i..], PickFor(pubs), discovered)
    {
      var (chain, terms) := chains[i];
      var _, bestSlug := BestCandidate(pubs, terms);
      assert chains[i..][1..] == chains[i + 1..];
      assert PickFor(pubs)(terms) == bestSlug;
      if bestSlug != [] {
        discovered := discovered + [(chain, bestSlug)];
      }
      i := i + 1;
    }
  }

  /** `_discovered_rpc_publishers`, over the catalogue `list_publishers`
      returned: for each chain of `CHAIN_DISCOVERY_TERMS` in order, the best
      candidate's slug is recorded when there is one. */
  method DiscoverRpcPublishers(pubs: seq<Json>) returns (discovered: Mapping)
    ensures discovered == DiscoveredOf(pubs)
  {
    discovered := DiscoverOver(ChainDiscoveryTerms, pubs);
  }

  // ---------------------------------------------------------------------
  // _rpc_publisher_overrides
  // ---------------------------------------------------------------------

  predicate ValidOverride(item: (string, Json), supported: seq<string>) {
    OneOf(item.0, supported) && item.1.Str? && Strip(item.1.s) != []
  }

  function UnsupportedChainKey(chain: string): Error {
    ConfigError("rpc_publishers has unsupported chain key '" + chain + "'.")
  }

  function BlankOverride(chain: string): Error {
    ConfigError("rpc_publishers['" + chain + "'] must be a non-empty string.")
  }

  /** The loop over `overrides.items()`, from a partly built `cleaned`. */
  function CleanOverrides(items: Fields, supported: seq<string>, cleaned: map<string, string>): Result<map<string, string>, Error>
    decreases |items|
  {
    if items == [] then Ok(cleaned)
    else
      var chain := items[0].0;
      var slug := items[0].1;
      if !OneOf(chain, supported) then Err(UnsupportedChainKey(chain))
      else if !slug.Str? || Strip(slug.s) == [] then Err(BlankOverride(chain))
      else CleanOverrides(items[1..], supported, cleaned[chain := Strip(slug.s)])
  }

  function OverridesOf(config: Fields): Result<map<string, string>, Error> {
    var overrides := Get(config, "rpc_publishers", Obj([]));
    if overrides.Null? then Ok(map[])
    else if !overrides.Obj? then Err(ConfigError("Config field 'rpc_publishers' must be an object when provided."))
    else CleanOverrides(overrides.fields, SupportedChains, map[])
  }

  function ItemKeys(items: Fields): set<string> {
    set i | 0 <= i < |items| :: items[i].0
  }

  predicate CleanSlugs(m: map<string, string>, supported: seq<string>) {
    forall chain :: chain in m ==> OneOf(chain, supported) && m[chain] != [] && Strip(m[chain]) == m[chain]
  }

  /** Every entry of the override dict is valid, entry by entry. */
  predicate AllValid(items: Fields, supported: seq<string>)
    decreases |items|
  {
    items == [] || (ValidOverride(items[0], supported) && AllValid(items[1..], supported))
  }

  lemma {:induction false} AllValidEach(items: Fields, supported: seq<string>)
    ensures AllValid(items, supported) <==> forall i :: 0 <= i < |items| ==> ValidOverride(items[i], supported)
    decreases |items|
  {
    if items != [] {
      AllValidEach(items[1..], supported);
      if AllValid(items, supported) {
        forall i | 0 < i < |items| ensures ValidOverride(items[i], supported) {
          assert items[i] == items[1..][i - 1];
        }
      }
      if forall i :: 0 <= i < |items| ==> ValidOverride(items[i], supported) {
        forall i | 0 <= i < |items| - 1 ensures ValidOverride(items[1..][i], supported) {
          assert items[1..][i] == items[i + 1];
        }
      }
    }
  }

  lemma {:induction false} CleanOverridesAcceptsValid(items: Fields, supported: seq<string>, cleaned: map<string, string>)
    ensures CleanOverrides(items, supported, cleaned).Ok? <==> AllValid(items, supported)
    decreases |items|
  {
    if items != [] && ValidOverride(items[0], supported) {
      CleanOverridesAcceptsValid(items[1..], supported, cleaned[items[0].0 := Strip(items[0].1.s)]);
    }
  }

  /** The loop finishes exactly when every entry names a supported chain and
      a non-blank string. */
  lemma CleanOverridesAccepts(items: Fields, supported: seq<string>, cleaned: map<string, string>)
    ensures CleanOverrides(items, supported, cleaned).Ok? <==> forall i :: 0 <= i < |items| ==> ValidOverride(items[i], supported)
  {
    CleanOverridesAcceptsValid(items, supported, cleaned);
    AllValidEach(items, supported);
  }

  /** Every error the override loop raises is a `ConfigError`. */
  lemma {:induction false} CleanOverridesErrors(items: Fields, supported: seq<string>, cleaned: map<string, string>)
    ensures CleanOverrides(items, supported, cleaned).Err? ==> CleanOverrides(items, supported, cleaned).error.ConfigError?
    decreases |items|
  {
    if items != [] && ValidOverride(items[0], supported) {
      CleanOverridesErrors(items[1..], supported, cleaned[items[0].0 := Strip(items[0].1.s)]);
    }
  }

  lemma CleanSlugsUpdate(m: map<string, string>, supported: seq<string>, chain: string, slug: string)
    requires CleanSlugs(m, supported)
    requires OneOf(chain, supported) && slug != [] && Strip(slug) == slug
    ensures CleanSlugs(m[chain := slug], supported)
  {
  }

  lemma {:induction false} CleanOverridesSlugs(items: Fields, supported: seq<string>, cleaned: map<string, string>)
    requires CleanSlugs(cleaned, supported)
    ensures CleanOverrides(items, supported, cleaned).Ok? ==> CleanSlugs(CleanOverrides(items, supported, cleaned).value, supported)
    decreases |items|
  {
    if items != [] && ValidOverride(items[0], supported) {
      var next := cleaned[items[0].0 := Strip(items[0].1.s)];
      StripIdempotent(items[0].1.s);
      CleanSlugsUpdate(cleaned, supported, items[0].0, Strip(items[0].1.s));
      CleanOverridesSlugs(items[1..], supported, next);
    }
  }

  lemma ItemKeysCons(items: Fields)
    requires items != []
    ensures ItemKeys(items) == {items[0].0} + ItemKeys(items[1..])
  {
    forall x | x in ItemKeys(items)
      ensures x in {items[0].0} + ItemKeys(items[1..])
    {
      var i :| 0 <= i < |items| && items[i].0 == x;
      if i > 0 {
        assert items[1..][i - 1].0 == x;
      }
    }
    forall x | x in ItemKeys(items[1..])
      ensures x in ItemKeys(items)
    {
      var i :| 0 <= i < |items[1..]| && items[1..][i].0 == x;
      assert items[i + 1].0 == x;
    }
  }

  lemma {:induction false} CleanOverridesKeys(items: Fields, supported: seq<string>, cleaned: map<string, string>)
    ensures CleanOverrides(items, supported, cleaned).Ok? ==>
              CleanOverrides(items, supported, cleaned).value.Keys == cleaned.Keys + ItemKeys(items)
    decreases |items|
  {
    if items == [] {
      assert ItemKeys(items) == {};
    } else if ValidOverride(items[0], supported) {
      var next := cleaned[items[0].0 := Strip(items[0].1.s)];
      assert CleanOverrides(items, supported, cleaned) == CleanOverrides(items[1..], supported, next);
      CleanOverridesKeys(items[1..], supported, next);
      ItemKeysCons(items);
      assert next.Keys == cleaned.Keys + {items[0].0};
    }
  }

  /** No later entry has the same key. */
  predicate LastOccurrence(items: Fields, i: int)
    requires 0 <= i < |items|
  {
    forall j :: i < j < |items| ==> items[j].0 != items[i].0
  }

  lemma {:induction false} CleanOverridesValues(items: Fields, supported: seq<string>, cleaned: map<string, string>)
    ensures CleanOverrides(items, supported, cleaned).Ok? ==>
              forall i :: 0 <= i < |items| && LastOccurrence(items, i) ==>
                items[i].0 in CleanOverrides(items, supported, cleaned).value && items[i].1.Str?
                && CleanOverrides(items, supported, cleaned).value[items[i].0] == Strip(items[i].1.s)
    decreases |items|
  {
    if items != [] && ValidOverride(items[0], supported) {
      var next := cleaned[items[0].0 := Strip(items[0].1.s)];
      CleanOverridesValues(items[1..], supported, next);
      if CleanOverrides(items, supported, cleaned).Ok? {
        var m := CleanOverrides(items, supported, cleaned).value;
        forall i | 0 <= i < |items| && LastOccurrence(items, i)
          ensures items[i].0 in m && items[i].1.Str? && m[items[i].0] == Strip(items[i].1.s)
        {
          if i > 0 {
            assert items[1..][i - 1] == items[i];
            assert LastOccurrence(items[1..], i - 1) by {
              forall j | i - 1 < j < |items[1..]|
                ensures items[1..][j].0 != items[1..][i - 1].0
              {
                assert items[1..][j] == items[j + 1];
              }
            }
          } else {
            assert forall j :: 0 <= j < |items[1..]| ==> items[1..][j].0 != items[0].0 by {
              forall j | 0 <= j < |items[1..]|
                ensures items[1..][j].0 != items[0].0
              {
                assert items[1..][j] == items[j + 1];
              }
            }
            CleanOverridesUntouched(items[1..], supported, next, items[0].0);
          }
        }
      }
    }
  }

  /** The override loop accepts exactly the entries with a supported chain
      and a non-blank string slug; the dict it builds has every entry's key,
      and for each key the stripped slug of its last entry. */
  lemma CleanOverridesSpec(items: Fields, supported: seq<string>)
    ensures CleanOverrides(items, supported, map[]).Ok? <==> forall i :: 0 <= i < |items| ==> ValidOverride(items[i], supported)
    ensures CleanOverrides(items, supported, map[]).Err? ==> CleanOverrides(items, supported, map[]).error.ConfigError?
    ensures CleanOverrides(items, supported, map[]).Ok? ==>
              var m := CleanOverrides(items, supported, map[]).value;
              CleanSlugs(m, supported) && m.Keys == ItemKeys(items)
              && forall i :: 0 <= i < |items| && LastOccurrence(items, i) ==> m[items[i].0] == Strip(items[i].1.s)
  {
    CleanOverridesAccepts(items, supported, map[]);
    CleanOverridesErrors(items, supported, map[]);
    CleanOverridesSlugs(items, supported, map[]);
    CleanOverridesKeys(items, supported, map[]);
    CleanOverridesValues(items, supported, map[]);
  }

  lemma {:induction false} CleanOverridesUntouched(items: Fields, supported: seq<string>, cleaned: map<string, string>, chain: string)
    requires chain in cleaned
    requires forall j :: 0 <= j < |items| ==> items[j].0 != chain
    ensures CleanOverrides(items, supported, cleaned).Ok? ==>
              chain in CleanOverrides(items, supported, cleaned).value && CleanOverrides(items, supported, cleaned).value[chain] == cleaned[chain]
    decreases |items|
  {
    if items != [] && ValidOverride(items[0], supported) {
      var next := cleaned[items[0].0 := Strip(items[0].1.s)];
      assert forall j :: 0 <= j < |items[1..]| ==> items[1..][j].0 != chain by {
        forall j | 0 <= j < |items[1..]|
          ensures items[1..][j].0 != chain
        {
          assert items[1..][j] == items[j + 1];
        }
      }
      CleanOverridesUntouched(items[1..], supported, next, chain);
    }
  }

  /** `_rpc_publisher_overrides`: `None` counts as no overrides, a non-dict
      and any entry with an unsupported chain or a blank slug are
      `ConfigError`s, and the stored slugs are stripped. */
  lemma OverridesOfSpec(config: Fields)
    ensures Get(config, "rpc_publishers", Obj([])).Null? ==> OverridesOf(config) == Ok(map[])
    ensures OverridesOf(config).Err? ==> OverridesOf(config).error.ConfigError?
    ensures var o := Get(config, "rpc_publishers", Obj([]));
            o.Obj? ==> (OverridesOf(config).Ok? <==> forall i :: 0 <= i < |o.fields| ==> ValidOverride(o.fields[i], SupportedChains))
    ensures OverridesOf(config).Ok? ==> CleanSlugs(OverridesOf(config).value, SupportedChains)
  {
    var o := Get(config, "rpc_publishers", Obj([]));
    if o.Obj? {
      CleanOverridesSpec(o.fields, SupportedChains);
    }
  }

  /** `_rpc_publisher_overrides` with its loop. */
  method RpcPublisherOverrides(config: Fields) returns (r: Result<map<string, string>, Error>)
    ensures r == OverridesOf(config)
  {
    var overrides := Get(config, "rpc_publishers", Obj([]));
    if overrides.Null? {
      return Ok(map[]);
    }
    if !overrides.Obj? {
      return Err(ConfigError("Config field 'rpc_publishers' must be an object when provided."));
    }
    var cleaned: map<string, string> := map[];
    var i := 0;
    while i < |overrides.fields|
      invariant 0 <= i <= |overrides.fields|
      invariant OverridesOf(config) == CleanOverrides(overrides.fields[i..], SupportedChains, cleaned)
    {
      assert overrides.fields[i..][1..] == overrides.fields[i + 1..];
      var (chain, slug) := overrides.fields[i];
      if !IsSupportedChain(chain) {
        return Err(UnsupportedChainKey(chain));
      }
      if !slug.Str? || Strip(slug.s) == [] {
        return Err(BlankOverride(chain));
      }
      cleaned := cleaned[chain := Strip(slug.s)];
      i := i + 1;
    }
    return Ok(cleaned);
  }

  // ---------------------------------------------------------------------
  // _rpc_publisher_for_chain
  // ---------------------------------------------------------------------

  datatype Resolution = Resolution(publisher: string, source: string)

  /** The resolution and the catalogue offsets it requested (none when an
      override decides). */
  datatype Resolved = Resolved(outcome: Result<Resolution, Error>, pagesRead: seq<int>)

  /** `sorted(d.items())`: with distinct keys the items ordered by key. */
  function SortedItems(d: Mapping): Mapping {
    var chains := SortStrings(seq(|d|, k requires 0 <= k < |d| => d[k].0));
    seq(|chains|, k requires 0 <= k < |chains| =>
          (chains[k], match Lookup(d, chains[k]) case Some(s) => s case None => ""))
  }

  /** `f"{chain}:{slug}"` for each item. */
  function ItemTexts(d: Mapping): (r: seq<string>)
    ensures |r| == |d| && forall k :: 0 <= k < |d| ==> r[k] == d[k].0 + ":" + d[k].1
  {
    seq(|d|, k requires 0 <= k < |d| => d[k].0 + ":" + d[k].1)
  }

  /** `", ".join(f"{chain}:{slug}" for chain, slug in sorted(d.items())) or "none"` */
  function Available(d: Mapping): string {
    var joined := Join(", ", ItemTexts(SortedItems(d)));
    if joined == [] then "none" else joined
  }

  function NoPublisherMessage(chain: string, d: Mapping): string {
    "No RPC publisher is available for chain '" + chain + "' (connector alias 'rpc_" + chain + "'). "
    + "Auto-discovered mappings: " + Available(d) + ". "
    + "Add an explicit override in config.rpc_publishers if needed."
  }

  const OverrideSource := "config.rpc_publishers"
  const CatalogSource := "catalog:/publishers"

  /** `_rpc_publisher_for_chain`: an override decides without reading the
      catalogue; otherwise the catalogue's best slug for the chain; otherwise
      a `ConfigError` naming what was discovered. */
  function RpcPublisherForChain(chain: string, config: Fields, fetch: int -> Page): Resolved {
    match OverridesOf(config)
    case Err(e) => Resolved(Err(e), [])
    case Ok(overrides) =>
      if chain in overrides then Resolved(Ok(Resolution(overrides[chain], OverrideSource)), [])
      else
        var catalog := CatalogOf(fetch, CatalogMaxPages);
        match catalog.outcome
        case Err(e) => Resolved(Err(e), catalog.offsets)
        case Ok(pubs) =>
          var discovered := DiscoveredOf(pubs);
          match Lookup(discovered, chain)
          case Some(slug) => Resolved(Ok(Resolution(slug, CatalogSource)), catalog.offsets)
          case None => Resolved(Err(ConfigError(NoPublisherMessage(chain, discovered))), catalog.offsets)
  }

  /** `_rpc_publisher_for_chain` with the loops it runs: the override loop,
      then, only when no override names the chain, the catalogue walk of
      `list_publishers()` and the discovery loops. */
  method ResolveRpcPublisher(c: PublisherClient, t: Transport, chain: string, config: Fields) returns (r: Resolved)
    ensures r == RpcPublisherForChain(chain, config, Served(c, t, CatalogLimit))
  {
    var overrides := RpcPublisherOverrides(config);
    if overrides.Err? {
      return Resolved(Err(overrides.error), []);
    }
    if chain in overrides.value {
      return Resolved(Ok(Resolution(overrides.value[chain], OverrideSource)), []);
    }
    var publishers, offsets := ListPublishers(c, t, CatalogLimit, CatalogMaxPages);
    if publishers.Err? {
      return Resolved(Err(publishers.error), offsets);
    }
    var discovered := DiscoverRpcPublishers(publishers.value);
    var found := Lookup(discovered, chain);
    if found.Some? {
      return Resolved(Ok(Resolution(found.value, CatalogSource)), offsets);
    }
    return Resolved(Err(ConfigError(NoPublisherMessage(chain, discovered))), offsets);
  }

  /** An override decides without a catalogue request, and a malformed
      `rpc_publishers` fails before one. */
  lemma OverrideDecides(chain: string, config: Fields, fetch: int -> Page)
    ensures var r := RpcPublisherForChain(chain, config, fetch);
            OverridesOf(config).Ok? && chain in OverridesOf(config).value ==>
              r == Resolved(Ok(Resolution(OverridesOf(config).value[chain], OverrideSource)), [])
              && r.outcome.value.publisher != []
    ensures var r := RpcPublisherForChain(chain, config, fetch);
            OverridesOf(config).Err? ==> r == Resolved(Err(OverridesOf(config).error), [])
  {
    OverridesOfSpec(config);
  }

  /** The catalogue is read only when no override names the chain, and then
      with the paging `list_publishers` does. */
  lemma CatalogReadOnlyWithoutOverride(chain: string, config: Fields, fetch: int -> Page)
    ensures var r := RpcPublisherForChain(chain, config, fetch);
            r.pagesRead != [] ==>
              OverridesOf(config).Ok? && chain !in OverridesOf(config).value
              && r.pagesRead == CatalogOf(fetch, CatalogMaxPages).offsets
  {
  }

  /** A publisher found in the catalogue is the inner loop's winner for the
      chain's terms, and is never empty. */
  lemma CatalogPublisherIsBest(chain: string, config: Fields, fetch: int -> Page)
    ensures var r := RpcPublisherForChain(chain, config, fetch);
            var catalog := CatalogOf(fetch, CatalogMaxPages);
            r.outcome.Ok? && r.outcome.value.source == CatalogSource ==>
              catalog.outcome.Ok? && r.outcome.value.publisher != []
              && exists j :: 0 <= j < |ChainDiscoveryTerms| && ChainDiscoveryTerms[j].0 == chain
                             && BestFor(catalog.outcome.value, ChainDiscoveryTerms[j].1).slug == r.outcome.value.publisher
  {
    var catalog := CatalogOf(fetch, CatalogMaxPages);
    if catalog.outcome.Ok? {
      var pubs := catalog.outcome.value;
      DiscoveredSlugIsBest(pubs, chain);
    }
  }

  /** The "no publisher" error comes only when no catalogue entry is
      eligible for the chain's terms. */
  lemma NoPublisherMeansNoCandidate(chain: string, config: Fields, fetch: int -> Page)
    ensures var r := RpcPublisherForChain(chain, config, fetch);
            var catalog := CatalogOf(fetch, CatalogMaxPages);
            OverridesOf(config).Ok? && chain !in OverridesOf(config).value && catalog.outcome.Ok? && r.outcome.Err? ==>
              forall j :: 0 <= j < |ChainDiscoveryTerms| && ChainDiscoveryTerms[j].0 == chain ==>
                BestFor(catalog.outcome.value, ChainDiscoveryTerms[j].1).slug == []
  {
    var catalog := CatalogOf(fetch, CatalogMaxPages);
    if catalog.outcome.Ok? {
      DiscoveredSlugIsBest(catalog.outcome.value, chain);
    }
  }

  /** The "no publisher" error shows what `Available` lists. */
  lemma NoPublisherShowsAvailable(chain: string, d: Mapping)
    ensures Contains(NoPublisherMessage(chain, d), Available(d))
    ensures forall x :: Contains(Available(d), x) ==> Contains(NoPublisherMessage(chain, d), x)
  {
    var intro := "No RPC publisher is available for chain '" + chain + "' (connector alias 'rpc_" + chain + "'). "
                 + "Auto-discovered mappings: ";
    var outro := "Add an explicit override in config.rpc_publishers if needed.";
    ContainsMiddle(intro, Available(d), ". ");
    ContainsInPrefix(intro + Available(d) + ". ", outro, Available(d));
    forall x | Contains(Available(d), x)
      ensures Contains(NoPublisherMessage(chain, d), x)
    {
      ContainsInSuffix(intro, Available(d), x);
      ContainsInPrefix(intro + Available(d), ". ", x);
      ContainsInPrefix(intro + Available(d) + ". ", outro, x);
    }
  }

  /** `Available` lists the discovered `chain:slug` pairs, each of them and
      nothing else, ordered by chain, or says "none" when nothing was
      discovered. */
  lemma AvailableListsDiscovered(d: Mapping)
    requires DistinctKeys(d)
    ensures d == [] ==> Available(d) == "none"
    ensures d != [] ==> Available(d) == Join(", ", ItemTexts(SortedItems(d)))
    ensures |SortedItems(d)| == |d|
    ensures forall i, j :: 0 <= i < j < |SortedItems(d)| ==> LexLeq(SortedItems(d)[i].0, SortedItems(d)[j].0)
    ensures forall k :: 0 <= k < |SortedItems(d)| ==> SortedItems(d)[k] in d
    ensures forall k :: 0 <= k < |d| ==> d[k] in SortedItems(d)
    ensures forall k :: 0 <= k < |d| ==> Contains(Available(d), d[k].0 + ":" + d[k].1)
  {
    var names := seq(|d|, k requires 0 <= k < |d| => d[k].0);
    var chains := SortStrings(names);
    var items := SortedItems(d);
    var pairs := ItemTexts(items);
    assert |chains| == |names| by {
      assert |multiset(chains)| == |multiset(names)|;
    }
    assert forall i, j :: 0 <= i < j < |items| ==> LexLeq(items[i].0, items[j].0) by {
      assert SortedStrings(chains);
    }
    forall k | 0 <= k < |items|
      ensures items[k] in d
    {
      assert chains[k] in multiset(names);
      var j :| 0 <= j < |names| && names[j] == chains[k];
      SlugForFirst(d, j);
      assert items[k] == d[j];
    }
    forall k | 0 <= k < |d|
      ensures d[k] in items
      ensures Contains(Available(d), d[k].0 + ":" + d[k].1)
    {
      assert names[k] in multiset(chains);
      var p :| 0 <= p < |chains| && chains[p] == d[k].0;
      SlugForFirst(d, k);
      assert items[p] == d[k];
      assert pairs[p] == d[k].0 + ":" + d[k].1;
      JoinContainsEach(", ", pairs, p);
      assert |pairs[p]| > 0;
      JoinNonEmpty(", ", pairs, p);
    }
    if d != [] {
      assert |pairs[0]| > 0;
      JoinNonEmpty(", ", pairs, 0);
    }
  }

  lemma {:induction false} SlugForFirst(d: Mapping, k: nat)
    requires k < |d|
    requires forall i :: 0 <= i < k ==> d[i].0 != d[k].0
    ensures Lookup(d, d[k].0) == Some(d[k].1)
    decreases k
  {
    if k > 0 {
      SlugForFirst(d[1..], k - 1);
    }
  }

  lemma {:induction false} JoinNonEmpty(sep: string, parts: seq<string>, k: nat)
    requires k < |parts| && parts[k] != []
    ensures Join(sep, parts) != []
    decreases k
  {
    if |parts| > 1 && k > 0 {
      JoinNonEmpty(sep, parts[1..], k - 1);
    }
  }
}
