/** The Python string operations the gateway clients rely on: case mapping,
    whitespace stripping, prefix/suffix/substring tests, `sep.join`,
    `str.split`, `str(int)`, and the ordering `<` that `sorted` uses. */
module Text {

  // ---------------------------------------------------------------------
  // Characters
  // ---------------------------------------------------------------------

  /** The characters `str.strip()` removes, restricted to the ASCII and
      Latin-1 ranges. */
  predicate IsSpace(c: char) {
    c == ' ' || c == '\t' || c == '\n' || c == '\r' || c == '\U{000B}' || c == '\U{000C}'
    || ('\U{001C}' <= c <= '\U{001F}') || c == '\U{0085}' || c == '\U{00A0}'
  }

  function LowerChar(c: char): char {
    if 'A' <= c <= 'Z' then (c as int + 32) as char else c
  }

  function UpperChar(c: char): char {
    if 'a' <= c <= 'z' then (c as int - 32) as char else c
  }

  /** `s.lower()` on the ASCII letters. */
  function Lower(s: string): (r: string)
    ensures |r| == |s|
    ensures forall i :: 0 <= i < |s| ==> r[i] == LowerChar(s[i])
  {
    seq(|s|, i requires 0 <= i < |s| => LowerChar(s[i]))
  }

  /** `s.upper()` on the ASCII letters. */
  function Upper(s: string): (r: string)
    ensures |r| == |s|
    ensures forall i :: 0 <= i < |s| ==> r[i] == UpperChar(s[i])
  {
    seq(|s|, i requires 0 <= i < |s| => UpperChar(s[i]))
  }

  /** Upper-casing twice is upper-casing once. */
  lemma UpperIdempotent(s: string)
    ensures Upper(Upper(s)) == Upper(s)
  {
  }

  // ---------------------------------------------------------------------
  // Stripping
  // ---------------------------------------------------------------------

  predicate AllSpace(s: string) {
    forall k :: 0 <= k < |s| ==> IsSpace(s[k])
  }

  /** `s` is `r` with the whitespace `before` in front and `after` behind. */
  predicate SpacedAround(s: string, before: string, r: string, after: string) {
    AllSpace(before) && AllSpace(after) && s == before + r + after
  }

  /** `r` is `s` with only whitespace taken off its start and its end. */
  ghost predicate TrimmedOf(s: string, r: string) {
    exists before, after :: SpacedAround(s, before, r, after)
  }

  function TrimStart(s: string): (r: string)
    ensures |r| <= |s| && r == s[|s| - |r|..]
    ensures r == [] || !IsSpace(r[0])
    decreases |s|
  {
    if s != [] && IsSpace(s[0]) then TrimStart(s[1..]) else s
  }

  function TrimEnd(s: string): (r: string)
    ensures r <= s
    ensures r == [] || !IsSpace(r[|r| - 1])
    decreases |s|
  {
    if s != [] && IsSpace(s[|s| - 1]) then TrimEnd(s[..|s| - 1]) else s
  }

  lemma {:induction false} TrimStartDropsSpace(s: string)
    ensures AllSpace(s[..|s| - |TrimStart(s)|])
    decreases |s|
  {
    if s != [] && IsSpace(s[0]) {
      TrimStartDropsSpace(s[1..]);
      var n := |s| - |TrimStart(s)|;
      assert s[..n] == [s[0]] + s[1..][..n - 1];
    }
  }

  lemma {:induction false} TrimEndDropsSpace(s: string)
    ensures AllSpace(s[|TrimEnd(s)|..])
    decreases |s|
  {
    if s != [] && IsSpace(s[|s| - 1]) {
      var init := s[..|s| - 1];
      TrimEndDropsSpace(init);
      assert s[|TrimEnd(s)|..] == init[|TrimEnd(init)|..] + [s[|s| - 1]];
    }
  }

  /** `s.strip()`: no whitespace is left at either end. */
  function Strip(s: string): (r: string)
    ensures |r| <= |s|
    ensures r == [] || (!IsSpace(r[0]) && !IsSpace(r[|r| - 1]))
  {
    TrimEnd(TrimStart(s))
  }

  /** A prefix `r` of a suffix `t` of `s`, where `s` has only whitespace
      before `t` and `t` only whitespace after `r`, is `s` trimmed. */
  lemma TrimmedOfParts(s: string, t: string, r: string)
    requires |t| <= |s| && t == s[|s| - |t|..] && AllSpace(s[..|s| - |t|])
    requires r <= t && AllSpace(t[|r|..])
    ensures TrimmedOf(s, r)
  {
    var before := s[..|s| - |t|];
    var after := t[|r|..];
    assert s == before + t;
    assert t == r + after;
    assert SpacedAround(s, before, r, after);
  }

  /** What `strip` removes is whitespace at the start and at the end of
      `s`, and nothing else. */
  lemma StripRemovesOuterSpace(s: string)
    ensures TrimmedOf(s, Strip(s))
  {
    TrimStartDropsSpace(s);
    TrimEndDropsSpace(TrimStart(s));
    TrimmedOfParts(s, TrimStart(s), Strip(s));
  }

  lemma StripIdempotent(s: string)
    ensures Strip(Strip(s)) == Strip(s)
  {
    var t := Strip(s);
    assert TrimStart(t) == t;
    assert TrimEnd(t) == t;
  }

  /** Text without whitespace at either end is its own strip. */
  lemma StripUnchanged(s: string)
    requires s == [] || (!IsSpace(s[0]) && !IsSpace(s[|s| - 1]))
    ensures Strip(s) == s
  {
    assert TrimStart(s) == s;
  }

  /** Stripping adds no character. */
  lemma StripWithout(s: string, c: char)
    requires c !in s
    ensures c !in Strip(s)
  {
    var t := TrimStart(s);
    var u := TrimEnd(t);
    forall i | 0 <= i < |u| ensures u[i] != c {
      assert u[i] == t[i] == s[|s| - |t| + i];
    }
  }

  /** `s.rstrip(c)` for a single character `c`. */
  function RStripChar(s: string, c: char): (r: string)
    ensures r <= s
    ensures r == [] || r[|r| - 1] != c
    ensures forall i :: |r| <= i < |s| ==> s[i] == c
    decreases |s|
  {
    if s != [] && s[|s| - 1] == c then RStripChar(s[..|s| - 1], c) else s
  }

  /** `s[:n]` */
  function Take(s: string, n: nat): (r: string)
    ensures r <= s && |r| <= n
  {
    if |s| <= n then s else s[..n]
  }

  /** `os.environ.get(name, default)`, the environment being a map. */
  function EnvGet(env: map<string, string>, name: string, default: string): string {
    if name in env then env[name] else default
  }

  /** The head and the tail of a concatenation whose first part is not
      empty. */
  lemma TailOfAppend<T>(a: seq<T>, b: seq<T>)
    requires a != []
    ensures (a + b)[0] == a[0] && (a + b)[1..] == a[1..] + b
  {
  }

  /** The pieces `f` gives for each element, concatenated in order, as a
      list comprehension with a filter builds them. */
  function ConcatMap<T, U>(f: T -> seq<U>, s: seq<T>): seq<U>
    decreases |s|
  {
    if s == [] then [] else f(s[0]) + ConcatMap(f, s[1..])
  }

  lemma {:induction false} ConcatMapAppend<T, U>(f: T -> seq<U>, a: seq<T>, b: seq<T>)
    ensures ConcatMap(f, a + b) == ConcatMap(f, a) + ConcatMap(f, b)
    decreases |a|
  {
    if a == [] {
      assert a + b == b;
    } else {
      TailOfAppend(a, b);
      ConcatMapAppend(f, a[1..], b);
      var h, x, y := f(a[0]), ConcatMap(f, a[1..]), ConcatMap(f, b);
      assert h + (x + y) == (h + x) + y;
    }
  }

  lemma ConcatMapTwo<T, U>(f: T -> seq<U>, x: T, y: T)
    ensures ConcatMap(f, [x, y]) == f(x) + f(y)
  {
    assert [x, y][1..] == [y];
    assert [y][1..] == [];
    assert ConcatMap(f, [y]) == f(y) + ConcatMap(f, []) == f(y);
    assert ConcatMap(f, [x, y]) == f(x) + ConcatMap(f, [y]);
  }

  lemma {:induction false} ConcatMapHolds<T, U>(f: T -> seq<U>, s: seq<T>, x: U)
    ensures x in ConcatMap(f, s) <==> exists k :: 0 <= k < |s| && x in f(s[k])
    decreases |s|
  {
    if s != [] {
      ConcatMapHolds(f, s[1..], x);
      if x in ConcatMap(f, s) && x !in f(s[0]) {
        var k :| 0 <= k < |s[1..]| && x in f(s[1..][k]);
        assert s[k + 1] == s[1..][k];
      }
      if exists k :: 0 <= k < |s| && x in f(s[k]) {
        var k :| 0 <= k < |s| && x in f(s[k]);
        if k > 0 {
          assert s[1..][k - 1] == s[k];
        }
      }
    }
  }

  // ---------------------------------------------------------------------
  // Prefixes, suffixes, substrings
  // ---------------------------------------------------------------------

  predicate StartsWith(s: string, prefix: string) {
    |prefix| <= |s| && s[..|prefix|] == prefix
  }

  lemma StartsWithConcat(a: string, b: string)
    ensures StartsWith(a + b, a)
  {
    assert (a + b)[..|a|] == a;
  }

  predicate EndsWith(s: string, suffix: string) {
    |suffix| <= |s| && s[|s| - |suffix|..] == suffix
  }

  predicate OccursAt(s: string, sub: string, i: int) {
    0 <= i && i + |sub| <= |s| && s[i..i + |sub|] == sub
  }

  /** Python's `sub in s`. */
  predicate Contains(s: string, sub: string) {
    exists i :: 0 <= i <= |s| && OccursAt(s, sub, i)
  }

  lemma ContainsMiddle(a: string, x: string, b: string)
    ensures Contains(a + x + b, x)
  {
    var s := a + x + b;
    assert s[|a|..|a| + |x|] == x;
    assert OccursAt(s, x, |a|);
  }

  lemma ContainsInSuffix(prefix: string, s: string, x: string)
    requires Contains(s, x)
    ensures Contains(prefix + s, x)
  {
    var i :| 0 <= i <= |s| && OccursAt(s, x, i);
    assert 0 <= i && i + |x| <= |s| && s[i..i + |x|] == x;
    assert (prefix + s)[|prefix| + i..|prefix| + i + |x|] == x;
    assert OccursAt(prefix + s, x, |prefix| + i);
  }

  lemma ContainsInPrefix(s: string, suffix: string, x: string)
    requires Contains(s, x)
    ensures Contains(s + suffix, x)
  {
    var i :| 0 <= i <= |s| && OccursAt(s, x, i);
    assert 0 <= i && i + |x| <= |s| && s[i..i + |x|] == x;
    assert (s + suffix)[i..i + |x|] == x;
    assert OccursAt(s + suffix, x, i);
  }

  // ---------------------------------------------------------------------
  // join and split
  // ---------------------------------------------------------------------

  /** `sep.join(parts)` */
  function Join(sep: string, parts: seq<string>): string
    decreases |parts|
  {
    if parts == [] then ""
    else if |parts| == 1 then parts[0]
    else parts[0] + sep + Join(sep, parts[1..])
  }

  /** Every part of a join can be found in the joined text. */
  lemma {:induction false} JoinContainsEach(sep: string, parts: seq<string>, k: nat)
    requires k < |parts|
    ensures Contains(Join(sep, parts), parts[k])
    decreases k
  {
    if |parts| == 1 {
      ContainsMiddle([], parts[0], []);
      assert [] + parts[0] + [] == parts[0];
    } else if k == 0 {
      ContainsMiddle([], parts[0], sep + Join(sep, parts[1..]));
      assert [] + parts[0] + (sep + Join(sep, parts[1..])) == Join(sep, parts);
    } else {
      JoinContainsEach(sep, parts[1..], k - 1);
      ContainsInSuffix(parts[0] + sep, Join(sep, parts[1..]), parts[k]);
      assert (parts[0] + sep) + Join(sep, parts[1..]) == Join(sep, parts);
    }
  }

  function IndexOf(s: string, c: char): (i: nat)
    requires c in s
    ensures i < |s| && s[i] == c && c !in s[..i]
  {
    if s[0] == c then 0
    else
      assert c in s[1..] by {
        var k :| 0 <= k < |s| && s[k] == c;
        assert s[1..][k - 1] == c;
      }
      var j := IndexOf(s[1..], c);
      assert s[..j + 1] == [s[0]] + s[1..][..j];
      j + 1
  }

  /** `s.split(c)` for a one-character separator: always at least one part. */
  function Split(s: string, c: char): (r: seq<string>)
    ensures |r| >= 1
    ensures forall k :: 0 <= k < |r| ==> c !in r[k]
    decreases |s|
  {
    if c in s then
      var i := IndexOf(s, c);
      [s[..i]] + Split(s[i + 1..], c)
    else [s]
  }

  /** A join of non-empty parts starts with the first part's first
      character and ends with the last part's last. */
  lemma {:induction false} JoinEnds(sep: string, parts: seq<string>)
    requires |parts| >= 1 && forall k :: 0 <= k < |parts| ==> parts[k] != []
    ensures var j := Join(sep, parts);
            j != [] && j[0] == parts[0][0] && j[|j| - 1] == parts[|parts| - 1][|parts[|parts| - 1]| - 1]
    decreases |parts|
  {
    if |parts| > 1 {
      var rest := parts[1..];
      JoinEnds(sep, rest);
      assert rest[|rest| - 1] == parts[|parts| - 1];
      var j := Join(sep, parts);
      assert j == parts[0] + sep + Join(sep, rest);
    }
  }

  /** Splitting a join undoes it when no part holds the separator. */
  lemma {:induction false} SplitJoin(parts: seq<string>, c: char)
    requires |parts| >= 1
    requires forall k :: 0 <= k < |parts| ==> c !in parts[k]
    ensures Split(Join([c], parts), c) == parts
    decreases |parts|
  {
    if |parts| > 1 {
      var p := parts[0];
      var rest := Join([c], parts[1..]);
      var s := Join([c], parts);
      assert s == p + [c] + rest;
      assert s[|p|] == c;
      assert c in s;
      var i := IndexOf(s, c);
      assert s[..|p|] == p;
      assert s[..i] == p;
      assert s[i + 1..] == rest;
      SplitJoin(parts[1..], c);
    }
  }

  // ---------------------------------------------------------------------
  // Numbers as text
  // ---------------------------------------------------------------------

  function DigitChar(d: nat): char
    requires d < 10
  {
    ('0' as int + d) as char
  }

  function NatToString(n: nat): (r: string)
    ensures |r| >= 1
    decreases n
  {
    if n < 10 then [DigitChar(n)] else NatToString(n / 10) + [DigitChar(n % 10)]
  }

  /** `str(i)` for a Python int. */
  function IntToString(i: int): string {
    if i < 0 then "-" + NatToString(-i) else NatToString(i)
  }

  // ---------------------------------------------------------------------
  // The order Python uses to compare and sort strings
  // ---------------------------------------------------------------------

  /** Python's `a < b` on `str`: code point by code point, a proper prefix
      being smaller. */
  predicate LexLess(a: string, b: string)
    decreases |a|
  {
    if a == [] then b != []
    else if b == [] then false
    else if a[0] != b[0] then a[0] < b[0]
    else LexLess(a[1..], b[1..])
  }

  predicate LexLeq(a: string, b: string) {
    a == b || LexLess(a, b)
  }

  lemma {:induction false} LexLessIrreflexive(a: string)
    ensures !LexLess(a, a)
    decreases |a|
  {
    if a != [] {
      LexLessIrreflexive(a[1..]);
    }
  }

  lemma {:induction false} LexLessTransitive(a: string, b: string, c: string)
    requires LexLess(a, b) && LexLess(b, c)
    ensures LexLess(a, c)
    decreases |a|
  {
    if a != [] && b != [] && c != [] && a[0] == b[0] && b[0] == c[0] {
      LexLessTransitive(a[1..], b[1..], c[1..]);
    }
  }

  lemma {:induction false} LexLessTotal(a: string, b: string)
    ensures a == b || LexLess(a, b) || LexLess(b, a)
    decreases |a|
  {
    if a != [] && b != [] && a[0] == b[0] {
      LexLessTotal(a[1..], b[1..]);
      if a[1..] == b[1..] {
        assert a == [a[0]] + a[1..] && b == [b[0]] + b[1..];
      }
    }
  }

  lemma LexLessAsymmetric(a: string, b: string)
    requires LexLess(a, b)
    ensures !LexLess(b, a)
  {
    if LexLess(b, a) {
      LexLessTransitive(a, b, a);
      LexLessIrreflexive(a);
    }
  }

  lemma LexLeqTransitive(a: string, b: string, c: string)
    requires LexLeq(a, b) && LexLeq(b, c)
    ensures LexLeq(a, c)
  {
    if a != b && b != c {
      LexLessTransitive(a, b, c);
    }
  }

  predicate SortedStrings(s: seq<string>) {
    forall i, j :: 0 <= i < j < |s| ==> LexLeq(s[i], s[j])
  }

  /** A bound below every element may be put in front. */
  lemma SortedCons(x: string, s: seq<string>)
    requires SortedStrings(s)
    requires forall k :: 0 <= k < |s| ==> LexLeq(x, s[k])
    ensures SortedStrings([x] + s)
  {
  }

  /** In a sorted list, a bound below the first element is below all. */
  lemma BelowFirst(x: string, s: seq<string>)
    requires SortedStrings(s) && s != [] && LexLeq(x, s[0])
    ensures forall k :: 0 <= k < |s| ==> LexLeq(x, s[k])
  {
    forall k | 0 < k < |s|
      ensures LexLeq(x, s[k])
    {
      LexLeqTransitive(x, s[0], s[k]);
    }
  }

  /** A bound on a list and on one more string bounds any rearrangement of
      the two. */
  lemma BelowAll(y: string, s: seq<string>, x: string, t: seq<string>)
    requires forall k :: 0 <= k < |s| ==> LexLeq(y, s[k])
    requires LexLeq(y, x)
    requires multiset(t) == multiset(s) + multiset{x}
    ensures forall k :: 0 <= k < |t| ==> LexLeq(y, t[k])
  {
    forall k | 0 <= k < |t|
      ensures LexLeq(y, t[k])
    {
      assert t[k] in multiset(t);
      if t[k] != x {
        assert t[k] in multiset(s);
        var j :| 0 <= j < |s| && s[j] == t[k];
      }
    }
  }

  function Insert(x: string, s: seq<string>): (r: seq<string>)
    requires SortedStrings(s)
    ensures SortedStrings(r)
    ensures multiset(r) == multiset(s) + multiset{x}
    decreases |s|
  {
    if s == [] then [x]
    else if LexLeq(x, s[0]) then
      BelowFirst(x, s);
      SortedCons(x, s);
      [x] + s
    else
      LexLessTotal(x, s[0]);
      var tail := Insert(x, s[1..]);
      BelowFirst(s[0], s);
      BelowAll(s[0], s[1..], x, tail);
      SortedCons(s[0], tail);
      assert s == [s[0]] + s[1..];
      [s[0]] + tail
  }

  /** `sorted(s)` on a list of strings: ordered, and the same strings. */
  function SortStrings(s: seq<string>): (r: seq<string>)
    ensures SortedStrings(r)
    ensures multiset(r) == multiset(s)
    decreases |s|
  {
    if s == [] then []
    else
      assert s == [s[0]] + s[1..];
      Insert(s[0], SortStrings(s[1..]))
  }
}
