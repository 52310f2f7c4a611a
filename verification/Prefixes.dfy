/**
 Prefix-hash chains: the keys of `kvcache_sim/workload/_generator.py` (`_extend`) and
 `kvcache_sim/control/request.py` (`continuation_keys`), and the runs of them that
 `kvcache_sim/control/_prefix.py` counts.
 */
module Prefixes {
  import opened Basics

  type Key = string

  /** One block of a prompt: a segment id the generator chose, or the i-th block a generation left. */
  datatype Segment = Given(n: nat) | Left(i: nat)

  // ----- writing a chain ------------------------------------------------------------------

  function Digit(d: nat): char
    requires d < 10
  {
    ['0', '1', '2', '3', '4', '5', '6', '7', '8', '9'][d]
  }

  function Decimal(n: nat): string {
    if n < 10 then [Digit(n)] else Decimal(n / 10) + [Digit(n % 10)]
  }

  function Text(s: Segment): string {
    match s
    case Given(n) => Decimal(n)
    case Left(i) => "g" + Decimal(i)
  }

  /** A key is everything before it and its own segment. */
  function Encode(root: string, segments: seq<Segment>): Key
    decreases |segments|
  {
    if segments == [] then root else
      Encode(root, segments[..|segments| - 1]) + "|" + Text(segments[|segments| - 1])
  }

  /** The key of each block of a chain. */
  function Chain(root: string, segments: seq<Segment>): (keys: seq<Key>)
    ensures |keys| == |segments|
    ensures forall i: nat :: i < |keys| ==> keys[i] == Encode(root, segments[..i + 1])
  {
    seq(|segments|, i requires 0 <= i < |segments| => Encode(root, segments[..i + 1]))
  }

  lemma EncodeMore(root: string, segments: seq<Segment>, s: Segment)
    ensures Encode(root, segments + [s]) == Encode(root, segments) + "|" + Text(s)
  {
    assert (segments + [s])[..|segments|] == segments;
  }

  /** One more segment is one more key. */
  lemma ChainMore(root: string, segments: seq<Segment>, i: nat)
    requires i < |segments|
    ensures Chain(root, segments[..i + 1]) == Chain(root, segments[..i])
      + [Encode(root, segments[..i]) + "|" + Text(segments[i])]
  {
    hide Encode, Text;
    var more, less := segments[..i + 1], segments[..i];
    EncodeMore(root, less, segments[i]);
    assert more == less + [segments[i]] && more[..i + 1] == more;
    forall j: nat | j < i
      ensures Chain(root, more)[j] == Chain(root, less)[j]
    {
      assert more[..j + 1] == less[..j + 1];
    }
  }

  /** The number a text of decimal digits stands for. */
  function ValueOf(text: string): int {
    if text == "" then 0 else ValueOf(text[..|text| - 1]) * 10 + (text[|text| - 1] as int - '0' as int)
  }

  /** A segment id is written as the number it is, with nothing in front. */
  lemma {:induction false} DecimalReads(n: nat)
    ensures ValueOf(Decimal(n)) == n
    ensures Decimal(n) != "" && (n == 0 || Decimal(n)[0] != '0')
  {
    if n >= 10 {
      DecimalReads(n / 10);
      DecimalEnds(n);
    }
  }

  /** Each key is the one before it, or the root, then a separator and its own segment: a number, or `g` and one. */
  lemma KeysContinue(root: string, segments: seq<Segment>, i: nat)
    requires i < |segments|
    ensures var before, s := if i == 0 then root else Chain(root, segments)[i - 1], segments[i];
      Chain(root, segments)[i] == before + "|" + (match s case Given(n) => Decimal(n) case Left(n) => "g" + Decimal(n))
  {
    hide Decimal;
    assert segments[..i + 1] == segments[..i] + [segments[i]];
    EncodeMore(root, segments[..i], segments[i]);
    assert i == 0 ==> segments[..i] == [];
  }

  /** `_extend`. */
  method Extend(prefix: string, segments: seq<nat>) returns (keys: seq<Key>)
    ensures keys == Chain(prefix, AllGiven(segments))
  {
    hide Chain, Decimal;
    ghost var all := AllGiven(segments);
    keys := [];
    var acc := prefix;
    for i := 0 to |segments|
      invariant acc == Encode(prefix, all[..i]) && keys == Chain(prefix, all[..i])
    {
      ChainMore(prefix, all, i);
      acc := acc + "|" + Decimal(segments[i]);
      keys := keys + [acc];
      EncodeMore(prefix, all[..i], all[i]);
      assert all[..i + 1] == all[..i] + [all[i]];
    }
    assert all[..|segments|] == all;
  }

  function AllGiven(segments: seq<nat>): (r: seq<Segment>)
    ensures |r| == |segments| && forall i: nat :: i < |r| ==> r[i] == Given(segments[i])
  {
    seq(|segments|, i requires 0 <= i < |segments| => Given(segments[i]))
  }

  /** The blocks a generation of `count` leaves, counted from one. */
  function Leaves(count: nat): (r: seq<Segment>)
    ensures |r| == count && forall i: nat :: i < count ==> r[i] == Left(i + 1)
  {
    seq(count, i requires 0 <= i => Left(i + 1))
  }

  /** `continuation_keys`: a request with no prompt blocks continues its own id. */
  method ContinuationKeys(id: string, blockKeys: seq<Key>, count: nat) returns (keys: seq<Key>)
    ensures keys == Chain(if blockKeys != [] then blockKeys[|blockKeys| - 1] else id, Leaves(count))
  {
    hide Chain, Decimal;
    var root := if blockKeys != [] then blockKeys[|blockKeys| - 1] else id;
    ghost var all := Leaves(count);
    var acc := root;
    keys := [];
    for i := 0 to count
      invariant acc == Encode(root, all[..i]) && keys == Chain(root, all[..i])
    {
      ChainMore(root, all, i);
      acc := acc + "|" + ("g" + Decimal(i + 1));
      keys := keys + [acc];
      EncodeMore(root, all[..i], all[i]);
      assert all[..i + 1] == all[..i] + [all[i]];
    }
    assert all[..count] == all;
  }

  // ----- the writing is injective ---------------------------------------------------------

  lemma {:induction false} DecimalIsDigits(n: nat)
    ensures Decimal(n) != [] && forall c :: c in Decimal(n) ==> '0' <= c <= '9'
  {
    if n >= 10 { DecimalIsDigits(n / 10); }
  }

  lemma DecimalEnds(n: nat)
    requires n >= 10
    ensures var a := Decimal(n); a != [] && a[|a| - 1] == Digit(n % 10) && a[..|a| - 1] == Decimal(n / 10)
  {}

  lemma {:induction false} DecimalInjective(m: nat, n: nat)
    requires Decimal(m) == Decimal(n)
    ensures m == n
  {
    if m >= 10 { DecimalEnds(m); DecimalIsDigits(m / 10); }
    if n >= 10 { DecimalEnds(n); DecimalIsDigits(n / 10); }
    if m >= 10 && n >= 10 {
      hide Decimal;
      DecimalInjective(m / 10, n / 10);
    }
  }

  lemma FirstChar(s: Segment)
    ensures Text(s) != [] && '|' !in Text(s)
    ensures if s.Given? then '0' <= Text(s)[0] <= '9' else Text(s)[0] == 'g'
  {
    match s
    case Given(n) =>
      DecimalIsDigits(n);
      assert Text(s)[0] in Decimal(n);
    case Left(i) =>
      DecimalIsDigits(i);
  }

  /** Generated segments never meet decimal ones, and neither holds a separator. */
  lemma TextInjective(s: Segment, t: Segment)
    ensures '|' !in Text(s)
    ensures Text(s) == Text(t) ==> s == t
  {
    FirstChar(s);
    FirstChar(t);
    if Text(s) == Text(t) {
      if s.Given? && t.Given? {
        DecimalInjective(s.n, t.n);
      }
      if s.Left? && t.Left? {
        assert Text(s)[1..] == Decimal(s.i) && Text(t)[1..] == Decimal(t.i);
        DecimalInjective(s.i, t.i);
      }
    }
  }

  lemma SeparatorInside(x: string, u: string, y: string, v: string)
    requires x + "|" + u == y + "|" + v
    ensures |x| < |y| ==> '|' in u
  {
    var s := x + "|" + u;
    assert s[|y|] == '|';
    if |x| < |y| { assert s[|y|] == u[|y| - |x| - 1]; }
  }

  /** A string splits in one way at its last separator. */
  lemma SplitsOnce(x: string, u: string, y: string, v: string)
    requires x + "|" + u == y + "|" + v && '|' !in u && '|' !in v
    ensures x == y && u == v
  {
    SeparatorInside(x, u, y, v);
    SeparatorInside(y, v, x, u);
    var s := x + "|" + u;
    assert x == s[..|x|] && y == s[..|y|];
    assert u == s[|x| + 1..] && v == s[|y| + 1..];
  }

  lemma LastSegments(a: string, s: Segment, b: string, t: Segment)
    requires a + "|" + Text(s) == b + "|" + Text(t)
    ensures a == b && s == t
  {
    TextInjective(s, t);
    TextInjective(t, s);
    SplitsOnce(a, Text(s), b, Text(t));
  }

  /** What two roots share: one continues the other by whole segments. */
  ghost predicate Continues(root: string, other: string) {
    exists c: seq<Segment> :: root == Encode(other, c)
  }

  /** Equal keys agree from the end back, and what is left of the longer makes up for the root. */
  lemma {:induction false} EqualKeys(root: string, a: seq<Segment>, other: string, b: seq<Segment>)
    requires Encode(root, a) == Encode(other, b) && |a| <= |b|
    ensures root == Encode(other, b[..|b| - |a|]) && a == b[|b| - |a|..]
    decreases |a|
  {
    hide Text;
    if a == [] {
      assert b[..|b|] == b;
    } else {
      var x, y := a[..|a| - 1], b[..|b| - 1];
      LastSegments(Encode(root, x), a[|a| - 1], Encode(other, y), b[|b| - 1]);
      EqualKeys(root, x, other, y);
      Aligned(a, b);
    }
  }

  lemma Aligned(a: seq<Segment>, b: seq<Segment>)
    requires 0 < |a| <= |b| && a[|a| - 1] == b[|b| - 1]
    requires var x, y := a[..|a| - 1], b[..|b| - 1]; x == y[|y| - |x|..]
    ensures a == b[|b| - |a|..] && b[..|b| - 1][..|b| - |a|] == b[..|b| - |a|]
  {
    assert a == a[..|a| - 1] + [a[|a| - 1]];
    assert b == b[..|b| - 1] + [b[|b| - 1]];
  }

  lemma {:induction false} EncodeGrows(root: string, a: seq<Segment>)
    ensures |Encode(root, a)| >= |root| + |a|
    decreases |a|
  {
    if a != [] { EncodeGrows(root, a[..|a| - 1]); }
  }

  lemma SameRoot(root: string, a: seq<Segment>, b: seq<Segment>)
    requires Encode(root, a) == Encode(root, b) && |a| <= |b|
    ensures a == b
  {
    EqualKeys(root, a, root, b);
    EncodeGrows(root, b[..|b| - |a|]);
    assert b[0..] == b;
  }

  /** Under one root, two keys are equal exactly when everything they encode is. */
  lemma KeysEqualIff(root: string, a: seq<Segment>, b: seq<Segment>)
    ensures Encode(root, a) == Encode(root, b) <==> a == b
  {
    if Encode(root, a) == Encode(root, b) {
      if |a| <= |b| { SameRoot(root, a, b); } else { SameRoot(root, b, a); }
    }
  }

  /** Two roots ever share a key exactly when one of them continues the other. */
  lemma RootsAliasIff(root: string, other: string)
    ensures (exists a: seq<Segment>, b: seq<Segment> :: Shared(root, a, other, b))
      <==> Continues(root, other) || Continues(other, root)
  {
    hide Encode;
    if a: seq<Segment>, b: seq<Segment> :| Shared(root, a, other, b) {
      if |a| <= |b| { EqualKeys(root, a, other, b); } else { EqualKeys(other, b, root, a); }
    }
    if c: seq<Segment> :| root == Encode(other, c) {
      ContinuedShares(root, other, c);
    }
    if c: seq<Segment> :| other == Encode(root, c) {
      ContinuedShares(other, root, c);
      assert Shared(root, c + [Given(0)], other, [Given(0)]);
    }
  }

  lemma ContinuedShares(root: string, other: string, c: seq<Segment>)
    requires root == Encode(other, c)
    ensures Shared(root, [Given(0)], other, c + [Given(0)])
  {
    EncodeMore(root, [], Given(0));
    EncodeMore(other, c, Given(0));
    assert [] + [Given(0)] == [Given(0)];
  }

  ghost predicate Shared(root: string, a: seq<Segment>, other: string, b: seq<Segment>) {
    a != [] && b != [] && Encode(root, a) == Encode(other, b)
  }

  lemma ContinuationHasSeparator(root: string, c: seq<Segment>)
    ensures c != [] ==> '|' in Encode(root, c)
  {}

  /** Model ids without a separator never alias. */
  lemma PlainRootsNeverAlias(root: string, other: string, a: seq<Segment>, b: seq<Segment>)
    requires '|' !in root && '|' !in other && Encode(root, a) == Encode(other, b) && |a| <= |b|
    ensures root == other && a == b
  {
    EqualKeys(root, a, other, b);
    ContinuationHasSeparator(other, b[..|b| - |a|]);
    assert b[0..] == b;
  }

  /** "m0" and "m0|5" are two model ids that do. */
  lemma SeparatedRootsAlias()
    ensures "m0" != "m0|5" && Encode("m0", [Given(5), Given(6)]) == Encode("m0|5", [Given(6)])
  {
    EncodeMore("m0", [Given(5)], Given(6));
    EncodeMore("m0", [], Given(5));
    EncodeMore("m0|5", [], Given(6));
    assert [Given(5)] + [Given(6)] == [Given(5), Given(6)];
    assert [] + [Given(5)] == [Given(5)] && [] + [Given(6)] == [Given(6)];
    assert Decimal(5) == "5";
  }

  // ----- common prefixes ------------------------------------------------------------------

  /** How many leading elements two lists share. */
  function Common<T(==)>(a: seq<T>, b: seq<T>): nat {
    if a == [] || b == [] || a[0] != b[0] then 0 else 1 + Common(a[1..], b[1..])
  }

  lemma {:induction false} CommonIs<T>(a: seq<T>, b: seq<T>)
    ensures var n := Common(a, b);
      && n <= |a| && n <= |b| && a[..n] == b[..n]
      && (n < |a| && n < |b| ==> a[n] != b[n])
  {
    if a != [] && b != [] && a[0] == b[0] {
      CommonIs(a[1..], b[1..]);
      var n := Common(a, b);
      assert a[..n] == [a[0]] + a[1..][..n - 1] && b[..n] == [b[0]] + b[1..][..n - 1];
    }
  }

  /** It is the only number like that. */
  lemma CommonUnique<T>(a: seq<T>, b: seq<T>, n: nat)
    requires n <= |a| && n <= |b| && a[..n] == b[..n] && (n < |a| && n < |b| ==> a[n] != b[n])
    ensures Common(a, b) == n
  {
    CommonIs(a, b);
    var m := Common(a, b);
    assert forall i: nat :: i < n ==> a[..n][i] == a[i] && b[..n][i] == b[i];
    assert forall i: nat :: i < m ==> a[..m][i] == a[i] && b[..m][i] == b[i];
  }

  /** Two chains share keys exactly as far as their prompts share segments. */
  lemma ChainsShare(root: string, a: seq<Segment>, b: seq<Segment>)
    ensures Common(Chain(root, a), Chain(root, b)) == Common(a, b)
  {
    hide Encode, Chain;
    CommonIs(a, b);
    var n := Common(a, b);
    var x, y := Chain(root, a), Chain(root, b);
    forall i: nat | i < n
      ensures x[i] == y[i]
    {
      assert a[..i + 1] == a[..n][..i + 1] && b[..i + 1] == b[..n][..i + 1];
    }
    assert x[..n] == y[..n];
    if n < |a| && n < |b| {
      KeysEqualIff(root, a[..n + 1], b[..n + 1]);
      assert a[..n + 1][n] == a[n] && b[..n + 1][n] == b[n];
    }
    CommonUnique(x, y, n);
  }

  /** No key stands twice in a chain. */
  lemma ChainNamesOnce(root: string, a: seq<Segment>, i: nat, j: nat)
    requires i < j < |a|
    ensures Chain(root, a)[i] != Chain(root, a)[j]
  {
    KeysEqualIff(root, a[..i + 1], a[..j + 1]);
  }

  // ----- what an instance holds of a chain ------------------------------------------------

  /** Leading blocks of the chain among those present. */
  function Leading(keys: seq<Key>, present: set<Key>): nat {
    if keys == [] || keys[0] !in present then 0 else 1 + Leading(keys[1..], present)
  }

  lemma {:induction false} LeadingIs(keys: seq<Key>, present: set<Key>)
    ensures Leading(keys, present) <= |keys|
    ensures forall i: nat :: i < Leading(keys, present) ==> keys[i] in present
    ensures Leading(keys, present) < |keys| ==> keys[Leading(keys, present)] !in present
  {
    if keys != [] && keys[0] in present { LeadingIs(keys[1..], present); }
  }

  /** `_longest_prefix_run`. */
  method LongestPrefixRun(keys: seq<Key>, present: set<Key>) returns (n: nat)
    ensures n <= |keys| && (forall i: nat :: i < n ==> keys[i] in present)
    ensures n < |keys| ==> keys[n] !in present
    ensures n == Leading(keys, present)
  {
    n := 0;
    assert keys[0..] == keys;
    while n < |keys|
      invariant n <= |keys| && forall i: nat :: i < n ==> keys[i] in present
      invariant n + Leading(keys[n..], present) == Leading(keys, present)
    {
      assert keys[n..][0] == keys[n] && keys[n..][1..] == keys[n + 1..];
      if keys[n] !in present {
        break;
      }
      n := n + 1;
    }
  }

  /** Which of the keys an instance is listed under. */
  function HeldBy(located: map<Key, set<string>>, keys: seq<Key>, instance: string): set<Key> {
    set k | k in keys && k in located && instance in located[k]
  }

  /** `prefix_lengths_of`: every instance holding the first block, with how far its run goes. */
  method PrefixLengthsOf(located: map<Key, set<string>>, keys: seq<Key>) returns (counts: map<string, nat>)
    ensures forall s :: s in counts <==> keys != [] && keys[0] in located && s in located[keys[0]]
    ensures forall s :: s in counts ==> counts[s] == Leading(keys, HeldBy(located, keys, s)) && counts[s] > 0
    ensures forall s :: s in counts ==> counts[s] <= |keys|
  {
    counts := map[];
    if keys == [] {
      return;
    }
    var all := if keys[0] in located then located[keys[0]] else {};
    var todo := all;
    while todo != {}
      invariant todo <= all && counts.Keys == all - todo
      invariant forall s :: s in counts ==> counts[s] == Leading(keys, HeldBy(located, keys, s)) && counts[s] > 0
      invariant forall s :: s in counts ==> counts[s] <= |keys|
      decreases |todo|
    {
      var s :| s in todo;
      var held := HeldBy(located, keys, s);
      assert keys[0] in held;
      var run := LongestPrefixRun(keys, held);
      counts := counts[s := run];
      todo := todo - {s};
    }
  }

  /** An instance left out holds no leading block at all. */
  lemma AbsentHoldsNothing(located: map<Key, set<string>>, keys: seq<Key>, s: string)
    ensures (keys == [] || keys[0] !in located || s !in located[keys[0]])
      <==> Leading(keys, HeldBy(located, keys, s)) == 0
  {}
}
