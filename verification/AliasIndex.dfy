/** The alias index of the proto extractor: assignments `var alias = target` are
    followed to the symbol they finally stand for. */
module AliasIndex {

  // ----- the order of strings

  predicate Less(a: string, b: string) {
    b != "" && (a == "" || a[0] < b[0] || (a[0] == b[0] && Less(a[1..], b[1..])))
  }

  lemma {:induction false} LessTotal(a: string, b: string)
    ensures a == b || Less(a, b) || Less(b, a)
  {
    if a != "" && b != "" && a[0] == b[0] {
      LessTotal(a[1..], b[1..]);
      assert a == [a[0]] + a[1..] && b == [b[0]] + b[1..];
    }
  }

  lemma {:induction false} LessTransitive(a: string, b: string, c: string)
    requires Less(a, b) && Less(b, c)
    ensures Less(a, c)
  {
    if a != "" && a[0] == b[0] == c[0] {
      LessTransitive(a[1..], b[1..], c[1..]);
    }
  }

  lemma {:induction false} LessIrreflexive(a: string)
    ensures !Less(a, a)
  {
    if a != "" {
      LessIrreflexive(a[1..]);
    }
  }

  /** The order is that of dictionaries: a proper prefix comes first, and otherwise the
      first character in which the two differ decides. */
  lemma {:induction false} LessIff(a: string, b: string)
    ensures Less(a, b) <==> a < b || exists k: nat :: DiffersAt(a, b, k)
  {
    if a != "" && b != "" && a[0] == b[0] {
      LessIff(a[1..], b[1..]);
      assert a == [a[0]] + a[1..] && b == [b[0]] + b[1..];
      forall k: nat
        ensures DiffersAt(a[1..], b[1..], k) <==> DiffersAt(a, b, k + 1)
      {
        assert k < |a[1..]| && k < |b[1..]| ==> a[..k + 1] == [a[0]] + a[1..][..k] && b[..k + 1] == [b[0]] + b[1..][..k];
      }
      if k: nat :| DiffersAt(a, b, k) {
        assert k > 0;
        assert DiffersAt(a[1..], b[1..], k - 1);
      }
    } else if a != "" && b != "" {
      assert a[..0] == b[..0];
      assert a[0] < b[0] ==> DiffersAt(a, b, 0);
      AgreeFirst(a, b);
    }
  }

  lemma AgreeFirst(a: string, b: string)
    ensures forall k: nat :: k > 0 && DiffersAt(a, b, k) ==> a[0] == b[0]
  {
    forall k: nat | k > 0 && DiffersAt(a, b, k)
      ensures a[0] == b[0]
    {
      assert a[..k][0] == a[0] && b[..k][0] == b[0];
    }
  }

  /** The strings agree up to k, and there the first one has the smaller character. */
  predicate DiffersAt(a: string, b: string, k: nat) {
    k < |a| && k < |b| && a[..k] == b[..k] && a[k] < b[k]
  }

  /** Ascending, and therefore free of repetitions. */
  predicate Ascending(s: seq<string>) {
    forall i, j :: 0 <= i < j < |s| ==> Less(s[i], s[j])
  }

  predicate Contains(s: seq<string>, x: string) {
    x in s
  }

  function Insert(x: string, s: seq<string>): seq<string> {
    if s == [] then [x]
    else if Less(x, s[0]) then [x] + s
    else if x == s[0] then s
    else [s[0]] + Insert(x, s[1..])
  }

  lemma {:induction false} InsertKeepsAscending(x: string, s: seq<string>)
    requires Ascending(s)
    ensures Ascending(Insert(x, s))
    ensures forall y :: Contains(Insert(x, s), y) <==> y == x || Contains(s, y)
  {
    if s == [] {
    } else if Less(x, s[0]) {
      forall j | 0 <= j < |s|
        ensures Less(x, s[j])
      {
        if j > 0 {
          LessTransitive(x, s[0], s[j]);
        }
      }
      assert forall y :: y in [x] + s <==> y == x || y in s;
    } else if x != s[0] {
      LessTotal(x, s[0]);
      InsertKeepsAscending(x, s[1..]);
      var rest := Insert(x, s[1..]);
      assert s == [s[0]] + s[1..];
      forall j | 0 <= j < |rest|
        ensures Less(s[0], rest[j])
      {
        assert Contains(rest, rest[j]);
        if rest[j] != x {
          assert Contains(s[1..], rest[j]);
        }
      }
      assert forall y :: Contains([s[0]] + rest, y) <==> y == s[0] || Contains(rest, y);
      assert forall y :: Contains(s, y) <==> y == s[0] || Contains(s[1..], y);
    }
  }

  /** An ascending list is determined by its elements. */
  lemma {:induction false} AscendingIsUnique(a: seq<string>, b: seq<string>)
    requires Ascending(a) && Ascending(b) && forall x :: Contains(a, x) <==> Contains(b, x)
    ensures a == b
    decreases |a|
  {
    if a == [] {
      assert b != [] ==> Contains(b, b[0]);
    } else {
      assert Contains(a, a[0]) && Contains(b, a[0]);
      assert Contains(b, b[0]) && Contains(a, b[0]);
      FirstIsSame(a, b);
      SameTail(a, b);
      AscendingIsUnique(a[1..], b[1..]);
      assert a == [a[0]] + a[1..] && b == [b[0]] + b[1..];
    }
  }

  lemma FirstIsSame(a: seq<string>, b: seq<string>)
    requires Ascending(a) && Ascending(b) && a != [] && b != [] && a[0] in b && b[0] in a
    ensures a[0] == b[0]
  {
    if a[0] != b[0] {
      LessTransitive(a[0], b[0], a[0]);
      LessIrreflexive(a[0]);
    }
  }

  lemma SameTail(a: seq<string>, b: seq<string>)
    requires Ascending(a) && Ascending(b) && a != [] && b != [] && a[0] == b[0]
    requires forall x :: Contains(a, x) <==> Contains(b, x)
    ensures Ascending(a[1..]) && Ascending(b[1..]) && forall x :: Contains(a[1..], x) <==> Contains(b[1..], x)
  {
    LessIrreflexive(a[0]);
    assert forall x :: Contains(a[1..], x) <==> Contains(a, x) && x != a[0] by {
      assert a == [a[0]] + a[1..];
    }
    assert forall x :: Contains(b[1..], x) <==> Contains(b, x) && x != b[0] by {
      assert b == [b[0]] + b[1..];
    }
  }

  // ----- direct assignments

  type Direct = map<string, string>

  datatype Match = Match(alias: string, target: string)

  predicate Usable(m: Match) {
    m.alias != "" && m.target != "" && m.alias != m.target
  }

  /** Match i is the last usable one of its alias. */
  predicate Decides(matches: seq<Match>, i: nat, alias: string, target: string) {
    && i < |matches| && Usable(matches[i]) && matches[i] == Match(alias, target)
    && forall j :: i < j < |matches| ==> !(Usable(matches[j]) && matches[j].alias == alias)
  }

  /** The last usable assignment of each alias counts. */
  ghost predicate LastUsable(matches: seq<Match>, direct: Direct) {
    && (forall alias :: alias in direct ==> exists i: nat :: Decides(matches, i, alias, direct[alias]))
    && (forall i :: 0 <= i < |matches| && Usable(matches[i]) ==> matches[i].alias in direct)
  }

  /** An alias stands for the target of its last assignment between two different
      names. */
  lemma DirectMeans(matches: seq<Match>, direct: Direct, alias: string)
    requires LastUsable(matches, direct)
    ensures alias in direct <==>
              exists i :: 0 <= i < |matches| && matches[i].alias == alias && alias != "" && matches[i].target !in ["", alias]
    ensures alias in direct ==>
              exists i :: 0 <= i < |matches| && matches[i] == Match(alias, direct[alias]) && alias != "" && direct[alias] !in ["", alias]
                          && forall j :: i < j < |matches| && matches[j].alias == alias ==> matches[j].target in ["", alias]
  {
    if alias in direct {
      var i: nat :| Decides(matches, i, alias, direct[alias]);
    }
  }

  method BuildDirect(matches: seq<Match>) returns (direct: Direct)
    ensures LastUsable(matches, direct)
    ensures forall alias :: alias in direct ==> direct[alias] != ""
  {
    direct := map[];
    for n := 0 to |matches|
      invariant LastUsable(matches[..n], direct)
      invariant forall alias :: alias in direct ==> direct[alias] != ""
    {
      var m := matches[n];
      ghost var before := direct;
      if Usable(m) {
        direct := direct[m.alias := m.target];
      }
      ghost var seen := matches[..n + 1];
      forall alias | alias in direct
        ensures exists i: nat :: Decides(seen, i, alias, direct[alias])
      {
        if Usable(m) && alias == m.alias {
          assert Decides(seen, n, alias, direct[alias]);
        } else {
          var i: nat :| Decides(matches[..n], i, alias, before[alias]);
          assert Decides(seen, i, alias, direct[alias]);
        }
      }
    }
    assert matches[..|matches|] == matches;
  }

  // ----- following a chain

  /** The symbol reached after at most n assignments. */
  function Follow(direct: Direct, symbol: string, n: nat): string
    decreases n
  {
    if n == 0 || symbol !in direct then symbol else Follow(direct, direct[symbol], n - 1)
  }

  /** The chain of a symbol ends at this root, which stands for nothing else. */
  ghost predicate EndsAt(direct: Direct, symbol: string, root: string) {
    root !in direct && exists n: nat :: Follow(direct, symbol, n) == root
  }

  /** The chain of a symbol never ends: it is on a cycle or leads into one. */
  ghost predicate Cycles(direct: Direct, symbol: string) {
    forall n: nat :: Follow(direct, symbol, n) in direct
  }

  lemma {:induction false} FollowStep(direct: Direct, symbol: string, n: nat)
    ensures Follow(direct, symbol, n) in direct ==> Follow(direct, symbol, n + 1) == direct[Follow(direct, symbol, n)]
    ensures Follow(direct, symbol, n) !in direct ==> Follow(direct, symbol, n + 1) == Follow(direct, symbol, n)
    decreases n
  {
    if n > 0 && symbol in direct {
      FollowStep(direct, direct[symbol], n - 1);
    }
  }

  lemma {:induction false} FollowStays(direct: Direct, symbol: string, n: nat, m: nat)
    requires n <= m && Follow(direct, symbol, n) !in direct
    ensures Follow(direct, symbol, m) == Follow(direct, symbol, n)
    decreases m
  {
    if n < m {
      FollowStays(direct, symbol, n, m - 1);
      FollowStep(direct, symbol, m - 1);
    }
  }

  /** A chain has at most one end. */
  lemma RootIsUnique(direct: Direct, symbol: string, r: string, q: string)
    requires EndsAt(direct, symbol, r) && EndsAt(direct, symbol, q)
    ensures r == q
  {
    var n: nat :| Follow(direct, symbol, n) == r;
    var m: nat :| Follow(direct, symbol, m) == q;
    if n <= m {
      FollowStays(direct, symbol, n, m);
    } else {
      FollowStays(direct, symbol, m, n);
    }
  }

  predicate Closed(direct: Direct, s: set<string>) {
    forall x :: x in s ==> x in direct && direct[x] in s
  }

  lemma {:induction false} ClosedNeverEnds(direct: Direct, s: set<string>, symbol: string, n: nat)
    requires Closed(direct, s) && symbol in s
    ensures Follow(direct, symbol, n) in s
    decreases n
  {
    if n > 0 {
      ClosedNeverEnds(direct, s, direct[symbol], n - 1);
    }
  }

  lemma ClosedCycles(direct: Direct, s: set<string>, symbol: string)
    requires Closed(direct, s) && symbol in s
    ensures Cycles(direct, symbol)
  {
    forall n: nat
      ensures Follow(direct, symbol, n) in direct
    {
      ClosedNeverEnds(direct, s, symbol, n);
    }
  }

  /** Where a walk stands: after so many turns it is at this symbol, and the symbols
      it has seen lead to one another or to this one. */
  ghost predicate Walked(direct: Direct, symbol: string, seen: set<string>, current: string, turns: nat) {
    && current == Follow(direct, symbol, turns)
    && seen <= direct.Keys
    && (forall x :: x in seen ==> direct[x] in seen || direct[x] == current)
    && (symbol in seen || (current == symbol && seen == {}))
  }

  lemma WalkOn(direct: Direct, symbol: string, seen: set<string>, current: string, turns: nat)
    requires Walked(direct, symbol, seen, current, turns) && current !in seen && current in direct
    ensures Walked(direct, symbol, seen + {current}, direct[current], turns + 1)
    ensures |direct.Keys - (seen + {current})| < |direct.Keys - seen|
  {
    FollowStep(direct, symbol, turns);
    assert direct.Keys - (seen + {current}) < direct.Keys - seen;
    SmallerSet(direct.Keys - (seen + {current}), direct.Keys - seen);
  }

  /** The walk stops because each turn meets a new symbol. It returns the end of
      the chain, or the symbol itself when the chain never ends. */
  method ResolveRoot(direct: Direct, symbol: string) returns (root: string)
    requires forall alias :: alias in direct ==> direct[alias] != ""
    ensures EndsAt(direct, symbol, root) || (root == symbol && Cycles(direct, symbol))
  {
    var seen: set<string> := {};
    var current := symbol;
    ghost var turns: nat := 0;
    while true
      invariant Walked(direct, symbol, seen, current, turns)
      decreases |direct.Keys - seen|
    {
      if current in seen {
        ClosedCycles(direct, seen, symbol);
        return symbol;
      }
      var next := if current in direct then direct[current] else "";
      if next == "" {
        return current;
      }
      WalkOn(direct, symbol, seen, current, turns);
      seen := seen + {current};
      current := next;
      turns := turns + 1;
    }
  }

  lemma SmallerSet(a: set<string>, b: set<string>)
    requires a < b
    ensures |a| < |b|
  {
    assert b == a + (b - a);
    assert |b| == |a| + |b - a|;
    assert b - a != {};
  }

  // ----- the index

  type Index = map<string, seq<string>>

  /** Exactly the aliases whose chain ends at a root are listed under it, in
      ascending order; a root without aliases has no list. */
  ghost predicate Indexes(direct: Direct, index: Index, done: set<string>) {
    && (forall root :: root in index ==> Ascending(index[root]) && index[root] != [])
    && (forall root, alias :: Filed(index, root, alias) <==> alias in done && alias in direct && EndsAt(direct, alias, root))
  }

  predicate Filed(index: Index, root: string, alias: string) {
    root in index && Contains(index[root], alias)
  }

  method BuildAliasIndex(direct: Direct) returns (index: Index)
    requires forall alias :: alias in direct ==> direct[alias] != ""
    ensures Indexes(direct, index, direct.Keys)
  {
    index := map[];
    var todo := direct.Keys;
    while todo != {}
      invariant todo <= direct.Keys
      invariant Indexes(direct, index, direct.Keys - todo)
      decreases |todo|
    {
      var alias :| alias in todo;
      var root := ResolveRoot(direct, alias);
      ghost var before := index;
      if root != alias {
        var list := if root in index then index[root] else [];
        InsertKeepsAscending(alias, list);
        index := index[root := Insert(alias, list)];
      }
      FileOne(direct, before, index, direct.Keys - todo, alias, root);
      assert direct.Keys - (todo - {alias}) == (direct.Keys - todo) + {alias};
      todo := todo - {alias};
    }
    assert direct.Keys - {} == direct.Keys;
  }

  lemma FileOne(direct: Direct, before: Index, after: Index, done: set<string>, alias: string, root: string)
    requires Indexes(direct, before, done) && alias in direct && alias !in done
    requires EndsAt(direct, alias, root) || (root == alias && Cycles(direct, alias))
    requires if root == alias then after == before
             else after == before[root := Insert(alias, if root in before then before[root] else [])]
    ensures Indexes(direct, after, done + {alias})
  {
    if root != alias {
      var list := if root in before then before[root] else [];
      InsertKeepsAscending(alias, list);
      assert Contains(Insert(alias, list), alias);
    }
    forall r, a
      ensures Filed(after, r, a) <==> a in done + {alias} && a in direct && EndsAt(direct, a, r)
    {
      assert Filed(before, r, a) <==> a in done && a in direct && EndsAt(direct, a, r);
      if a == alias && EndsAt(direct, a, r) {
        var n: nat :| Follow(direct, a, n) == r;
        if root != alias {
          RootIsUnique(direct, alias, r, root);
        }
      }
    }
  }

  /** Each alias is filed at most once, and one whose chain never ends nowhere. */
  lemma FiledAtMostOnce(direct: Direct, index: Index, alias: string, r: string, q: string)
    requires Indexes(direct, index, direct.Keys) && Filed(index, r, alias)
    ensures Filed(index, q, alias) ==> r == q
    ensures forall i, j :: 0 <= i < j < |index[r]| ==> index[r][i] != index[r][j]
    ensures !Cycles(direct, alias)
  {
    var n: nat :| Follow(direct, alias, n) == r;
    if Filed(index, q, alias) {
      RootIsUnique(direct, alias, r, q);
    }
    forall i, j | 0 <= i < j < |index[r]|
      ensures index[r][i] != index[r][j]
    {
      LessIrreflexive(index[r][i]);
    }
  }

  /** The index does not depend on the order in which the aliases are visited. */
  lemma IndexIsUnique(direct: Direct, a: Index, b: Index)
    requires Indexes(direct, a, direct.Keys) && Indexes(direct, b, direct.Keys)
    ensures a == b
  {
    forall root | root in a
      ensures root in b && a[root] == b[root]
    {
      SameList(direct, a, b, root);
    }
    forall root | root in b
      ensures root in a
    {
      SameList(direct, b, a, root);
    }
  }

  lemma SameList(direct: Direct, a: Index, b: Index, root: string)
    requires Indexes(direct, a, direct.Keys) && Indexes(direct, b, direct.Keys) && root in a
    ensures root in b && a[root] == b[root]
  {
    assert Contains(a[root], a[root][0]);
    assert Filed(a, root, a[root][0]) && Filed(b, root, a[root][0]);
    forall x
      ensures Contains(a[root], x) <==> Contains(b[root], x)
    {
      assert Filed(a, root, x) <==> Filed(b, root, x);
    }
    AscendingIsUnique(a[root], b[root]);
  }
}
