/** `descendents`: every class below a given one, nearest first. */
module Descendents {
  import opened Sequences

  type Class = nat

  /** `subclasses[c]` is `c.__subclasses__()`, in order. */
  type Hierarchy = map<Class, seq<Class>>

  ghost predicate Closed(h: Hierarchy) {
    forall c, k :: c in h && 0 <= k < |h[c]| ==> h[c][k] in h
  }

  ghost predicate Child(h: Hierarchy, c: Class, d: Class) {
    c in h && d in h[c]
  }

  /** `path` leads down from `c` to `d`. */
  ghost predicate Path(h: Hierarchy, c: Class, d: Class, path: seq<Class>) {
    && path != [] && path[0] == c && path[|path| - 1] == d
    && forall i :: 0 <= i < |path| - 1 ==> Child(h, path[i], path[i + 1])
  }

  /** `n` is the length of a shortest way down from `c` to `d`. */
  ghost predicate Distance(h: Hierarchy, c: Class, d: Class, n: nat) {
    && (exists path :: Path(h, c, d, path) && |path| == n + 1)
    && (forall path :: Path(h, c, d, path) ==> |path| >= n + 1)
  }

  // ----- The search ------------------------------------------------------------------------------

  /** The classes in the order they are found, each with its level; the first `k` of them have been taken off
      the queue. */
  datatype Search = Search(found: seq<Class>, level: seq<nat>)

  ghost predicate LevelsOk(h: Hierarchy, root: Class, s: Search) {
    && s.found != [] && |s.level| == |s.found| && s.found[0] == root && s.level[0] == 0
    && NoDuplicates(s.found)
    && (forall i :: 0 <= i < |s.found| ==> s.found[i] in h)
    && (forall i, j :: 0 <= i < j < |s.found| ==> s.level[i] <= s.level[j])
    && (forall i :: 0 <= i < |s.found| ==> exists path :: Path(h, root, s.found[i], path) && |path| == s.level[i] + 1)
  }

  /** Child `j` of the `i`-th class has been found, at most one level below it. */
  ghost predicate ChildFound(h: Hierarchy, s: Search, i: nat, j: nat)
    requires i < |s.found| == |s.level| && s.found[i] in h && j < |h[s.found[i]]|
  {
    exists c :: 0 <= c < |s.found| && s.found[c] == h[s.found[i]][j] && s.level[c] <= s.level[i] + 1
  }

  ghost predicate Expanded(h: Hierarchy, s: Search, k: nat)
    requires k <= |s.found| == |s.level| && (forall i :: 0 <= i < |s.found| ==> s.found[i] in h)
  {
    forall i, j :: 0 <= i < k && 0 <= j < |h[s.found[i]]| ==> ChildFound(h, s, i, j)
  }

  ghost predicate PartlyExpanded(h: Hierarchy, s: Search, k: nat, n: nat)
    requires k < |s.found| == |s.level| && (forall i :: 0 <= i < |s.found| ==> s.found[i] in h)
    requires n <= |h[s.found[k]]|
  {
    forall j :: 0 <= j < n ==> ChildFound(h, s, k, j)
  }

  /** Everything found so far is at most one level below the class at the head of the queue. */
  ghost predicate HeadLevel(s: Search, k: nat)
    requires |s.found| == |s.level|
  {
    k < |s.found| ==> forall j :: 0 <= j < |s.found| ==> s.level[j] <= s.level[k] + 1
  }

  lemma OneMoreLevel(h: Hierarchy, root: Class, s: Search, k: nat, b: Class) returns (s': Search)
    requires LevelsOk(h, root, s) && k < |s.found| && HeadLevel(s, k)
    requires Child(h, s.found[k], b) && b in h && b !in s.found
    ensures s' == Search(s.found + [b], s.level + [s.level[k] + 1])
    ensures LevelsOk(h, root, s') && HeadLevel(s', k)
  {
    s' := Search(s.found + [b], s.level + [s.level[k] + 1]);
    var path :| Path(h, root, s.found[k], path) && |path| == s.level[k] + 1;
    assert Path(h, root, b, path + [b]);
    forall i | 0 <= i < |s'.found|
      ensures exists p :: Path(h, root, s'.found[i], p) && |p| == s'.level[i] + 1
    {
      if i < |s.found| {
        var p :| Path(h, root, s.found[i], p) && |p| == s.level[i] + 1;
        assert s'.found[i] == s.found[i] && s'.level[i] == s.level[i];
      } else {
        assert |path + [b]| == s'.level[i] + 1;
      }
    }
  }

  lemma FindOneMore(h: Hierarchy, root: Class, s: Search, k: nat, n: nat) returns (s': Search)
    requires Closed(h) && LevelsOk(h, root, s) && k < |s.found| && HeadLevel(s, k)
    requires n < |h[s.found[k]]| && h[s.found[k]][n] !in s.found
    requires Expanded(h, s, k) && PartlyExpanded(h, s, k, n)
    ensures s' == Search(s.found + [h[s.found[k]][n]], s.level + [s.level[k] + 1])
    ensures LevelsOk(h, root, s') && HeadLevel(s', k) && Expanded(h, s', k) && PartlyExpanded(h, s', k, n + 1)
  {
    var b := h[s.found[k]][n];
    s' := OneMoreLevel(h, root, s, k, b);
    MoreFound(h, s, s', k, n);
    assert s'.found[|s.found|] == b && s'.level[|s.found|] == s'.level[k] + 1;
    assert ChildFound(h, s', k, n);
  }

  lemma MoreFound(h: Hierarchy, s: Search, s': Search, k: nat, n: nat)
    requires |s.level| == |s.found| < |s'.found| == |s'.level| && k < |s.found|
    requires s'.found[..|s.found|] == s.found && s'.level[..|s.found|] == s.level
    requires forall i :: 0 <= i < |s'.found| ==> s'.found[i] in h
    requires forall i :: 0 <= i < |s.found| ==> s.found[i] in h
    requires n <= |h[s.found[k]]| && Expanded(h, s, k) && PartlyExpanded(h, s, k, n)
    ensures s'.found[k] == s.found[k] && Expanded(h, s', k) && PartlyExpanded(h, s', k, n)
  {
    assert forall i :: 0 <= i < |s.found| ==> s'.found[i] == s.found[i] && s'.level[i] == s.level[i];
    forall i, j | 0 <= i <= k && 0 <= j < |h[s.found[i]]| && ChildFound(h, s, i, j)
      ensures ChildFound(h, s', i, j)
    {
      var c :| 0 <= c < |s.found| && s.found[c] == h[s.found[i]][j] && s.level[c] <= s.level[i] + 1;
      assert s'.found[c] == s.found[c];
    }
  }

  /** A way down of any length ends on a level no deeper than that length. */
  lemma {:induction false} LevelBounds(h: Hierarchy, root: Class, s: Search, d: Class, path: seq<Class>)
    returns (c: nat)
    requires LevelsOk(h, root, s) && Expanded(h, s, |s.found|) && Path(h, root, d, path)
    ensures c < |s.found| && s.found[c] == d && s.level[c] + 1 <= |path|
    decreases |path|
  {
    if |path| == 1 {
      c := 0;
    } else {
      var init := path[..|path| - 1];
      assert Path(h, root, init[|init| - 1], init);
      var p := LevelBounds(h, root, s, init[|init| - 1], init);
      assert Child(h, path[|path| - 2], path[|path| - 1]);
      var j :| 0 <= j < |h[s.found[p]]| && h[s.found[p]][j] == d;
      assert ChildFound(h, s, p, j);
      c :| 0 <= c < |s.found| && s.found[c] == h[s.found[p]][j] && s.level[c] <= s.level[p] + 1;
    }
  }

  lemma {:induction false} FitsIn(s: seq<Class>, all: set<Class>)
    requires NoDuplicates(s) && forall c :: c in s ==> c in all
    ensures |s| <= |all|
  {
    if s != [] {
      var rest := s[..|s| - 1];
      assert forall c :: c in rest ==> c in all && c != s[|s| - 1];
      FitsIn(rest, all - {s[|s| - 1]});
    }
  }

  lemma FoundFits(h: Hierarchy, root: Class, s: Search)
    requires LevelsOk(h, root, s)
    ensures |s.found| <= |h.Keys|
  {
    FitsIn(s.found, h.Keys);
  }

  lemma LevelsAreDistances(h: Hierarchy, root: Class, s: Search, i: nat)
    requires LevelsOk(h, root, s) && Expanded(h, s, |s.found|) && i < |s.found|
    ensures Distance(h, root, s.found[i], s.level[i])
  {
    forall path | Path(h, root, s.found[i], path) ensures |path| >= s.level[i] + 1 {
      var c := LevelBounds(h, root, s, s.found[i], path);
    }
  }

  lemma FinishedSearch(h: Hierarchy, root: Class, s: Search)
    requires LevelsOk(h, root, s) && Expanded(h, s, |s.found|)
    ensures forall d :: d in s.found <==> exists path :: Path(h, root, d, path)
    ensures NearestFirst(h, root, s.found)
  {
    forall d ensures d in s.found <==> exists path :: Path(h, root, d, path) {
      if d in s.found {
        var i :| 0 <= i < |s.found| && s.found[i] == d;
        assert exists path :: Path(h, root, s.found[i], path) && |path| == s.level[i] + 1;
      }
      if path :| Path(h, root, d, path) {
        var c := LevelBounds(h, root, s, d, path);
      }
    }
    forall i, j, n, m | 0 <= i < j < |s.found| && Distance(h, root, s.found[i], n) && Distance(h, root, s.found[j], m)
      ensures n <= m
    {
      LevelsAreDistances(h, root, s, i);
      LevelsAreDistances(h, root, s, j);
      OneDistance(h, root, s.found[i], n, s.level[i]);
      OneDistance(h, root, s.found[j], m, s.level[j]);
    }
  }

  lemma OneDistance(h: Hierarchy, c: Class, d: Class, n: nat, m: nat)
    requires Distance(h, c, d, n) && Distance(h, c, d, m)
    ensures n == m
  {
  }

  ghost predicate NearestFirst(h: Hierarchy, root: Class, r: seq<Class>) {
    forall i, j, n, m :: 0 <= i < j < |r| && Distance(h, root, r[i], n) && Distance(h, root, r[j], m) ==> n <= m
  }

  /** Every class that can be reached, once, in the order of the shortest way down to it. */
  method Descend(h: Hierarchy, root: Class) returns (r: seq<Class>)
    requires Closed(h) && root in h
    ensures r != [] && r[0] == root && NoDuplicates(r)
    ensures forall d :: d in r <==> exists path :: Path(h, root, d, path)
    ensures NearestFirst(h, root, r)
  {
    var q: seq<Class> := [root];
    var out: seq<Class> := [];
    ghost var s := StartingSearch(h, root);
    ghost var k := 0;
    while |q| > 0
      invariant LevelsOk(h, root, s) && k <= |s.found| && HeadLevel(s, k) && Expanded(h, s, k)
      invariant q == s.found[k..] && out == Reversed(s.found[..k])
      decreases |h.Keys| - k
    {
      FoundFits(h, root, s);
      var x := q[0];
      q := q[1..];
      TakeOne(s.found, k);
      out := [x] + out;
      q, s := AppendNew(h, root, x, q, out, s, k);
      k := k + 1;
    }
    r := Reversed(out);
    ResultIsOrdered(h, root, s, k, r);
  }

  lemma ResultIsOrdered(h: Hierarchy, root: Class, s: Search, k: nat, r: seq<Class>)
    requires LevelsOk(h, root, s) && k <= |s.found| && Expanded(h, s, k) && s.found[k..] == []
    requires r == Reversed(Reversed(s.found[..k]))
    ensures r != [] && r[0] == root && NoDuplicates(r)
    ensures forall d :: d in r <==> exists path :: Path(h, root, d, path)
    ensures NearestFirst(h, root, r)
  {
    FinishedSearch(h, root, s);
    assert r == s.found;
  }

  lemma StartingSearch(h: Hierarchy, root: Class) returns (s: Search)
    requires root in h
    ensures s == Search([root], [0]) && LevelsOk(h, root, s) && HeadLevel(s, 0) && Expanded(h, s, 0)
  {
    s := Search([root], [0]);
    assert Path(h, root, root, [root]);
    assert |[root]| == s.level[0] + 1;
  }

  lemma TakeOne(s: seq<Class>, k: nat)
    requires k < |s|
    ensures s[k..] == [s[k]] + s[k + 1..] && Reversed(s[..k + 1]) == [s[k]] + Reversed(s[..k])
  {
  }

  lemma AlreadyFound(h: Hierarchy, root: Class, s: Search, k: nat, n: nat)
    requires LevelsOk(h, root, s) && k < |s.found| && HeadLevel(s, k)
    requires n < |h[s.found[k]]| && h[s.found[k]][n] in s.found && PartlyExpanded(h, s, k, n)
    ensures PartlyExpanded(h, s, k, n + 1)
  {
    var c :| 0 <= c < |s.found| && s.found[c] == h[s.found[k]][n];
    assert ChildFound(h, s, k, n);
  }

  lemma HeadDone(h: Hierarchy, root: Class, s: Search, k: nat)
    requires LevelsOk(h, root, s) && k < |s.found| && HeadLevel(s, k)
    requires Expanded(h, s, k) && PartlyExpanded(h, s, k, |h[s.found[k]]|)
    ensures HeadLevel(s, k + 1) && Expanded(h, s, k + 1)
  {
  }

  /** What the queue and the result are when `k + 1` classes have been taken. */
  ghost predicate Taken(s: Search, k: nat, q: seq<Class>, out: seq<Class>) {
    k < |s.found| && q == s.found[k + 1..] && out == Reversed(s.found[..k + 1])
  }

  lemma TakenGrows(s: Search, s': Search, k: nat, q: seq<Class>, out: seq<Class>, b: Class)
    requires Taken(s, k, q, out) && s'.found == s.found + [b]
    ensures Taken(s', k, q + [b], out)
  {
    assert s'.found[k + 1..] == s.found[k + 1..] + [b];
    assert s'.found[..k + 1] == s.found[..k + 1];
  }

  /** The queue after its loop has seen `subclasses`. */
  function WithNew(queue: seq<Class>, out: seq<Class>, subclasses: seq<Class>): (q: seq<Class>) {
    if subclasses == [] then
      queue
    else
      var q := WithNew(queue, out, subclasses[..|subclasses| - 1]);
      var b := subclasses[|subclasses| - 1];
      if b in q || b in out then q else q + [b]
  }

  /** The queue keeps its classes in front and gains, once each, exactly the subclasses neither queued nor taken. */
  lemma {:induction false} NewAreQueued(queue: seq<Class>, out: seq<Class>, subclasses: seq<Class>)
    ensures queue <= WithNew(queue, out, subclasses)
    ensures forall c :: c in WithNew(queue, out, subclasses) <==> c in queue || (c in subclasses && c !in out)
    ensures NoDuplicates(queue) ==> NoDuplicates(WithNew(queue, out, subclasses))
  {
    if subclasses != [] {
      var n := |subclasses| - 1;
      NewAreQueued(queue, out, subclasses[..n]);
      assert subclasses == subclasses[..n] + [subclasses[n]];
    }
  }

  /** The loop over the subclasses of `x`. */
  method AppendNew(h: Hierarchy, root: Class, x: Class, queue: seq<Class>, out: seq<Class>, ghost search: Search,
                   ghost k: nat)
    returns (q: seq<Class>, ghost s: Search)
    requires Closed(h) && LevelsOk(h, root, search) && k < |search.found| && search.found[k] == x
    requires HeadLevel(search, k) && Expanded(h, search, k)
    requires Taken(search, k, queue, out)
    ensures q == WithNew(queue, out, h[x])
    ensures LevelsOk(h, root, s) && Taken(s, k, q, out) && HeadLevel(s, k + 1) && Expanded(h, s, k + 1)
  {
    q, s := queue, search;
    var i := 0;
    while i < |h[x]|
      invariant LevelsOk(h, root, s) && Taken(s, k, q, out) && HeadLevel(s, k) && s.found[k] == x && i <= |h[x]|
      invariant Expanded(h, s, k) && PartlyExpanded(h, s, k, i)
      invariant q == WithNew(queue, out, h[x][..i])
    {
      assert h[x][..i + 1][..i] == h[x][..i];
      var b := h[x][i];
      Split(s.found, k + 1, b);
      if b !in q && b !in out {
        ghost var more := FindOneMore(h, root, s, k, i);
        TakenGrows(s, more, k, q, out, b);
        q, s := q + [b], more;
      } else {
        AlreadyFound(h, root, s, k, i);
      }
      i := i + 1;
    }
    assert h[x][..i] == h[x];
    HeadDone(h, root, s, k);
  }

  lemma Split(s: seq<Class>, k: nat, c: Class)
    requires k <= |s|
    ensures c in s <==> c in s[k..] || c in Reversed(s[..k])
  {
    if c in s[..k] {
      var i :| 0 <= i < k && s[..k][i] == c;
      assert Reversed(s[..k])[k - 1 - i] == c;
    }
    assert s == s[..k] + s[k..];
  }
}
