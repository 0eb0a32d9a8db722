/** Which cycle the simple-path search meets first (dis86/src/decompile/control_flow.rs, infer_loop). */
module FirstCycle {
  import opened Wrappers
  import opened ControlFlow
  import opened Dfs

  lemma PathGrows(g: Graph, p: seq<ElemId>, i: nat)
    requires g.Ok() && g.SimplePath(p) && i < g.Deg(g.Last(p)) && g.Open(g.Target(g.Last(p), i)) && g.Target(g.Last(p), i) !in p
    ensures g.SimplePath(p + [g.Target(g.Last(p), i)])
  {
    var q := p + [g.Target(g.Last(p), i)];
    forall k | 0 < k < |q|
      ensures g.Entered(q, k)
    {
      if k < |p| {
        assert g.Entered(p, k);
      } else {
        assert q[k - 1] == g.Last(p);
      }
    }
  }

  ghost function Unvisited(g: Graph, p: seq<ElemId>): set<ElemId> {
    set x | x in g.body.elems && x !in p
  }

  /** The target of the first cycle that the search meets from exit `i` of the path `p` on, depth first. */
  ghost function FirstFrom(g: Graph, p: seq<ElemId>, i: nat): Option<ElemId>
    requires g.Ok() && g.SimplePath(p) && i <= g.Deg(g.Last(p))
    decreases Unvisited(g, p), g.Deg(g.Last(p)) - i
  {
    if i == g.Deg(g.Last(p)) then None
    else
      var t := g.Target(g.Last(p), i);
      if !g.Open(t) then FirstFrom(g, p, i + 1)
      else if t in p then Some(t)
      else
        PathGrows(g, p, i);
        assert t in Unvisited(g, p) && t !in Unvisited(g, p + [t]);
        var inner := FirstFrom(g, p + [t], 0);
        if inner.Some? then inner else FirstFrom(g, p, i + 1)
  }

  /** What the lowest `n` positions of the search's path still hold in store. */
  ghost function Rest(g: Graph, path: seq<ElemId>, idx: seq<nat>, n: nat): Option<ElemId>
    requires g.Ok() && |idx| == |path| && n <= |path| && (path != [] ==> g.SimplePath(path))
    requires forall j :: 0 <= j < n ==> idx[j] <= g.Deg(path[j])
  {
    if n == 0 then None
    else
      PathPrefix(g, path, n);
      var r := FirstFrom(g, path[..n], idx[n - 1]);
      if r.Some? then r else Rest(g, path, idx, n - 1)
  }

  lemma {:induction false} RestSame(g: Graph, path: seq<ElemId>, idx: seq<nat>, path': seq<ElemId>, idx': seq<nat>, n: nat)
    requires g.Ok() && |idx| == |path| && n <= |path| && (path != [] ==> g.SimplePath(path))
    requires |idx'| == |path'| && n <= |path'| && (path' != [] ==> g.SimplePath(path'))
    requires path[..n] == path'[..n] && idx[..n] == idx'[..n]
    requires forall j :: 0 <= j < n ==> idx[j] <= g.Deg(path[j])
    ensures forall j :: 0 <= j < n ==> idx'[j] <= g.Deg(path'[j])
    ensures Rest(g, path, idx, n) == Rest(g, path', idx', n)
  {
    forall j | 0 <= j < n
      ensures path[j] == path'[j] && idx[j] == idx'[j]
    {
      assert path[..n][j] == path'[..n][j] && idx[..n][j] == idx'[..n][j];
    }
    if n > 0 {
      assert path[..n - 1] == path[..n][..n - 1] && idx[..n - 1] == idx[..n][..n - 1];
      assert path'[..n - 1] == path'[..n][..n - 1] && idx'[..n - 1] == idx'[..n][..n - 1];
      RestSame(g, path, idx, path', idx', n - 1);
    }
  }

  /** A stack of positions that the search may be at. */
  ghost predicate StackOk(g: Graph, path: seq<ElemId>, idx: seq<nat>) {
    && g.Ok() && |idx| == |path| && (path != [] ==> g.SimplePath(path))
    && forall j :: 0 <= j < |path| ==> idx[j] <= g.Deg(path[j])
  }

  lemma RestPop(g: Graph, path: seq<ElemId>, idx: seq<nat>, n: nat)
    requires StackOk(g, path, idx) && |path| == n + 1 && idx[n] == g.Deg(g.Last(path))
    requires StackOk(g, path[..n], idx[..n])
    ensures Rest(g, path[..n], idx[..n], n) == Rest(g, path, idx, n + 1)
  {
    assert path[..n + 1] == path;
    RestSame(g, path, idx, path[..n], idx[..n], n);
  }

  /** The exit under way is not one to enter. */
  lemma RestSkip(g: Graph, path: seq<ElemId>, idx: seq<nat>, n: nat)
    requires StackOk(g, path, idx) && |path| == n + 1 && idx[n] < g.Deg(g.Last(path))
    requires !g.Open(g.Target(g.Last(path), idx[n]))
    ensures StackOk(g, path, idx[n := idx[n] + 1]) && Rest(g, path, idx[n := idx[n] + 1], n + 1) == Rest(g, path, idx, n + 1)
  {
    assert path[..n + 1] == path;
    RestSame(g, path, idx, path, idx[n := idx[n] + 1], n);
  }

  lemma PushedIsOk(g: Graph, path: seq<ElemId>, idx: seq<nat>, n: nat, t: ElemId)
    requires StackOk(g, path, idx) && |path| == n + 1 && idx[n] < g.Deg(g.Last(path))
    requires g.Target(g.Last(path), idx[n]) == t && g.Open(t) && t !in path
    ensures StackOk(g, path + [t], idx[n := idx[n] + 1] + [0])
  {
    PathGrows(g, path, idx[n]);
  }

  lemma RestPush(g: Graph, path: seq<ElemId>, idx: seq<nat>, n: nat, t: ElemId)
    requires StackOk(g, path, idx) && |path| == n + 1 && idx[n] < g.Deg(g.Last(path))
    requires g.Target(g.Last(path), idx[n]) == t && g.Open(t) && t !in path
    ensures StackOk(g, path + [t], idx[n := idx[n] + 1] + [0])
    ensures Rest(g, path + [t], idx[n := idx[n] + 1] + [0], n + 2) == Rest(g, path, idx, n + 1)
  {
    PushedIsOk(g, path, idx, n, t);
    assert path[..n + 1] == path && (path + [t])[..n + 1] == path && (path + [t])[..n + 2] == path + [t];
    RestSame(g, path, idx, path + [t], idx[n := idx[n] + 1] + [0], n);
  }

  /** The first cycle still ahead of a search. */
  ghost function Ahead(s: Search): Option<ElemId>
    requires StackOk(s.g, s.path, s.exitIdx)
  {
    Rest(s.g, s.path, s.exitIdx, |s.path|)
  }

  /** A look that finds no cycle leaves the first one ahead; one that does finds that one. */
  lemma LookKeepsAhead(a: Search)
    requires a.Shape() && a.pending == None && a.path != [] && StackOk(a.g, a.path, a.exitIdx)
    requires a.Looked().Shape() && StackOk(a.g, a.Looked().Applied().path, a.Looked().Applied().exitIdx)
    ensures a.Looked().Applied().g == a.g
    ensures var n := |a.path| - 1;
      if a.exitIdx[n] < a.g.Deg(a.g.Last(a.path)) && a.g.Open(a.g.Target(a.g.Last(a.path), a.exitIdx[n])) && a.g.Target(a.g.Last(a.path), a.exitIdx[n]) in a.path
      then Ahead(a) == Some(a.g.Target(a.g.Last(a.path), a.exitIdx[n]))
      else Ahead(a.Looked().Applied()) == Ahead(a)
  {
    var n := |a.path| - 1;
    var i, b := a.exitIdx[n], a.Looked().Applied();
    assert a.path[..n + 1] == a.path;
    if i == a.g.Deg(a.g.Last(a.path)) {
      assert b.path == a.path[..n] && b.exitIdx == a.exitIdx[..n];
      RestPop(a.g, a.path, a.exitIdx, n);
    } else {
      var t := a.g.Target(a.g.Last(a.path), i);
      if !a.g.Open(t) {
        RestSkip(a.g, a.path, a.exitIdx, n);
      } else if t !in a.path {
        RestPush(a.g, a.path, a.exitIdx, n, t);
      }
    }
  }

  lemma StackOfSearch(s: Search)
    requires s.Valid()
    ensures s.Applied().Valid() && s.Applied().pending == None && StackOk(s.g, s.Applied().path, s.Applied().exitIdx)
    ensures s.Applied().g == s.g
  {
    AppliedKeepsValid(s);
  }

  ghost function FirstAhead(s: Search): Option<ElemId>
    requires s.Valid()
  {
    StackOfSearch(s);
    Ahead(s.Applied())
  }

  lemma LookedAhead(s: Search)
    requires s.Valid() && s.Applied().Shape() && AfterNext(s).Valid() && s.Applied().path != []
    ensures NextAction(s).Cycle? ==> FirstAhead(s) == Some(NextAction(s).to)
    ensures !NextAction(s).Cycle? ==> FirstAhead(AfterNext(s)) == FirstAhead(s)
  {
    StackOfSearch(s);
    StackOfSearch(AfterNext(s));
    LookKeepsAhead(s.Applied());
  }

  /** Until a cycle is reported the first one is still ahead, and then it is the one reported. */
  lemma NextKeepsAhead(s: Search)
    requires s.Valid() && s.Applied().Shape() && AfterNext(s).Valid()
    ensures NextAction(s) == Done ==> FirstAhead(s) == None
    ensures NextAction(s).Cycle? ==> FirstAhead(s) == Some(NextAction(s).to)
    ensures NextAction(s) != Done && !NextAction(s).Cycle? ==> FirstAhead(AfterNext(s)) == FirstAhead(s)
  {
    StackOfSearch(s);
    if s.Applied().path != [] {
      LookedAhead(s);
    }
  }

  lemma AheadAtStart(s: Search)
    requires s.Valid() && s.path == [s.entry] && s.exitIdx == [0] && s.pending == None
    ensures FirstAhead(s) == FirstFrom(s.g, [s.entry], 0)
  {
    assert s.path[..1] == s.path && Rest(s.g, s.path, s.exitIdx, 0) == None;
    assert Ahead(s) == Rest(s.g, s.path, s.exitIdx, 1);
  }
}
