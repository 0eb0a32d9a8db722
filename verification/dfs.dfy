/** The hand-written depth-first search over simple paths
    (dis86/src/decompile/control_flow.rs, struct DFS). */
module Dfs {
  import opened Wrappers
  import opened ControlFlow

  /** What the search walks: one body, its arena, and the nodes it must not enter. */
  datatype Graph = Graph(body: Body, exclude: set<ElemId>, data: Arena) {
    ghost predicate Ok() {
      forall x :: x in body.elems ==> Present(data, x)
    }

    ghost function Deg(x: ElemId): nat
      requires Present(data, x)
    {
      |data[x].value.exits|
    }

    ghost function Target(x: ElemId, i: nat): ElemId
      requires Present(data, x) && i < Deg(x)
    {
      body.Remap(data[x].value.exits[i])
    }

    ghost predicate Open(t: ElemId) {
      t in body.elems && t !in exclude
    }

    ghost predicate Edge(x: ElemId, t: ElemId)
      requires Present(data, x)
    {
      exists i :: 0 <= i < Deg(x) && Target(x, i) == t
    }

    /** Node `k` of a path is open and follows the node before it. */
    ghost predicate Entered(p: seq<ElemId>, k: nat)
      requires 0 < k < |p| && Present(data, p[k - 1])
    {
      Open(p[k]) && Edge(p[k - 1], p[k])
    }

    /** A path of distinct nodes that only enters open members of the body. */
    ghost predicate SimplePath(p: seq<ElemId>) {
      && p != []
      && Distinct(p)
      && (forall k :: 0 <= k < |p| ==> Present(data, p[k]))
      && (forall k :: 0 < k < |p| ==> Entered(p, k))
    }

    ghost function Last(p: seq<ElemId>): ElemId
      requires p != []
    {
      p[|p| - 1]
    }

    ghost predicate Step(w: (seq<ElemId>, nat)) {
      SimplePath(w.0) && w.1 < Deg(Last(w.0))
    }

    /** Every exit of every simple path that extends `p` is in `done`. */
    ghost predicate Covered(done: set<(seq<ElemId>, nat)>, p: seq<ElemId>) {
      forall w: seq<ElemId>, i: nat :: Step((w, i)) && p <= w ==> (w, i) in done
    }
  }

  datatype DFSAction =
    | Cycle(from: ElemId, to: ElemId)
    | Next(to: ElemId)
    | Exit(to: ElemId)
    | Exclude(to: ElemId)
    | Backtrack
    | Done

  datatype DFSPending = PendingExpand(next: ElemId) | PendingBacktrack

  /** What the search reports for exit `i` of the path `p`. */
  ghost function ActionFor(g: Graph, p: seq<ElemId>, i: nat): DFSAction
    requires g.Step((p, i))
  {
    var t := g.Target(g.Last(p), i);
    if t !in g.body.elems then Exit(t)
    else if t in g.exclude then Exclude(t)
    else if t in p then Cycle(g.Last(p), t)
    else Next(t)
  }

  // ------------------------------------------------------------------------
  // The termination measure: the work left at each path position is a digit
  // of a number in base `k`.

  ghost function Pow(k: nat, n: nat): (r: nat)
    ensures k > 0 ==> r > 0
  {
    if n == 0 then 1 else k * Pow(k, n - 1)
  }

  ghost function Digits(ds: seq<int>, k: nat, n: nat): int
    requires |ds| <= n
  {
    if ds == [] then 0 else ds[0] * Pow(k, n - 1) + Digits(ds[1..], k, n - 1)
  }

  lemma {:induction false} DigitsAppend(ds: seq<int>, d: int, k: nat, n: nat)
    requires |ds| < n
    ensures Digits(ds + [d], k, n) == Digits(ds, k, n) + d * Pow(k, n - 1 - |ds|)
  {
    if ds == [] {
      assert (ds + [d])[1..] == [];
    } else {
      assert (ds + [d])[1..] == ds[1..] + [d];
      DigitsAppend(ds[1..], d, k, n - 1);
    }
  }

  lemma MaxDegree(data: Arena) returns (d: nat)
    ensures forall x: nat :: Present(data, x) ==> |data[x].value.exits| <= d
  {
    if data == [] {
      d := 0;
    } else {
      var d0 := MaxDegree(data[1..]);
      d := if data[0].Some? && |data[0].value.exits| > d0 then |data[0].value.exits| else d0;
      forall x: nat | Present(data, x)
        ensures |data[x].value.exits| <= d
      {
        if x > 0 {
          assert Present(data[1..], x - 1);
        }
      }
    }
  }

  lemma {:induction false} PathIsShort(p: seq<ElemId>, n: nat)
    requires Distinct(p) && forall k :: 0 <= k < |p| ==> p[k] < n
    ensures |p| <= n
  {
    if p != [] {
      assert p[0] < n;
      if n - 1 in p {
        var k :| 0 <= k < |p| && p[k] == n - 1;
        PathIsShort(p[..k] + p[k + 1..], n - 1);
      } else {
        PathIsShort(p, n - 1);
      }
    }
  }

  /** The fields of a search as one value, so that steps can be reasoned about as lemmas. */
  datatype Search = Search(
    g: Graph, entry: ElemId, maxDegree: nat,
    visited: seq<bool>, path: seq<ElemId>, exitIdx: seq<nat>, pending: Option<DFSPending>,
    done: set<(seq<ElemId>, nat)>)
  {
    ghost predicate Frame() {
      && g.Ok()
      && Present(g.data, entry)
      && |visited| == |g.data|
      && |exitIdx| == |path|
      && (path != [] ==> g.SimplePath(path) && path[0] == entry)
      && (forall x :: 0 <= x < |g.data| ==> (visited[x] <==> x in path))
      && (forall x: nat :: Present(g.data, x) ==> g.Deg(x) <= maxDegree)
      && (pending.Some? ==> path != [])
    }

    ghost predicate Shape() {
      && Frame()
      && (forall j :: 0 <= j < |path| ==> exitIdx[j] <= g.Deg(path[j]) + if j == |path| - 1 && pending == Some(PendingBacktrack) then 1 else 0)
      && match pending
         case None => true
         case Some(PendingExpand(t)) => g.Open(t) && t !in path && g.Edge(g.Last(path), t)
         case Some(PendingBacktrack) => exitIdx[|path| - 1] == g.Deg(g.Last(path)) + 1
    }

    /** Exit `i` of path position `j` was reported, and what lies behind it is done or under way. */
    ghost predicate Handled(j: nat, i: nat)
      requires j < |path| && Present(g.data, path[j]) && i < g.Deg(path[j])
    {
      var t := g.Target(path[j], i);
      && (path[..j + 1], i) in done
      && (g.Open(t) && t !in path[..j + 1] ==>
            || (j + 1 < |path| && path[j + 1] == t)
            || (j + 1 == |path| && pending == Some(PendingExpand(t)))
            || g.Covered(done, path[..j + 1] + [t]))
    }

    ghost predicate Valid() {
      && Shape()
      && (forall w :: w in done ==> g.Step(w) && w.0[0] == entry)
      && (forall j, i :: 0 <= j < |path| && 0 <= i < exitIdx[j] && i < g.Deg(path[j]) ==> Handled(j, i))
      && (path == [] ==> g.Covered(done, [entry]))
    }

    ghost predicate Aligned() {
      |exitIdx| == |path| && (pending.Some? ==> path != [])
    }

    ghost function Left(): seq<int>
      requires |exitIdx| == |path|
    {
      seq(|path|, j requires 0 <= j < |path| => maxDegree + 1 - exitIdx[j])
    }

    /** The digits of the position the search resumes from. */
    ghost function Work(): seq<int>
      requires Aligned()
    {
      match pending
      case None => Left()
      case Some(PendingExpand(_)) => Left() + [maxDegree + 1]
      case Some(PendingBacktrack) => Left()[..|path| - 1]
    }

    ghost function Measure(): int
      requires Aligned()
    {
      if |Work()| <= |g.data| then Digits(Work(), maxDegree + 2, |g.data|) else 0
    }

    /** The search after its pending action. */
    ghost function Applied(): Search
      requires Shape()
    {
      match pending
      case None => this
      case Some(PendingExpand(t)) =>
        this.(visited := visited[t := true], path := path + [t], exitIdx := exitIdx + [0], pending := None)
      case Some(PendingBacktrack) =>
        this.(visited := visited[g.Last(path) := false], path := path[..|path| - 1], exitIdx := exitIdx[..|path| - 1], pending := None)
    }

    /** The search after it looked at the next exit of its last node. */
    ghost function Looked(): Search
      requires Aligned() && pending == None && path != [] && Present(g.data, g.Last(path))
      requires exitIdx[|path| - 1] <= g.Deg(g.Last(path))
    {
      var i := exitIdx[|path| - 1];
      var next := this.(exitIdx := exitIdx[|path| - 1 := i + 1]);
      if i == g.Deg(g.Last(path)) then next.(pending := Some(PendingBacktrack))
      else
        var t := g.Target(g.Last(path), i);
        next.(done := done + {(path, i)},
              pending := if g.Open(t) && t !in path then Some(PendingExpand(t)) else None)
    }
  }

  lemma ExpandKeepsFrame(s: Search)
    requires s.Valid() && s.pending.Some? && s.pending.value.PendingExpand?
    ensures s.Applied().Shape() && s.Applied().Left() == s.Work()
  {
    var t := s.pending.value.next;
    var p := s.path + [t];
    forall k | 0 < k < |p|
      ensures s.g.Entered(p, k)
    {
      if k == |p| - 1 {
        assert p[k - 1] == s.g.Last(s.path);
      } else {
        assert s.g.Entered(s.path, k);
      }
    }
  }

  lemma ExpandKeepsValid(s: Search)
    requires s.Valid() && s.pending.Some? && s.pending.value.PendingExpand?
    ensures s.Applied().Valid() && s.Applied().Left() == s.Work()
  {
    ExpandKeepsFrame(s);
    var a := s.Applied();
    forall j, i | 0 <= j < |a.path| && 0 <= i < a.exitIdx[j] && i < a.g.Deg(a.path[j])
      ensures a.Handled(j, i)
    {
      assert s.Handled(j, i);
      assert a.path[..j + 1] == s.path[..j + 1];
    }
  }

  /** When the last node's exits are all handled, everything beyond its path is done. */
  lemma BacktrackCovers(s: Search)
    requires s.Valid() && s.pending == Some(PendingBacktrack)
    ensures s.g.Covered(s.done, s.path)
  {
    var g, p := s.g, s.path;
    assert p[..|p|] == p;
    forall w: seq<ElemId>, i: nat | g.Step((w, i)) && p <= w
      ensures (w, i) in s.done
    {
      if |w| == |p| {
        assert w == p;
        assert s.Handled(|p| - 1, i);
      } else {
        assert g.Entered(w, |p|);
        var k :| 0 <= k < g.Deg(g.Last(p)) && g.Target(g.Last(p), k) == w[|p|];
        assert s.Handled(|p| - 1, k);
        assert p + [w[|p|]] <= w;
        assert w[|p|] !in p;
      }
    }
  }

  lemma PathPrefix(g: Graph, p: seq<ElemId>, n: nat)
    requires g.SimplePath(p) && 0 < n <= |p|
    ensures g.SimplePath(p[..n])
  {
    forall k | 0 < k < n
      ensures g.Entered(p[..n], k)
    {
      assert g.Entered(p, k);
    }
  }

  lemma BacktrackKeepsValid(s: Search)
    requires s.Valid() && s.pending == Some(PendingBacktrack)
    ensures s.Applied().Valid() && s.Applied().Left() == s.Work()
  {
    BacktrackCovers(s);
    if |s.path| > 1 {
      PathPrefix(s.g, s.path, |s.path| - 1);
    }
    var a := s.Applied();
    assert s.path == a.path + [s.g.Last(s.path)];
    if a.path == [] {
      assert s.path == [s.entry];
    }
    forall j, i | 0 <= j < |a.path| && 0 <= i < a.exitIdx[j] && i < a.g.Deg(a.path[j])
      ensures a.Handled(j, i)
    {
      assert s.Handled(j, i);
      assert a.path[..j + 1] == s.path[..j + 1];
      if j == |a.path| - 1 {
        assert s.path[..j + 1] + [s.path[j + 1]] == s.path;
      }
    }
  }

  lemma AppliedKeepsValid(s: Search)
    requires s.Valid()
    ensures s.Applied().Valid() && s.Applied().pending == None && s.Applied().Left() == s.Work()
  {
    match s.pending {
      case None =>
      case Some(PendingExpand(_)) => ExpandKeepsValid(s);
      case Some(PendingBacktrack) => BacktrackKeepsValid(s);
    }
  }

  lemma HandledStays(s: Search, j: nat, i: nat)
    requires s.Valid() && s.pending == None && s.path != []
    requires j < |s.path| && i < s.Looked().exitIdx[j] && i < s.g.Deg(s.path[j])
    ensures s.Looked().Handled(j, i)
  {
    assert s.path[..|s.path|] == s.path;
    if j < |s.path| - 1 || i < s.exitIdx[j] {
      assert s.Handled(j, i);
    }
  }

  lemma LookedKeepsShape(s: Search)
    requires s.Valid() && s.pending == None && s.path != []
    ensures s.Looked().Shape() && forall w :: w in s.Looked().done ==> s.g.Step(w) && w.0[0] == s.entry
  {
    var a := s.Looked();
    if a.pending.Some? && a.pending.value.PendingExpand? {
      assert a.g.Edge(a.g.Last(a.path), a.pending.value.next);
    }
  }

  lemma LookedKeepsValid(s: Search)
    requires s.Valid() && s.pending == None && s.path != []
    ensures s.Looked().Valid()
  {
    LookedKeepsShape(s);
    forall j: nat, i: nat | j < |s.path| && i < s.Looked().exitIdx[j] && i < s.g.Deg(s.path[j])
      ensures s.Looked().Handled(j, i)
    {
      HandledStays(s, j, i);
    }
  }

  lemma {:induction false} DigitsPositive(ds: seq<int>, k: nat, n: nat)
    requires |ds| <= n && k > 0
    requires forall j :: 0 <= j < |ds| ==> ds[j] >= 0
    ensures Digits(ds, k, n) >= 0
  {
    if ds != [] {
      DigitsPositive(ds[1..], k, n - 1);
    }
  }

  lemma DigitsDrop(front: seq<int>, d: int, k: nat, n: nat)
    requires |front| < n && k > 0
    ensures Digits(front + [d - 1], k, n) + Pow(k, n - 1 - |front|) == Digits(front + [d], k, n)
    ensures d > 0 ==> Digits(front, k, n) < Digits(front + [d], k, n)
  {
    var m := n - 1 - |front|;
    DigitsAppend(front, d, k, n);
    DigitsAppend(front, d - 1, k, n);
    assert (d - 1) * Pow(k, m) == d * Pow(k, m) - Pow(k, m);
    if d > 0 {
      assert d * Pow(k, m) >= Pow(k, m);
    }
  }

  /** Lowering the last digit pays for one more digit. */
  lemma DigitsShrink(front: seq<int>, d: int, k: nat, n: nat)
    requires |front| + 1 < n && k > 0
    ensures Digits(front + [d - 1] + [k - 1], k, n) < Digits(front + [d], k, n)
  {
    var m := n - 1 - |front|;
    DigitsDrop(front, d, k, n);
    DigitsAppend(front + [d - 1], k - 1, k, n);
    assert (k - 1) * Pow(k, m - 1) == k * Pow(k, m - 1) - Pow(k, m - 1);
  }

  lemma PathFits(s: Search)
    requires s.Shape()
    ensures |s.path| <= |s.g.data|
  {
    PathIsShort(s.path, |s.g.data|);
  }

  /** The digits after a look: the last one is lowered, and then possibly dropped or followed by a full one. */
  lemma LookedWork(s: Search)
    requires s.Aligned() && s.pending == None && s.path != [] && Present(s.g.data, s.g.Last(s.path))
    requires s.exitIdx[|s.path| - 1] <= s.g.Deg(s.g.Last(s.path)) <= s.maxDegree
    ensures var front, d := s.Left()[..|s.path| - 1], s.Left()[|s.path| - 1];
      var w := s.Looked().Work();
      && s.Work() == front + [d] && d > 0
      && (w == front || w == front + [d - 1] || w == front + [d - 1] + [s.maxDegree + 1])
  {
    var a := s.Looked();
    var front, d := s.Left()[..|s.path| - 1], s.Left()[|s.path| - 1];
    assert s.Left() == front + [d];
    assert a.Left() == front + [d - 1];
  }

  lemma WorkFits(s: Search)
    requires s.Shape() && s.Applied().Shape() && s.Applied().Left() == s.Work()
    ensures |s.Work()| <= |s.g.data| && Digits(s.Work(), s.maxDegree + 2, |s.g.data|) >= 0
  {
    PathFits(s.Applied());
    DigitsPositive(s.Work(), s.maxDegree + 2, |s.g.data|);
  }

  lemma AppliedFits(s: Search)
    requires s.Valid()
    ensures s.Applied().Valid() && s.Applied().pending == None && s.Applied().Left() == s.Work()
    ensures |s.Work()| <= |s.g.data| && 0 <= s.Measure()
  {
    AppliedKeepsValid(s);
    WorkFits(s);
  }

  lemma LookedShrinks(s: Search)
    requires s.Aligned() && s.pending == None && s.path != [] && Present(s.g.data, s.g.Last(s.path))
    requires s.exitIdx[|s.path| - 1] <= s.g.Deg(s.g.Last(s.path)) <= s.maxDegree
    requires |s.Work()| <= |s.g.data| && |s.Looked().Work()| <= |s.g.data|
    ensures s.Looked().Measure() < s.Measure()
  {
    LookedWork(s);
    LowerDigits(s.Looked().Work(), s.Left()[..|s.path| - 1], s.Left()[|s.path| - 1], s.maxDegree + 2, |s.g.data|);
  }

  lemma LowerDigits(w: seq<int>, front: seq<int>, d: int, k: nat, n: nat)
    requires w == front || w == front + [d - 1] || w == front + [d - 1] + [k - 1]
    requires d > 0 && k > 0 && |front| < n && |w| <= n
    ensures Digits(w, k, n) < Digits(front + [d], k, n)
  {
    DigitsDrop(front, d, k, n);
    if |front| + 1 < n {
      DigitsShrink(front, d, k, n);
    }
  }

  /** The search after one call of `Next`, and the action that call returns. */
  ghost function AfterNext(s: Search): Search
    requires s.Valid() && s.Applied().Shape()
  {
    if s.Applied().path == [] then s.Applied() else s.Applied().Looked()
  }

  ghost function NextAction(s: Search): DFSAction
    requires s.Valid() && s.Applied().Shape()
  {
    var a := s.Applied();
    if a.path == [] then Done
    else
      var i := a.exitIdx[|a.path| - 1];
      if i == a.g.Deg(a.g.Last(a.path)) then Backtrack else ActionFor(a.g, a.path, i)
  }

  /** What a caller may rely on for each kind of action: each one but `Done` brings
      the search closer to its end, and at `Done` every exit of every simple path
      from the entry has been reported. */
  lemma NextKeepsValid(s: Search)
    requires s.Valid()
    ensures s.Applied().Shape() && AfterNext(s).Valid()
    ensures AfterNext(s).g == s.g && AfterNext(s).entry == s.entry
    ensures NextAction(s) == Done ==> AfterNext(s).done == s.done && s.g.Covered(s.done, [s.entry])
    ensures NextAction(s) == Backtrack ==> AfterNext(s).done == s.done
    ensures NextAction(s) != Done && NextAction(s) != Backtrack ==>
      exists i :: 0 <= i && s.g.Step((AfterNext(s).path, i)) && AfterNext(s).done == s.done + {(AfterNext(s).path, i)}
        && NextAction(s) == ActionFor(s.g, AfterNext(s).path, i)
  {
    AppliedKeepsValid(s);
    AppliedKeepsDone(s);
    var a := s.Applied();
    if a.path != [] {
      LookedKeepsValid(a);
      LookedReports(a);
    }
  }

  lemma AppliedKeepsDone(s: Search)
    requires s.Valid()
    ensures s.Applied().done == s.done && s.Applied().g == s.g && s.Applied().entry == s.entry
  {
  }

  lemma LookedFits(a: Search)
    requires a.Valid() && a.pending == None && a.path != []
    ensures a.Looked().Aligned() && |a.Looked().Work()| <= |a.Looked().g.data| && 0 <= a.Looked().Measure() && a.Looked().g == a.g
  {
    LookedKeepsValid(a);
    AppliedFits(a.Looked());
  }

  lemma AppliedMeasure(s: Search)
    requires s.Valid()
    ensures s.Applied().Valid() && s.Applied().pending == None && s.Applied().Measure() == s.Measure()
  {
    AppliedFits(s);
  }

  lemma LookedIsLess(a: Search)
    requires a.Valid() && a.pending == None && a.path != []
    ensures a.Looked().Aligned() && 0 <= a.Looked().Measure() < a.Measure()
  {
    LookedFits(a);
    AppliedFits(a);
    LookedShrinks(a);
  }

  lemma NextShrinks(s: Search)
    requires s.Valid() && s.Applied().Shape() && NextAction(s) != Done
    ensures AfterNext(s).Aligned() && 0 <= AfterNext(s).Measure() < s.Measure()
  {
    AppliedMeasure(s);
    LookedIsLess(s.Applied());
  }

  lemma LookedReports(a: Search)
    requires a.Shape() && a.pending == None && a.path != []
    ensures a.Looked().path == a.path && a.Looked().g == a.g && a.Looked().entry == a.entry
    ensures a.exitIdx[|a.path| - 1] == a.g.Deg(a.g.Last(a.path)) ==> a.Looked().done == a.done
    ensures a.exitIdx[|a.path| - 1] < a.g.Deg(a.g.Last(a.path)) ==>
      a.g.Step((a.path, a.exitIdx[|a.path| - 1])) && a.Looked().done == a.done + {(a.path, a.exitIdx[|a.path| - 1])}
  {
  }

  class DFS {
    const body: Body
    const exclude: set<ElemId>
    const data: Arena
    var visited: seq<bool>
    var path: seq<ElemId>
    var exitIdx: seq<nat>
    var pending: Option<DFSPending>
    ghost const entry: ElemId
    ghost const maxDegree: nat
    /** The (path, exit) pairs reported so far. */
    ghost var done: set<(seq<ElemId>, nat)>

    ghost function Value(): Search
      reads this
    {
      Search(Graph(body, exclude, data), entry, maxDegree, visited, path, exitIdx, pending, done)
    }

    constructor (entry: ElemId, body: Body, exclude: set<ElemId>, data: Arena)
      requires Graph(body, exclude, data).Ok() && Present(data, entry)
      ensures Value().Valid() && Value().g == Graph(body, exclude, data) && Value().entry == entry
      ensures done == {} && path == [entry] && exitIdx == [0] && pending == None
    {
      this.body, this.exclude, this.data, this.entry := body, exclude, data, entry;
      visited := seq(|data|, x => x == entry);
      path := [entry];
      exitIdx := [0];
      pending := None;
      done := {};
      var d := MaxDegree(data);
      maxDegree := d;
    }

    method ApplyPending()
      requires Value().Valid()
      modifies this`visited, this`path, this`exitIdx, this`pending
      ensures Value() == old(Value().Applied())
    {
      if pending == None { return; }
      var action := pending.value;
      pending := None;
      match action {
        case PendingExpand(next) =>
          visited := visited[next := true];
          path := path + [next];
          exitIdx := exitIdx + [0];
        case PendingBacktrack =>
          var node := path[|path| - 1];
          path := path[..|path| - 1];
          exitIdx := exitIdx[..|exitIdx| - 1];
          visited := visited[node := false];
      }
    }

    method Next() returns (action: DFSAction)
      requires Value().Valid() && Value().Applied().Shape()
      modifies this`visited, this`path, this`exitIdx, this`pending, this`done
      ensures Value() == old(AfterNext(Value()))
      ensures action == old(NextAction(Value()))
    {
      ApplyPending();
      if |path| == 0 {
        return Done;
      }
      var idx := |path| - 1;
      var node := path[idx];
      var i := exitIdx[idx];
      exitIdx := exitIdx[idx := i + 1];
      if i >= |data[node].value.exits| {
        pending := Some(PendingBacktrack);
        return Backtrack;
      }
      var next := body.Remap(data[node].value.exits[i]);
      done := done + {(path, i)};
      if next !in body.elems {
        return Exit(next);
      }
      if next in exclude {
        return Exclude(next);
      }
      if visited[next] {
        return Cycle(node, next);
      }
      pending := Some(PendingExpand(next));
      return DFSAction.Next(next);
    }
  }
}
