/** Running the printed program runs the blocks that the graph dictates. */
module Meaning {
  import opened Wrappers
  import opened ControlFlow
  import opened Ownership
  import opened CSyntax
  import opened FlowTree

  /** Every goto to a labelled block is right, for up to `n` outcomes. */
  ghost predicate GotosGood(cfg: Cfg, prog: seq<Stmt>, labeled: set<ElemId>, n: int) {
    forall l :: l in labeled ==> Enter(prog, l).Some? && Good(cfg, prog, Enter(prog, l).value, l, n)
  }

  /** What comes after is right for the block `next`, if any. */
  ghost predicate NextGood(cfg: Cfg, prog: seq<Stmt>, k: Kont, next: Option<ElemId>, n: int) {
    next.Some? ==> Good(cfg, prog, k, next.value, n)
  }

  lemma SkipEmpty(cfg: Cfg, prog: seq<Stmt>, k: Kont, next: Option<ElemId>, n: int)
    requires NextGood(cfg, prog, k, next, n)
    ensures NextGood(cfg, prog, Then([], k), next, n)
  {
    if next.Some? {
      SilentGood(cfg, prog, Then([], k), k, next.value, n);
    }
  }

  lemma GotoGood(cfg: Cfg, prog: seq<Stmt>, labeled: set<ElemId>, rest: seq<Stmt>, k: Kont, t: ElemId, n: int)
    requires GotosGood(cfg, prog, labeled, n) && t in labeled
    ensures Good(cfg, prog, Then([Goto(t)] + rest, k), t, n)
  {
    SilentGood(cfg, prog, Then([Goto(t)] + rest, k), Enter(prog, t).value, t, n);
  }

  /** A jump that leads to `x` is right for `x`. */
  lemma LeadsGood(cfg: Cfg, prog: seq<Stmt>, labeled: set<ElemId>, b: ElemId, jump: Jump, x: ElemId, next: Option<ElemId>,
                  rest: seq<Stmt>, k: Kont, n: int)
    requires GotosGood(cfg, prog, labeled, n) && JumpTargets(jump) <= labeled
    requires LeadsTo(jump, x, next) && NextGood(cfg, prog, Then(rest, k), next, n)
    ensures Good(cfg, prog, Then(EmitJump(b, jump) + rest, k), x, n)
  {
    if jump.UncondTarget? {
      GotoGood(cfg, prog, labeled, rest, k, x, n);
    } else {
      assert EmitJump(b, jump) + rest == rest;
    }
  }

  /** `if (c) goto t;` on a known outcome. */
  lemma CondJumpDoes(cfg: Cfg, prog: seq<Stmt>, labeled: set<ElemId>, c: Cond, t: ElemId, x: ElemId, rest: seq<Stmt>, k: Kont,
                     taken: bool, os: seq<bool>, n: int)
    requires GotosGood(cfg, prog, labeled, n) && t in labeled && |os| <= n
    requires if taken != c.inverted then x == t else Good(cfg, prog, Then(rest, k), x, n)
    ensures Does(cfg, prog, Then([Stmt.If(c, [Goto(t)], NoElse)] + rest, k), Some((c.blk, taken)), os, CfgRun(cfg, x, os))
  {
    var at, last, run := Then([Stmt.If(c, [Goto(t)], NoElse)] + rest, k), Some((c.blk, taken)), CfgRun(cfg, x, os);
    assert ([Stmt.If(c, [Goto(t)], NoElse)] + rest)[1..] == rest;
    if taken != c.inverted {
      assert [Goto(t)] + [] == [Goto(t)];
      GotoGood(cfg, prog, labeled, [], Then(rest, k), t, n);
      SilentDoes(cfg, prog, at, last, os, run);
    } else {
      SilentDoes(cfg, prog, Then([], Then(rest, k)), last, os, run);
      SilentDoes(cfg, prog, at, last, os, run);
    }
  }

  /** After a block ran with outcome `taken`, its jump leads to the edge the graph takes. */
  lemma JumpDoes(cfg: Cfg, prog: seq<Stmt>, labeled: set<ElemId>, b: ElemId, jump: Jump, next: Option<ElemId>,
                 rest: seq<Stmt>, k: Kont, taken: bool, os: seq<bool>, n: int)
    requires Live(cfg, b) && cfg[b].value != [] && BlockFits(cfg[b].value, jump, next)
    requires GotosGood(cfg, prog, labeled, n) && JumpTargets(jump) <= labeled && |os| <= n
    requires NextGood(cfg, prog, Then(rest, k), next, n)
    ensures Does(cfg, prog, Then(EmitJump(b, jump) + rest, k), Some((b, taken)), os, CfgRun(cfg, Successor(cfg, b, taken), os))
  {
    var exits := cfg[b].value;
    match jump {
      case CondTargetTrue(t) =>
        CondJumpDoes(cfg, prog, labeled, Cond(b, false), t, Successor(cfg, b, taken), rest, k, taken, os, n);
      case CondTargetFalse(t) =>
        CondJumpDoes(cfg, prog, labeled, Cond(b, true), t, Successor(cfg, b, taken), rest, k, taken, os, n);
      case CondTargetBoth(t, f) =>
        SilentDoes(cfg, prog, Then(EmitJump(b, jump) + rest, k), Some((b, taken)), os, CfgRun(cfg, Successor(cfg, b, taken), os));
      case UncondTarget(_) =>
        LeadsGood(cfg, prog, labeled, b, jump, exits[0], next, rest, k, n);
      case UncondFallthrough =>
        LeadsGood(cfg, prog, labeled, b, jump, exits[0], next, rest, k, n);
      case _ =>
        assert false;
    }
  }

  lemma LabelGood(cfg: Cfg, prog: seq<Stmt>, labeled: set<ElemId>, b: ElemId, ss: seq<Stmt>, k: Kont, n: int)
    requires Good(cfg, prog, Then([Code(b)] + ss, k), b, n)
    ensures Good(cfg, prog, Then(EmitHeader(b, labeled) + ss, k), b, n)
    ensures b in labeled ==> Find(EmitHeader(b, labeled) + ss, b, k) == Some(Then([Code(b)] + ss, k))
  {
    if b in labeled {
      var full := EmitHeader(b, labeled) + ss;
      assert full[1..] == [Code(b)] + ss;
      SilentGood(cfg, prog, Then(full, k), Then([Code(b)] + ss, k), b, n);
    }
  }

  // ------------------------------------------------------------------------
  // Finding labels.

  lemma {:induction false} FindsLabels(ss: seq<Stmt>, l: ElemId, k: Kont)
    ensures Find(ss, l, k).Some? <==> l in LabelsOf(ss)
  {
    if ss != [] {
      FindsLabels(ss[1..], l, k);
      match ss[0] {
        case If(_, t, e) =>
          FindsLabels(t, l, Then(ss[1..], k));
          if e.Else? {
            FindsLabels(e.stmts, l, Then(ss[1..], k));
          }
        case Loop(body) => FindsLabels(body, l, Then(ss, k));
        case _ =>
      }
    }
  }

  /** A search passes over a part that does not hold the label. */
  lemma {:induction false} FindSkips(a: seq<Stmt>, b: seq<Stmt>, l: ElemId, k: Kont)
    requires l !in LabelsOf(a)
    ensures Find(a + b, l, k) == Find(b, l, k)
  {
    if a == [] {
      assert a + b == b;
    } else {
      assert (a + b)[1..] == a[1..] + b;
      FindSkips(a[1..], b, l, k);
      match a[0] {
        case If(_, t, e) =>
          FindsLabels(t, l, Then((a + b)[1..], k));
          if e.Else? {
            FindsLabels(e.stmts, l, Then((a + b)[1..], k));
          }
        case Loop(body) => FindsLabels(body, l, Then(a + b, k));
        case _ =>
      }
    }
  }

  lemma KeepSubset(s: seq<ElemId>, which: set<ElemId>, x: ElemId)
    requires x in Keep(s, which)
    ensures x in s
  {
    if x !in KeepOne(s[0], which) {
      KeepSubset(s[1..], which, x);
    }
  }

  lemma {:induction false} NodesSkip(nodes: seq<Node>, labeled: set<ElemId>, l: ElemId)
    requires l !in AllBlocks(nodes)
    ensures l !in LabelsOf(EmitAll(nodes, labeled))
  {
    EmitAllConserves(nodes, labeled);
    if l in Keep(AllBlocks(nodes), labeled) {
      KeepSubset(AllBlocks(nodes), labeled, l);
    }
  }

  lemma {:induction false} NodeSkip(node: Node, labeled: set<ElemId>, l: ElemId)
    requires l !in Blocks(node)
    ensures l !in LabelsOf(EmitNode(node, labeled))
  {
    EmitConserves(node, labeled);
    if l in Keep(Blocks(node), labeled) {
      KeepSubset(Blocks(node), labeled, l);
    }
  }

  // ------------------------------------------------------------------------
  // The printed form of each node, with `rest` after it.

  /** With right gotos and a right continuation one outcome later, this node may be printed here. */
  ghost predicate Placed(cfg: Cfg, prog: seq<Stmt>, labeled: set<ElemId>, targets: set<ElemId>,
                         next: Option<ElemId>, rest: seq<Stmt>, k: Kont, n: int) {
    && GotosGood(cfg, prog, labeled, n - 1)
    && targets <= labeled
    && NextGood(cfg, prog, Then(rest, k), next, n - 1)
  }

  lemma BlockGood(cfg: Cfg, prog: seq<Stmt>, labeled: set<ElemId>, b: ElemId, jump: Jump, next: Option<ElemId>,
                  rest: seq<Stmt>, k: Kont, n: int)
    requires Live(cfg, b) && BlockFits(cfg[b].value, jump, next)
    requires Placed(cfg, prog, labeled, JumpTargets(jump), next, rest, k, n)
    ensures Good(cfg, prog, Then([Code(b)] + (EmitJump(b, jump) + rest), k), b, n)
  {
    if cfg[b].value != [] {
      forall taken, os | |os| <= n - 1
        ensures Does(cfg, prog, Then(EmitJump(b, jump) + rest, k), Some((b, taken)), os, CfgRun(cfg, Successor(cfg, b, taken), os))
      {
        JumpDoes(cfg, prog, labeled, b, jump, next, rest, k, taken, os, n - 1);
      }
    }
    CodeGood(cfg, prog, EmitJump(b, jump) + rest, k, b, n);
  }

  /** After an if's header ran, its statement leads into the right arm, or past the if. */
  lemma IfDoes(cfg: Cfg, prog: seq<Stmt>, b: ElemId, inverted: bool, t: seq<Stmt>, e: Else, tHead: ElemId, eHead: ElemId,
               rest: seq<Stmt>, k: Kont, taken: bool, os: seq<bool>, n: int)
    requires |os| <= n
    requires Good(cfg, prog, Then(t, Then(rest, k)), tHead, n)
    requires Good(cfg, prog, Then(if e.Else? then e.stmts else [], Then(rest, k)), eHead, n)
    ensures Does(cfg, prog, Then([Stmt.If(Cond(b, inverted), t, e)] + rest, k), Some((b, taken)), os,
                 CfgRun(cfg, if taken != inverted then tHead else eHead, os))
  {
    assert ([Stmt.If(Cond(b, inverted), t, e)] + rest)[1..] == rest;
    SilentDoes(cfg, prog, Then([Stmt.If(Cond(b, inverted), t, e)] + rest, k), Some((b, taken)), os,
               CfgRun(cfg, if taken != inverted then tHead else eHead, os));
  }

  lemma IfGood(cfg: Cfg, prog: seq<Stmt>, b: ElemId, inverted: bool, t: seq<Stmt>, e: Else,
               rest: seq<Stmt>, k: Kont, n: int)
    requires Live(cfg, b) && |cfg[b].value| == 2
    requires Good(cfg, prog, Then(t, Then(rest, k)), BranchExit(cfg, b, !inverted), n - 1)
    requires Good(cfg, prog, Then(if e.Else? then e.stmts else [], Then(rest, k)), BranchExit(cfg, b, inverted), n - 1)
    ensures Good(cfg, prog, Then([Code(b)] + ([Stmt.If(Cond(b, inverted), t, e)] + rest), k), b, n)
  {
    var s := [Stmt.If(Cond(b, inverted), t, e)] + rest;
    forall taken, os | |os| <= n - 1
      ensures Does(cfg, prog, Then(s, k), Some((b, taken)), os, CfgRun(cfg, Successor(cfg, b, taken), os))
    {
      IfDoes(cfg, prog, b, inverted, t, e, BranchExit(cfg, b, !inverted), BranchExit(cfg, b, inverted), rest, k, taken, os, n - 1);
    }
    CodeGood(cfg, prog, s, k, b, n);
  }

  function EmitElse(e: Arm, labeled: set<ElemId>): Else {
    if e.Arm? then Else(EmitAll(e.nodes, labeled)) else NoElse
  }

  lemma LoopGood(cfg: Cfg, prog: seq<Stmt>, body: seq<Stmt>, rest: seq<Stmt>, k: Kont, b: ElemId, n: int)
    requires Good(cfg, prog, Then(body, Then([Stmt.Loop(body)] + rest, k)), b, n)
    ensures Good(cfg, prog, Then([Stmt.Loop(body)] + rest, k), b, n)
  {
    var ss := [Stmt.Loop(body)] + rest;
    SilentGood(cfg, prog, Then(ss, k), Then(body, Then(ss, k)), b, n);
  }

  /** The arms of an if, both followed by its jump. */
  lemma {:induction false} ArmsGood(cfg: Cfg, prog: seq<Stmt>, labeled: set<ElemId>, node: Node, next: Option<ElemId>,
                                    rest: seq<Stmt>, k: Kont, n: int)
    requires node.IfNode? && Fits(cfg, node, next)
    requires Placed(cfg, prog, labeled, Targets(node), next, rest, k, n)
    ensures var after, e := EmitJump(node.entry, node.jump) + rest, EmitElse(node.elseBody, labeled);
      && Placed(cfg, prog, labeled, Targets(node), Some(node.exit), [], Then(after, k), n)
      && Good(cfg, prog, Then(EmitAll(node.thenBody, labeled), Then(after, k)), BranchExit(cfg, node.entry, !node.inverted), n)
      && Good(cfg, prog, Then(if e.Else? then e.stmts else [], Then(after, k)), BranchExit(cfg, node.entry, node.inverted), n - 1)
    decreases node, 0
  {
    var after := EmitJump(node.entry, node.jump) + rest;
    LeadsGood(cfg, prog, labeled, node.entry, node.jump, node.exit, next, rest, k, n - 1);
    SkipEmpty(cfg, prog, Then(after, k), Some(node.exit), n - 1);
    AllNodesGood(cfg, prog, labeled, node.thenBody, Some(node.exit), [], Then(after, k), n);
    assert EmitAll(node.thenBody, labeled) + [] == EmitAll(node.thenBody, labeled);
    if node.elseBody.Arm? {
      AllNodesGood(cfg, prog, labeled, node.elseBody.nodes, Some(node.exit), [], Then(after, k), n);
      assert EmitAll(node.elseBody.nodes, labeled) + [] == EmitAll(node.elseBody.nodes, labeled);
    }
  }

  /** Entered at its top, a node runs the graph from its head. */
  lemma {:induction false} NodeGood(cfg: Cfg, prog: seq<Stmt>, labeled: set<ElemId>, node: Node, next: Option<ElemId>,
                                    rest: seq<Stmt>, k: Kont, n: int)
    requires Fits(cfg, node, next) && Placed(cfg, prog, labeled, Targets(node), next, rest, k, n)
    ensures Head(node).Some? && Good(cfg, prog, Then(EmitNode(node, labeled) + rest, k), Head(node).value, n)
    decreases node, 1
  {
    match node {
      case BlockNode(b, jump) =>
        BlockGood(cfg, prog, labeled, b, jump, next, rest, k, n);
        LabelGood(cfg, prog, labeled, b, EmitJump(b, jump) + rest, k, n);
        assert EmitNode(node, labeled) + rest == EmitHeader(b, labeled) + (EmitJump(b, jump) + rest);
      case LoopNode(id, body, jump) =>
        var b := EmitAll(body, labeled);
        AllNodesGood(cfg, prog, labeled, body, None, [], Then([Stmt.Loop(b)] + rest, k), n);
        assert b + [] == b;
        LoopGood(cfg, prog, b, rest, k, HeadOf(body).value, n);
        assert EmitNode(node, labeled) + rest == [Stmt.Loop(b)] + rest;
      case IfNode(_, entry, inverted, _, t, e, jump) =>
        ArmsGood(cfg, prog, labeled, node, next, rest, k, n);
        var after, s := EmitJump(entry, jump) + rest, [Stmt.If(Cond(entry, inverted), EmitAll(t, labeled), EmitElse(e, labeled))];
        IfGood(cfg, prog, entry, inverted, EmitAll(t, labeled), EmitElse(e, labeled), after, k, n);
        LabelGood(cfg, prog, labeled, entry, s + after, k, n);
        assert EmitNode(node, labeled) + rest == EmitHeader(entry, labeled) + (s + after);
    }
  }

  lemma {:induction false} AllNodesGood(cfg: Cfg, prog: seq<Stmt>, labeled: set<ElemId>, nodes: seq<Node>, next: Option<ElemId>,
                                        rest: seq<Stmt>, k: Kont, n: int)
    requires AllFit(cfg, nodes, next) && Placed(cfg, prog, labeled, AllTargets(nodes), next, rest, k, n)
    ensures HeadOf(nodes).Some? && Good(cfg, prog, Then(EmitAll(nodes, labeled) + rest, k), HeadOf(nodes).value, n)
    decreases nodes
  {
    PlacedTail(cfg, prog, labeled, nodes, next, rest, k, n);
    var more := EmitAll(nodes[1..], labeled) + rest;
    NodeGood(cfg, prog, labeled, nodes[0], if |nodes| == 1 then next else Head(nodes[1]), more, k, n);
    assert EmitAll(nodes, labeled) + rest == EmitNode(nodes[0], labeled) + more;
  }

  /** The first node of a list may be printed before the others. */
  lemma {:induction false} PlacedTail(cfg: Cfg, prog: seq<Stmt>, labeled: set<ElemId>, nodes: seq<Node>, next: Option<ElemId>,
                                      rest: seq<Stmt>, k: Kont, n: int)
    requires AllFit(cfg, nodes, next) && Placed(cfg, prog, labeled, AllTargets(nodes), next, rest, k, n)
    ensures Placed(cfg, prog, labeled, Targets(nodes[0]), if |nodes| == 1 then next else Head(nodes[1]),
                   EmitAll(nodes[1..], labeled) + rest, k, n)
    decreases nodes, -1
  {
    if |nodes| == 1 {
      assert EmitAll(nodes[1..], labeled) + rest == rest;
    } else {
      AllNodesGood(cfg, prog, labeled, nodes[1..], next, rest, k, n);
    }
  }

  lemma FindInLoop(body: seq<Stmt>, rest: seq<Stmt>, l: ElemId, k: Kont)
    requires Find(body, l, Then([Stmt.Loop(body)] + rest, k)).Some?
    ensures Find([Stmt.Loop(body)] + rest, l, k) == Find(body, l, Then([Stmt.Loop(body)] + rest, k))
  {
  }

  lemma FindInIf(c: Cond, t: seq<Stmt>, e: Else, rest: seq<Stmt>, l: ElemId, k: Kont)
    ensures var inThen := Find(t, l, Then(rest, k));
      && (inThen.Some? ==> Find([Stmt.If(c, t, e)] + rest, l, k) == inThen)
      && (inThen.None? && e.Else? && Find(e.stmts, l, Then(rest, k)).Some? ==>
            Find([Stmt.If(c, t, e)] + rest, l, k) == Find(e.stmts, l, Then(rest, k)))
  {
    assert ([Stmt.If(c, t, e)] + rest)[1..] == rest;
  }

  /** Entered at one of its labels, a node runs the graph from there. */
  lemma {:induction false} NodeFinds(cfg: Cfg, prog: seq<Stmt>, labeled: set<ElemId>, node: Node, next: Option<ElemId>,
                                     rest: seq<Stmt>, k: Kont, n: int, l: ElemId)
    requires Fits(cfg, node, next) && Placed(cfg, prog, labeled, Targets(node), next, rest, k, n)
    requires l in labeled && l in Blocks(node)
    ensures var at := Find(EmitNode(node, labeled) + rest, l, k); at.Some? && Good(cfg, prog, at.value, l, n)
    decreases node, 1
  {
    match node {
      case BlockNode(b, jump) =>
        BlockGood(cfg, prog, labeled, b, jump, next, rest, k, n);
        LabelGood(cfg, prog, labeled, b, EmitJump(b, jump) + rest, k, n);
        assert EmitNode(node, labeled) + rest == EmitHeader(b, labeled) + (EmitJump(b, jump) + rest);
      case LoopNode(id, body, jump) =>
        var b := EmitAll(body, labeled);
        AllFinds(cfg, prog, labeled, body, None, [], Then([Stmt.Loop(b)] + rest, k), n, l);
        assert b + [] == b;
        assert EmitNode(node, labeled) + rest == [Stmt.Loop(b)] + rest;
        FindInLoop(b, rest, l, k);
      case IfNode(_, _, _, _, _, _, _) =>
        IfFinds(cfg, prog, labeled, node, next, rest, k, n, l);
    }
  }

  lemma {:induction false} IfFinds(cfg: Cfg, prog: seq<Stmt>, labeled: set<ElemId>, node: Node, next: Option<ElemId>,
                                   rest: seq<Stmt>, k: Kont, n: int, l: ElemId)
    requires node.IfNode? && Fits(cfg, node, next) && Placed(cfg, prog, labeled, Targets(node), next, rest, k, n)
    requires l in labeled && l in Blocks(node)
    ensures var at := Find(EmitNode(node, labeled) + rest, l, k); at.Some? && Good(cfg, prog, at.value, l, n)
    decreases node, 0
  {
    ArmsGood(cfg, prog, labeled, node, next, rest, k, n);
    var entry := node.entry;
    var t, e := EmitAll(node.thenBody, labeled), EmitElse(node.elseBody, labeled);
    var after, s := EmitJump(entry, node.jump) + rest, [Stmt.If(Cond(entry, node.inverted), t, e)];
    assert EmitNode(node, labeled) + rest == EmitHeader(entry, labeled) + (s + after);
    if l == entry {
      IfGood(cfg, prog, entry, node.inverted, t, e, after, k, n);
      LabelGood(cfg, prog, labeled, entry, s + after, k, n);
    } else {
      HeaderHolds(entry, labeled);
      FindSkips(EmitHeader(entry, labeled), s + after, l, k);
      ArmsFind(cfg, prog, labeled, node, after, k, n, l);
      FindInIf(Cond(entry, node.inverted), t, e, after, l, k);
    }
  }

  lemma {:induction false} ArmsFind(cfg: Cfg, prog: seq<Stmt>, labeled: set<ElemId>, node: Node, after: seq<Stmt>, k: Kont, n: int, l: ElemId)
    requires node.IfNode? && AllFit(cfg, node.thenBody, Some(node.exit))
    requires node.elseBody.Arm? ==> AllFit(cfg, node.elseBody.nodes, Some(node.exit))
    requires Placed(cfg, prog, labeled, Targets(node), Some(node.exit), [], Then(after, k), n)
    requires l in labeled && (l in AllBlocks(node.thenBody) || (node.elseBody.Arm? && l in AllBlocks(node.elseBody.nodes)))
    ensures var t, e := EmitAll(node.thenBody, labeled), EmitElse(node.elseBody, labeled);
      var inThen := Find(t, l, Then(after, k));
      if inThen.Some? then Good(cfg, prog, inThen.value, l, n)
      else e.Else? && var inElse := Find(e.stmts, l, Then(after, k)); inElse.Some? && Good(cfg, prog, inElse.value, l, n)
    decreases node, -1
  {
    var t := EmitAll(node.thenBody, labeled);
    if l in AllBlocks(node.thenBody) {
      AllFinds(cfg, prog, labeled, node.thenBody, Some(node.exit), [], Then(after, k), n, l);
      assert t + [] == t;
    } else {
      NodesSkip(node.thenBody, labeled, l);
      FindsLabels(t, l, Then(after, k));
      var e := EmitAll(node.elseBody.nodes, labeled);
      AllFinds(cfg, prog, labeled, node.elseBody.nodes, Some(node.exit), [], Then(after, k), n, l);
      assert e + [] == e;
    }
  }

  lemma {:induction false} AllFinds(cfg: Cfg, prog: seq<Stmt>, labeled: set<ElemId>, nodes: seq<Node>, next: Option<ElemId>,
                                    rest: seq<Stmt>, k: Kont, n: int, l: ElemId)
    requires AllFit(cfg, nodes, next) && Placed(cfg, prog, labeled, AllTargets(nodes), next, rest, k, n)
    requires l in labeled && l in AllBlocks(nodes)
    ensures var at := Find(EmitAll(nodes, labeled) + rest, l, k); at.Some? && Good(cfg, prog, at.value, l, n)
    decreases nodes
  {
    var more := EmitAll(nodes[1..], labeled) + rest;
    assert EmitAll(nodes, labeled) + rest == EmitNode(nodes[0], labeled) + more;
    if l in Blocks(nodes[0]) {
      PlacedTail(cfg, prog, labeled, nodes, next, rest, k, n);
      NodeFinds(cfg, prog, labeled, nodes[0], if |nodes| == 1 then next else Head(nodes[1]), more, k, n, l);
    } else {
      NodeSkip(nodes[0], labeled, l);
      FindSkips(EmitNode(nodes[0], labeled), more, l, k);
      AllFinds(cfg, prog, labeled, nodes[1..], next, rest, k, n, l);
    }
  }

  // ------------------------------------------------------------------------
  // The whole program.

  lemma {:induction false} KeepHolds(s: seq<ElemId>, which: set<ElemId>, x: ElemId)
    requires x in s && x in which
    ensures x in Keep(s, which)
  {
    if x != s[0] {
      KeepHolds(s[1..], which, x);
    }
  }

  /** Every labelled block of the tree has its label in the program. */
  lemma LabelsPrinted(nodes: seq<Node>, labeled: set<ElemId>, l: ElemId)
    requires l in labeled && l in AllBlocks(nodes)
    ensures Enter(EmitAll(nodes, labeled), l).Some?
  {
    KeepHolds(AllBlocks(nodes), labeled, l);
    EmitAllConserves(nodes, labeled);
    FindsLabels(EmitAll(nodes, labeled), l, End);
  }

  lemma {:induction false} AllGotosGood(cfg: Cfg, nodes: seq<Node>, labeled: set<ElemId>, n: int)
    requires AllFit(cfg, nodes, None) && AllTargets(nodes) <= labeled && forall l :: l in labeled ==> l in AllBlocks(nodes)
    ensures GotosGood(cfg, EmitAll(nodes, labeled), labeled, n)
    decreases n
  {
    var prog := EmitAll(nodes, labeled);
    if n >= 0 {
      AllGotosGood(cfg, nodes, labeled, n - 1);
    }
    forall l | l in labeled
      ensures Enter(prog, l).Some? && Good(cfg, prog, Enter(prog, l).value, l, n)
    {
      LabelsPrinted(nodes, labeled, l);
      if n >= 0 {
        AllFinds(cfg, prog, labeled, nodes, None, [], End, n, l);
        assert prog + [] == prog;
      }
    }
  }

  /** The printed program runs exactly the blocks of the graph, whatever the branches do. */
  lemma PrintedProgramFollowsGraph(cfg: Cfg, nodes: seq<Node>, labeled: set<ElemId>, os: seq<bool>)
    requires AllFit(cfg, nodes, None) && AllTargets(nodes) <= labeled && forall l :: l in labeled ==> l in AllBlocks(nodes)
    ensures HeadOf(nodes).Some?
    ensures var prog := EmitAll(nodes, labeled);
      Does(cfg, prog, Then(prog, End), None, os, CfgRun(cfg, HeadOf(nodes).value, os))
  {
    var prog := EmitAll(nodes, labeled);
    AllGotosGood(cfg, nodes, labeled, |os| - 1);
    AllNodesGood(cfg, prog, labeled, nodes, None, [], End, |os|);
    assert prog + [] == prog;
  }
}
