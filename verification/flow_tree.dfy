/** The laid out structure read as a tree, and the statements printed for it. */
module FlowTree {
  import opened Wrappers
  import opened ControlFlow
  import opened Ownership
  import opened CSyntax

  /** Jump targets are the labels they resolve to. */
  datatype Node =
    | BlockNode(blk: ElemId, jump: Jump)
    | LoopNode(id: ElemId, body: seq<Node>, jump: Jump)
    | IfNode(id: ElemId, entry: ElemId, inverted: bool, exit: ElemId, thenBody: seq<Node>, elseBody: Arm, jump: Jump)

  datatype Arm = NoArm | Arm(nodes: seq<Node>)

  /** The block a node starts with. */
  ghost function Head(node: Node): Option<ElemId> {
    match node
    case BlockNode(b, _) => Some(b)
    case LoopNode(_, body, _) => if body == [] then None else Head(body[0])
    case IfNode(_, entry, _, _, _, _, _) => Some(entry)
  }

  ghost function HeadOf(nodes: seq<Node>): Option<ElemId> {
    if nodes == [] then None else Head(nodes[0])
  }

  /** The blocks of a node, in the order they are printed. */
  ghost function Blocks(node: Node): seq<ElemId> {
    match node
    case BlockNode(b, _) => [b]
    case LoopNode(_, body, _) => AllBlocks(body)
    case IfNode(_, entry, _, _, t, e, _) => [entry] + AllBlocks(t) + if e.Arm? then AllBlocks(e.nodes) else []
  }

  ghost function AllBlocks(nodes: seq<Node>): seq<ElemId> {
    if nodes == [] then [] else Blocks(nodes[0]) + AllBlocks(nodes[1..])
  }

  ghost function IdOf(node: Node): ElemId {
    if node.BlockNode? then node.blk else node.id
  }

  /** The nodes in the order they are visited, each with its depth. */
  ghost function Flow(node: Node, depth: nat): seq<(ElemId, nat)> {
    [(IdOf(node), depth)] +
    match node
    case BlockNode(_, _) => []
    case LoopNode(_, body, _) => FlowAll(body, depth + 1)
    case IfNode(_, _, _, _, t, e, _) => FlowAll(t, depth + 1) + if e.Arm? then FlowAll(e.nodes, depth + 1) else []
  }

  ghost function FlowAll(nodes: seq<Node>, depth: nat): seq<(ElemId, nat)> {
    if nodes == [] then [] else Flow(nodes[0], depth) + FlowAll(nodes[1..], depth)
  }

  function JumpTargets(jump: Jump): set<ElemId> {
    match jump
    case UncondTarget(t) => {t}
    case CondTargetTrue(t) => {t}
    case CondTargetFalse(t) => {t}
    case CondTargetBoth(t, f) => {t, f}
    case Table(ts) => set t | t in ts
    case _ => {}
  }

  ghost function Targets(node: Node): set<ElemId> {
    JumpTargets(node.jump) +
    match node
    case BlockNode(_, _) => {}
    case LoopNode(_, body, _) => AllTargets(body)
    case IfNode(_, _, _, _, t, e, _) => AllTargets(t) + if e.Arm? then AllTargets(e.nodes) else {}
  }

  ghost function AllTargets(nodes: seq<Node>): set<ElemId> {
    if nodes == [] then {} else Targets(nodes[0]) + AllTargets(nodes[1..])
  }

  /** The jump leads to `x`: by a goto, or by `x` being what is printed next. */
  ghost predicate LeadsTo(jump: Jump, x: ElemId, next: Option<ElemId>) {
    jump == UncondTarget(x) || (jump == UncondFallthrough && next == Some(x))
  }

  ghost predicate BlockFits(exits: seq<ElemId>, jump: Jump, next: Option<ElemId>) {
    match |exits|
    case 0 => jump == NoJump
    case 1 => LeadsTo(jump, exits[0], next)
    case 2 =>
      || jump == CondTargetBoth(exits[0], exits[1])
      || (jump == CondTargetTrue(exits[0]) && next == Some(exits[1]))
      || (jump == CondTargetFalse(exits[1]) && next == Some(exits[0]))
    case _ => false
  }

  /** Node by node, every edge of the graph is a goto to its block or leads to what is printed
      next, where `next` is the block printed after the whole node. */
  ghost predicate Fits(cfg: Cfg, node: Node, next: Option<ElemId>) {
    match node
    case BlockNode(b, jump) => Live(cfg, b) && BlockFits(cfg[b].value, jump, next)
    case LoopNode(_, body, jump) => jump == NoJump && AllFit(cfg, body, None)
    case IfNode(_, entry, inverted, exit, t, e, jump) =>
      && Live(cfg, entry) && |cfg[entry].value| == 2
      && LeadsTo(jump, exit, next)
      && AllFit(cfg, t, Some(exit)) && HeadOf(t) == Some(BranchExit(cfg, entry, !inverted))
      && (if e.NoArm? then exit == BranchExit(cfg, entry, inverted)
          else AllFit(cfg, e.nodes, Some(exit)) && HeadOf(e.nodes) == Some(BranchExit(cfg, entry, inverted)))
  }

  ghost predicate AllFit(cfg: Cfg, nodes: seq<Node>, next: Option<ElemId>) {
    && nodes != []
    && Fits(cfg, nodes[0], if |nodes| == 1 then next else Head(nodes[1]))
    && (|nodes| > 1 ==> AllFit(cfg, nodes[1..], next))
  }

  // ------------------------------------------------------------------------
  // Printing.

  function EmitHeader(b: ElemId, labeled: set<ElemId>): seq<Stmt> {
    if b in labeled then [Label(b), Code(b)] else [Code(b)]
  }

  function EmitJump(b: ElemId, jump: Jump): seq<Stmt> {
    match jump
    case UncondTarget(t) => [Goto(t)]
    case CondTargetTrue(t) => [Stmt.If(Cond(b, false), [Goto(t)], NoElse)]
    case CondTargetFalse(t) => [Stmt.If(Cond(b, true), [Goto(t)], NoElse)]
    case CondTargetBoth(t, f) => [CondGoto(Cond(b, false), t, f)]
    case _ => []
  }

  function EmitNode(node: Node, labeled: set<ElemId>): seq<Stmt> {
    match node
    case BlockNode(b, jump) => EmitHeader(b, labeled) + EmitJump(b, jump)
    case LoopNode(id, body, jump) => [Stmt.Loop(EmitAll(body, labeled))] + EmitJump(id, jump)
    case IfNode(_, entry, inverted, _, t, e, jump) =>
      var other := if e.Arm? then Else(EmitAll(e.nodes, labeled)) else NoElse;
      EmitHeader(entry, labeled) + [Stmt.If(Cond(entry, inverted), EmitAll(t, labeled), other)] + EmitJump(entry, jump)
  }

  function EmitAll(nodes: seq<Node>, labeled: set<ElemId>): seq<Stmt> {
    if nodes == [] then [] else EmitNode(nodes[0], labeled) + EmitAll(nodes[1..], labeled)
  }

  /** The blocks whose code a statement holds, in order. */
  ghost function CodeIn(s: Stmt): seq<ElemId> {
    match s
    case Code(b) => [b]
    case If(_, t, e) => CodeOf(t) + if e.Else? then CodeOf(e.stmts) else []
    case Loop(body) => CodeOf(body)
    case _ => []
  }

  ghost function CodeOf(ss: seq<Stmt>): seq<ElemId> {
    if ss == [] then [] else CodeIn(ss[0]) + CodeOf(ss[1..])
  }

  ghost function LabelsIn(s: Stmt): seq<ElemId> {
    match s
    case Label(b) => [b]
    case If(_, t, e) => LabelsOf(t) + if e.Else? then LabelsOf(e.stmts) else []
    case Loop(body) => LabelsOf(body)
    case _ => []
  }

  ghost function LabelsOf(ss: seq<Stmt>): seq<ElemId> {
    if ss == [] then [] else LabelsIn(ss[0]) + LabelsOf(ss[1..])
  }

  ghost function KeepOne(x: ElemId, s: set<ElemId>): seq<ElemId> {
    if x in s then [x] else []
  }

  ghost function Keep(s: seq<ElemId>, which: set<ElemId>): seq<ElemId> {
    if s == [] then [] else KeepOne(s[0], which) + Keep(s[1..], which)
  }

  lemma Assoc(x: seq<ElemId>, y: seq<ElemId>, z: seq<ElemId>)
    ensures x + (y + z) == x + y + z
  {
  }

  lemma {:induction false} KeepConcat(a: seq<ElemId>, b: seq<ElemId>, s: set<ElemId>)
    ensures Keep(a + b, s) == Keep(a, s) + Keep(b, s)
  {
    if a == [] {
      assert a + b == b;
    } else {
      KeepConcat(a[1..], b, s);
      assert (a + b)[1..] == a[1..] + b && (a + b)[0] == a[0];
      Assoc(KeepOne(a[0], s), Keep(a[1..], s), Keep(b, s));
    }
  }

  lemma {:induction false} CodeOfConcat(a: seq<Stmt>, b: seq<Stmt>)
    ensures CodeOf(a + b) == CodeOf(a) + CodeOf(b)
  {
    if a == [] {
      assert a + b == b;
    } else {
      CodeOfConcat(a[1..], b);
      assert (a + b)[1..] == a[1..] + b && (a + b)[0] == a[0];
      IdsAssoc(CodeIn(a[0]), CodeOf(a[1..]), CodeOf(b));
    }
  }

  lemma IdsAssoc(x: seq<ElemId>, y: seq<ElemId>, z: seq<ElemId>)
    ensures x + (y + z) == x + y + z
  {
  }

  lemma {:induction false} LabelsOfConcat(a: seq<Stmt>, b: seq<Stmt>)
    ensures LabelsOf(a + b) == LabelsOf(a) + LabelsOf(b)
  {
    if a == [] {
      assert a + b == b;
    } else {
      LabelsOfConcat(a[1..], b);
      assert (a + b)[1..] == a[1..] + b;
      var x, y, z := LabelsIn(a[0]), LabelsOf(a[1..]), LabelsOf(b);
      assert x + (y + z) == x + y + z;
    }
  }

  lemma OneStmt(s: Stmt)
    ensures CodeOf([s]) == CodeIn(s) && LabelsOf([s]) == LabelsIn(s)
  {
    assert CodeOf([s]) == CodeIn(s) + CodeOf([]);
    assert LabelsOf([s]) == LabelsIn(s) + LabelsOf([]);
  }

  lemma Concat(a: seq<Stmt>, b: seq<Stmt>)
    ensures CodeOf(a + b) == CodeOf(a) + CodeOf(b)
    ensures LabelsOf(a + b) == LabelsOf(a) + LabelsOf(b)
  {
    CodeOfConcat(a, b);
    LabelsOfConcat(a, b);
  }

  lemma JumpHoldsNothing(b: ElemId, jump: Jump)
    ensures CodeOf(EmitJump(b, jump)) == [] && LabelsOf(EmitJump(b, jump)) == []
  {
    match jump {
      case UncondTarget(t) => OneStmt(Goto(t));
      case CondTargetTrue(t) =>
        OneStmt(Goto(t));
        OneStmt(Stmt.If(Cond(b, false), [Goto(t)], NoElse));
      case CondTargetFalse(t) =>
        OneStmt(Goto(t));
        OneStmt(Stmt.If(Cond(b, true), [Goto(t)], NoElse));
      case CondTargetBoth(t, f) => OneStmt(CondGoto(Cond(b, false), t, f));
      case _ =>
    }
  }

  lemma HeaderHolds(b: ElemId, labeled: set<ElemId>)
    ensures CodeOf(EmitHeader(b, labeled)) == [b]
    ensures LabelsOf(EmitHeader(b, labeled)) == KeepOne(b, labeled)
  {
    OneStmt(Code(b));
    OneStmt(Label(b));
    if b in labeled {
      assert [Label(b), Code(b)] == [Label(b)] + [Code(b)];
      Concat([Label(b)], [Code(b)]);
    }
  }

  lemma IfHolds(c: Cond, t: seq<Stmt>, e: Else)
    ensures CodeOf([Stmt.If(c, t, e)]) == CodeOf(t) + if e.Else? then CodeOf(e.stmts) else []
    ensures LabelsOf([Stmt.If(c, t, e)]) == LabelsOf(t) + if e.Else? then LabelsOf(e.stmts) else []
  {
    OneStmt(Stmt.If(c, t, e));
  }

  /** Printing is conservative: every block's code is printed as often as the block is in the
      tree and in the same order, and labels are printed before exactly the labelled ones. */
  lemma {:induction false} EmitConserves(node: Node, labeled: set<ElemId>)
    ensures CodeOf(EmitNode(node, labeled)) == Blocks(node)
    ensures LabelsOf(EmitNode(node, labeled)) == Keep(Blocks(node), labeled)
  {
    match node {
      case BlockNode(b, jump) =>
        HeaderHolds(b, labeled);
        JumpHoldsNothing(b, jump);
        Concat(EmitHeader(b, labeled), EmitJump(b, jump));
        KeepSingle(b, labeled);
      case LoopNode(id, body, jump) =>
        EmitAllConserves(body, labeled);
        JumpHoldsNothing(id, jump);
        OneStmt(Stmt.Loop(EmitAll(body, labeled)));
        Concat([Stmt.Loop(EmitAll(body, labeled))], EmitJump(id, jump));
      case IfNode(_, entry, inverted, _, t, e, jump) =>
        var other := if e.Arm? then Else(EmitAll(e.nodes, labeled)) else NoElse;
        EmitAllConserves(t, labeled);
        if e.Arm? {
          EmitAllConserves(e.nodes, labeled);
        }
        IfHolds(Cond(entry, inverted), EmitAll(t, labeled), other);
        HeaderHolds(entry, labeled);
        JumpHoldsNothing(entry, jump);
        IfConserves(entry, EmitHeader(entry, labeled), [Stmt.If(Cond(entry, inverted), EmitAll(t, labeled), other)], EmitJump(entry, jump),
                    AllBlocks(t), if e.Arm? then AllBlocks(e.nodes) else [], labeled);
    }
  }

  lemma KeepSingle(b: ElemId, s: set<ElemId>)
    ensures Keep([b], s) == KeepOne(b, s)
  {
    assert Keep([b], s) == KeepOne(b, s) + Keep([], s);
  }

  lemma IfConserves(b: ElemId, h: seq<Stmt>, s: seq<Stmt>, j: seq<Stmt>, t: seq<ElemId>, e: seq<ElemId>, labeled: set<ElemId>)
    requires CodeOf(h) == [b] && LabelsOf(h) == KeepOne(b, labeled)
    requires CodeOf(s) == t + e && LabelsOf(s) == Keep(t, labeled) + Keep(e, labeled)
    requires CodeOf(j) == [] && LabelsOf(j) == []
    ensures CodeOf(h + s + j) == [b] + t + e && LabelsOf(h + s + j) == Keep([b] + t + e, labeled)
  {
    Concat(h + s, j);
    Concat(h, s);
    Assoc([b], t, e);
    assert LabelsOf(h + s + j) == KeepOne(b, labeled) + (Keep(t, labeled) + Keep(e, labeled));
    KeepConcat([b], t + e, labeled);
    KeepConcat(t, e, labeled);
    KeepSingle(b, labeled);
  }

  lemma {:induction false} EmitAllConserves(nodes: seq<Node>, labeled: set<ElemId>)
    ensures CodeOf(EmitAll(nodes, labeled)) == AllBlocks(nodes)
    ensures LabelsOf(EmitAll(nodes, labeled)) == Keep(AllBlocks(nodes), labeled)
  {
    if nodes != [] {
      EmitConserves(nodes[0], labeled);
      EmitAllConserves(nodes[1..], labeled);
      Concat(EmitNode(nodes[0], labeled), EmitAll(nodes[1..], labeled));
      KeepConcat(Blocks(nodes[0]), AllBlocks(nodes[1..]), labeled);
    }
  }

  // ------------------------------------------------------------------------
  // Gotos.

  ghost function GotosIn(s: Stmt): set<ElemId> {
    match s
    case Goto(t) => {t}
    case CondGoto(_, t, f) => {t, f}
    case If(_, t, e) => GotosOf(t) + if e.Else? then GotosOf(e.stmts) else {}
    case Loop(body) => GotosOf(body)
    case _ => {}
  }

  ghost function GotosOf(ss: seq<Stmt>): set<ElemId> {
    if ss == [] then {} else GotosIn(ss[0]) + GotosOf(ss[1..])
  }

  lemma {:induction false} GotosConcat(a: seq<Stmt>, b: seq<Stmt>)
    ensures GotosOf(a + b) == GotosOf(a) + GotosOf(b)
  {
    if a == [] {
      assert a + b == b;
    } else {
      GotosConcat(a[1..], b);
      assert (a + b)[1..] == a[1..] + b;
    }
  }

  lemma OneGoto(s: Stmt)
    ensures GotosOf([s]) == GotosIn(s)
  {
    assert GotosOf([s]) == GotosIn(s) + GotosOf([]);
  }

  lemma HeaderGotos(b: ElemId, labeled: set<ElemId>)
    ensures GotosOf(EmitHeader(b, labeled)) == {}
  {
    OneGoto(Code(b));
    assert [Label(b), Code(b)][1..] == [Code(b)];
  }

  lemma JumpGotos(b: ElemId, jump: Jump)
    requires !jump.Table?
    ensures GotosOf(EmitJump(b, jump)) == JumpTargets(jump)
  {
    match jump {
      case UncondTarget(t) => OneGoto(Goto(t));
      case CondTargetTrue(t) =>
        OneGoto(Goto(t));
        OneGoto(Stmt.If(Cond(b, false), [Goto(t)], NoElse));
      case CondTargetFalse(t) =>
        OneGoto(Goto(t));
        OneGoto(Stmt.If(Cond(b, true), [Goto(t)], NoElse));
      case CondTargetBoth(t, f) => OneGoto(CondGoto(Cond(b, false), t, f));
      case _ =>
    }
  }

  /** The gotos printed are those the jumps of the tree ask for. */
  lemma {:induction false} EmitGotos(cfg: Cfg, node: Node, next: Option<ElemId>, labeled: set<ElemId>)
    requires Fits(cfg, node, next)
    ensures GotosOf(EmitNode(node, labeled)) == Targets(node)
  {
    match node {
      case BlockNode(b, jump) =>
        HeaderGotos(b, labeled);
        JumpGotos(b, jump);
        GotosConcat(EmitHeader(b, labeled), EmitJump(b, jump));
      case LoopNode(id, body, jump) =>
        EmitAllGotos(cfg, body, None, labeled);
        OneGoto(Stmt.Loop(EmitAll(body, labeled)));
        JumpGotos(id, jump);
        GotosConcat([Stmt.Loop(EmitAll(body, labeled))], EmitJump(id, jump));
      case IfNode(_, entry, inverted, exit, t, e, jump) =>
        EmitAllGotos(cfg, t, Some(exit), labeled);
        if e.Arm? {
          EmitAllGotos(cfg, e.nodes, Some(exit), labeled);
        }
        IfGotos(node, labeled);
    }
  }

  lemma IfGotos(node: Node, labeled: set<ElemId>)
    requires node.IfNode? && !node.jump.Table? && GotosOf(EmitAll(node.thenBody, labeled)) == AllTargets(node.thenBody)
    requires node.elseBody.Arm? ==> GotosOf(EmitAll(node.elseBody.nodes, labeled)) == AllTargets(node.elseBody.nodes)
    ensures GotosOf(EmitNode(node, labeled)) == Targets(node)
  {
    var t, e := node.thenBody, node.elseBody;
    var other := if e.Arm? then Else(EmitAll(e.nodes, labeled)) else NoElse;
    var s := Stmt.If(Cond(node.entry, node.inverted), EmitAll(t, labeled), other);
    OneGoto(s);
    HeaderGotos(node.entry, labeled);
    JumpGotos(node.entry, node.jump);
    GotosConcat(EmitHeader(node.entry, labeled) + [s], EmitJump(node.entry, node.jump));
    GotosConcat(EmitHeader(node.entry, labeled), [s]);
  }

  lemma {:induction false} EmitAllGotos(cfg: Cfg, nodes: seq<Node>, next: Option<ElemId>, labeled: set<ElemId>)
    requires AllFit(cfg, nodes, next)
    ensures GotosOf(EmitAll(nodes, labeled)) == AllTargets(nodes)
  {
    EmitGotos(cfg, nodes[0], if |nodes| == 1 then next else Head(nodes[1]), labeled);
    if |nodes| > 1 {
      EmitAllGotos(cfg, nodes[1..], next, labeled);
    }
    GotosConcat(EmitNode(nodes[0], labeled), EmitAll(nodes[1..], labeled));
  }
}
