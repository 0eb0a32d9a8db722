/** The statements the decompiler prints (dis86/src/decompile/ast.rs) and what running them does. */
module CSyntax {
  import opened Wrappers
  import opened ControlFlow
  import opened Ownership

  /** The branch condition computed by block `blk`, negated when `inverted`. */
  datatype Cond = Cond(blk: ElemId, inverted: bool)

  /** `Code` stands for the statements of one basic block; labels are named after blocks. */
  datatype Stmt =
    | Label(blk: ElemId)
    | Code(blk: ElemId)
    | Goto(tgt: ElemId)
    | CondGoto(cond: Cond, tgtTrue: ElemId, tgtFalse: ElemId)
    | If(cond: Cond, thenBody: seq<Stmt>, elseBody: Else)
    | Loop(body: seq<Stmt>)

  datatype Else = NoElse | Else(stmts: seq<Stmt>)

  /** What remains to be run, innermost statement list first. */
  datatype Kont = End | Then(stmts: seq<Stmt>, rest: Kont)

  /** How a run stops: out of the function, before block `at` for want of another branch
      outcome, off the end of the function, or at a jump or condition without a meaning. */
  datatype Stop = Left | Paused(at: ElemId) | Fell | Stuck

  datatype Run = Run(blocks: seq<ElemId>, stop: Stop) {
    function After(b: ElemId): Run {
      Run([b] + blocks, stop)
    }
  }

  /** Where control arrives by a goto: after the first such label, inside whatever encloses it. */
  ghost function Find(ss: seq<Stmt>, l: ElemId, k: Kont): Option<Kont> {
    if ss == [] then None
    else
      var here := match ss[0]
        case Label(b) => if b == l then Some(Then(ss[1..], k)) else None
        case If(_, t, e) =>
          var inThen := Find(t, l, Then(ss[1..], k));
          if inThen.None? && e.Else? then Find(e.stmts, l, Then(ss[1..], k)) else inThen
        case Loop(body) => Find(body, l, Then(ss, k))
        case _ => None;
      if here.Some? then here else Find(ss[1..], l, k)
  }

  ghost function Enter(prog: seq<Stmt>, l: ElemId): Option<Kont> {
    Find(prog, l, End)
  }

  /** A condition has a value only right after its block ran. */
  ghost function Holds(c: Cond, last: Option<(ElemId, bool)>): Option<bool> {
    if last.Some? && last.value.0 == c.blk then Some(last.value.1 != c.inverted) else None
  }

  /** One step that runs no block: where control is next. */
  ghost function Silent(prog: seq<Stmt>, k: Kont, last: Option<(ElemId, bool)>): Option<Kont> {
    if k.End? then None
    else if k.stmts == [] then Some(k.rest)
    else
      var after := Then(k.stmts[1..], k.rest);
      match k.stmts[0]
      case Label(_) => Some(after)
      case Code(_) => None
      case Goto(l) => Enter(prog, l)
      case CondGoto(c, t, f) =>
        var v := Holds(c, last);
        if v.None? then None else Enter(prog, if v.value then t else f)
      case If(c, t, e) =>
        var v := Holds(c, last);
        if v.None? then None
        else Some(Then(if v.value then t else if e.Else? then e.stmts else [], after))
      case Loop(body) => Some(Then(body, k))
  }

  /** Run for at most `fuel` steps; each block run takes one outcome from `os`. */
  ghost function Exec(cfg: Cfg, prog: seq<Stmt>, k: Kont, last: Option<(ElemId, bool)>, os: seq<bool>, fuel: nat): Option<Run>
    decreases fuel
  {
    if fuel == 0 then None
    else if k.Then? && k.stmts != [] && k.stmts[0].Code? then
      var b := k.stmts[0].blk;
      if os == [] then Some(Run([], Paused(b)))
      else if !Live(cfg, b) then Some(Run([], Stuck))
      else if cfg[b].value == [] then Some(Run([b], Left))
      else
        var r := Exec(cfg, prog, Then(k.stmts[1..], k.rest), Some((b, os[0])), os[1..], fuel - 1);
        if r.None? then None else Some(r.value.After(b))
    else
      var next := Silent(prog, k, last);
      if next.Some? then Exec(cfg, prog, next.value, last, os, fuel - 1)
      else Some(Run([], if k.End? then Fell else Stuck))
  }

  /** Whether the program, run from `k`, does `run` and stops. */
  ghost predicate Does(cfg: Cfg, prog: seq<Stmt>, k: Kont, last: Option<(ElemId, bool)>, os: seq<bool>, run: Run) {
    exists fuel: nat :: Exec(cfg, prog, k, last, os, fuel) == Some(run)
  }

  ghost function Successor(cfg: Cfg, b: ElemId, taken: bool): ElemId
    requires Live(cfg, b) && cfg[b].value != []
  {
    if |cfg[b].value| == 1 || taken then cfg[b].value[0] else cfg[b].value[1]
  }

  /** The blocks the graph itself runs from `b` under the outcomes `os`. */
  ghost function CfgRun(cfg: Cfg, b: ElemId, os: seq<bool>): Run
    decreases |os|
  {
    if os == [] then Run([], Paused(b))
    else if !Live(cfg, b) then Run([], Stuck)
    else if cfg[b].value == [] then Run([b], Left)
    else CfgRun(cfg, Successor(cfg, b, os[0]), os[1..]).After(b)
  }

  /** For up to `n` outcomes, running from `k` is running the graph from `b`. */
  ghost predicate Good(cfg: Cfg, prog: seq<Stmt>, k: Kont, b: ElemId, n: int) {
    forall last, os :: |os| <= n ==> Does(cfg, prog, k, last, os, CfgRun(cfg, b, os))
  }

  // ------------------------------------------------------------------------

  /** A run's result does not depend on how much fuel it was given. */
  lemma {:induction false} ExecMore(cfg: Cfg, prog: seq<Stmt>, k: Kont, last: Option<(ElemId, bool)>, os: seq<bool>, fuel: nat, more: nat)
    requires Exec(cfg, prog, k, last, os, fuel).Some? && fuel <= more
    ensures Exec(cfg, prog, k, last, os, more) == Exec(cfg, prog, k, last, os, fuel)
    decreases fuel
  {
    if k.Then? && k.stmts != [] && k.stmts[0].Code? {
      var b := k.stmts[0].blk;
      if os != [] && Live(cfg, b) && cfg[b].value != [] {
        ExecMore(cfg, prog, Then(k.stmts[1..], k.rest), Some((b, os[0])), os[1..], fuel - 1, more - 1);
      }
    } else {
      var next := Silent(prog, k, last);
      if next.Some? {
        ExecMore(cfg, prog, next.value, last, os, fuel - 1, more - 1);
      }
    }
  }

  /** So a program does one thing only. */
  lemma DoesOneThing(cfg: Cfg, prog: seq<Stmt>, k: Kont, last: Option<(ElemId, bool)>, os: seq<bool>, r1: Run, r2: Run)
    requires Does(cfg, prog, k, last, os, r1) && Does(cfg, prog, k, last, os, r2)
    ensures r1 == r2
  {
    var f1: nat :| Exec(cfg, prog, k, last, os, f1) == Some(r1);
    var f2: nat :| Exec(cfg, prog, k, last, os, f2) == Some(r2);
    ExecMore(cfg, prog, k, last, os, f1, f1 + f2);
    ExecMore(cfg, prog, k, last, os, f2, f1 + f2);
  }

  lemma SilentDoes(cfg: Cfg, prog: seq<Stmt>, k: Kont, last: Option<(ElemId, bool)>, os: seq<bool>, run: Run)
    requires Silent(prog, k, last).Some? && Does(cfg, prog, Silent(prog, k, last).value, last, os, run)
    ensures Does(cfg, prog, k, last, os, run)
  {
    var fuel: nat :| Exec(cfg, prog, Silent(prog, k, last).value, last, os, fuel) == Some(run);
    assert Exec(cfg, prog, k, last, os, fuel + 1) == Some(run);
  }

  lemma SilentGood(cfg: Cfg, prog: seq<Stmt>, k: Kont, k': Kont, b: ElemId, n: int)
    requires forall last :: Silent(prog, k, last) == Some(k')
    requires Good(cfg, prog, k', b, n)
    ensures Good(cfg, prog, k, b, n)
  {
    forall last, os | |os| <= n
      ensures Does(cfg, prog, k, last, os, CfgRun(cfg, b, os))
    {
      SilentDoes(cfg, prog, k, last, os, CfgRun(cfg, b, os));
    }
  }

  /** Running a block, when what follows is right for each of its outcomes. */
  lemma CodeGood(cfg: Cfg, prog: seq<Stmt>, ss: seq<Stmt>, k: Kont, b: ElemId, n: int)
    requires Live(cfg, b)
    requires cfg[b].value != [] ==> forall taken, os :: |os| <= n - 1 ==>
      Does(cfg, prog, Then(ss, k), Some((b, taken)), os, CfgRun(cfg, Successor(cfg, b, taken), os))
    ensures Good(cfg, prog, Then([Code(b)] + ss, k), b, n)
  {
    var at := Then([Code(b)] + ss, k);
    assert ([Code(b)] + ss)[1..] == ss;
    forall last, os | |os| <= n
      ensures Does(cfg, prog, at, last, os, CfgRun(cfg, b, os))
    {
      if os == [] || cfg[b].value == [] {
        assert Exec(cfg, prog, at, last, os, 1) == Some(CfgRun(cfg, b, os));
      } else {
        var run := CfgRun(cfg, Successor(cfg, b, os[0]), os[1..]);
        var fuel: nat :| Exec(cfg, prog, Then(ss, k), Some((b, os[0])), os[1..], fuel) == Some(run);
        assert Exec(cfg, prog, at, last, os, fuel + 1) == Some(CfgRun(cfg, b, os));
      }
    }
  }
}
