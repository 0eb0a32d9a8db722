/** The element arena of the control-flow structurer
    (dis86/src/decompile/control_flow.rs): elements are named by their index,
    and bodies hold sets of such indices. */
module ControlFlow {
  import opened Wrappers

  type ElemId = nat

  /** The blocks of a function: the exits of each live block, `None` for a pruned one. */
  type Cfg = seq<Option<seq<ElemId>>>

  datatype Jump =
    | NoJump
    | UncondFallthrough
    | UncondTarget(tgt: ElemId)
    | CondTargetTrue(tgt: ElemId)
    | CondTargetFalse(tgt: ElemId)
    | CondTargetBoth(tgtTrue: ElemId, tgtFalse: ElemId)
    | Table(tgts: seq<ElemId>)

  datatype Body = Body(entry: ElemId, elems: set<ElemId>, remap: map<ElemId, ElemId>, layout: seq<ElemId>) {
    function Remap(id: ElemId): ElemId {
      if id in remap then remap[id] else id
    }

    function LookupFromId(id: ElemId): Option<ElemId> {
      if Remap(id) in elems then Some(Remap(id)) else None
    }

    /** The exits of a member with this body's renaming applied. */
    function Exits(node: ElemId, data: Arena): Option<seq<ElemId>>
      requires node in elems ==> Present(data, node)
    {
      if node !in elems then None
      else Some(seq(|data[node].value.exits|, i requires 0 <= i < |data[node].value.exits| => Remap(data[node].value.exits[i])))
    }
  }

  function NewBody(entry: ElemId): Body {
    Body(entry, {}, map[], [])
  }

  datatype Detail =
    | BasicBlock(labeled: bool)
    | Loop(backedges: set<ElemId>, body: Body)
    | If(inverted: bool, thenBody: Body, elseBody: Option<Body>)

  /** `exits` of an `If` is the single join element. */
  datatype Elem = Elem(entry: ElemId, exits: seq<ElemId>, jump: Option<Jump>, detail: Detail)

  /** The element leads where it led, whatever was folded or laid out below it. */
  ghost predicate SameKind(e: Elem, e': Elem) {
    && e'.entry == e.entry && e'.exits == e.exits
    && match e.detail
       case BasicBlock(_) => e'.detail.BasicBlock?
       case Loop(backedges, _) => e'.detail.Loop? && e'.detail.backedges == backedges
       case If(inverted, _, _) => e'.detail.If? && e'.detail.inverted == inverted
  }

  function BlockElem(b: ElemId, exits: seq<ElemId>): Elem {
    Elem(b, exits, None, BasicBlock(false))
  }

  /** A slot is `None` while its element is checked out, or when the block was pruned. */
  type Arena = seq<Option<Elem>>

  predicate Present(data: Arena, id: ElemId) {
    id < |data| && data[id].Some?
  }

  ghost predicate Distinct(s: seq<ElemId>) {
    forall i, j :: 0 <= i < j < |s| ==> s[i] != s[j]
  }
}
