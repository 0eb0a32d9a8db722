/** What folding makes of a body, step by step and at every depth: names stay good, arms run straight. */
module Levels {
  import opened Wrappers
  import opened ControlFlow
  import opened Ownership
  import opened Dfs
  import opened Structure
  import opened Steps
  import opened Names
  import opened Arms
  import opened LoopEntries

  // ------------------------------------------------------------------------
  // While loops are folded.

  /** A block or a loop, with exits to blocks. */
  ghost predicate PlainAt(cfg: Cfg, g: seq<Meta>, x: ElemId) {
    && Known(g, x) && !g[x].made.detail.If?
    && forall i :: 0 <= i < |g[x].made.exits| ==> g[x].made.exits[i] < |cfg|
  }

  ghost predicate AllPlain(cfg: Cfg, g: seq<Meta>, s: set<ElemId>) {
    forall x {:trigger PlainAt(cfg, g, x)} :: x in s ==> PlainAt(cfg, g, x)
  }

  ghost predicate LoopTidy(cfg: Cfg, g: seq<Meta>, exclude: set<ElemId>, b: Body) {
    && AllPlain(cfg, g, b.elems) && KeysGood(g, b)
    && forall k {:trigger b.remap[k]} :: k in b.remap && b.remap[k] in b.elems ==> NotReached(g, exclude, b, b.remap[k])
  }

  /** What the fold did to the body. */
  lemma FoldOf(g: seq<Meta>, exclude: set<ElemId>, b: Body, b': Body, id: ElemId)
    requires Stepped(g, exclude, b, b', id)
    ensures b' == Fold(b, g[id].entry, Members(g, id), id) && Members(g, id) <= b.elems
    ensures forall k :: k in b.remap ==> k < id && b.remap[k] < id && k !in b.elems
  {
    StepIs(g, exclude, b, b', id);
  }

  lemma NewLoopPlain(cfg: Cfg, g: seq<Meta>, exclude: set<ElemId>, b: Body, b': Body, id: ElemId)
    requires Stepped(g, exclude, b, b', id) && AllPlain(cfg, g, b.elems) && Known(g, id)
    ensures PlainAt(cfg, g, id)
  {
    FoldOf(g, exclude, b, b', id);
    forall i | 0 <= i < |g[id].made.exits|
      ensures g[id].made.exits[i] < |cfg|
    {
      var q, j := ThroughLoop(g, exclude, b, b', id, g[id].made.exits[i]);
      assert q[|q| - 1] in q;
      assert PlainAt(cfg, g, q[|q| - 1]);
    }
  }

  /** The entry of the loop is no folded loop that is still a member. */
  lemma EntryIsNoValue(cfg: Cfg, g: seq<Meta>, exclude: set<ElemId>, b: Body, b': Body, id: ElemId, k: ElemId)
    requires Stepped(g, exclude, b, b', id) && LoopTidy(cfg, g, exclude, b) && k in b.remap
    ensures b.remap[k] != g[id].entry && k != g[id].entry
  {
    StepEnds(g, exclude, b, b', id);
    FoldOf(g, exclude, b, b', id);
    EntryIsReached(g, exclude, b, b', id);
    assert b.remap[k] in b.elems ==> NotReached(g, exclude, b, b.remap[k]);
  }

  lemma EntryIsReached(g: seq<Meta>, exclude: set<ElemId>, b: Body, b': Body, id: ElemId)
    requires Stepped(g, exclude, b, b', id)
    ensures !NotReached(g, exclude, b, g[id].entry)
  {
    var done := StepFacts(g, exclude, b, b', id);
    var w :| w in done && Closes(GraphOf(g, exclude, b), w, g[id].entry);
  }

  lemma LoopKeysGood(cfg: Cfg, g: seq<Meta>, exclude: set<ElemId>, b: Body, b': Body, id: ElemId)
    requires Sound(cfg, g) && Stepped(g, exclude, b, b', id) && LoopTidy(cfg, g, exclude, b) && Named(g, b) && Known(g, id)
    ensures KeysGood(g, b')
  {
    var t := g[id].entry;
    FoldOf(g, exclude, b, b', id);
    StepEnds(g, exclude, b, b', id);
    EntryHead(cfg, g, id);
    forall k | k in b'.remap
      ensures Good(g, b', k) && b'.remap[k] !in b'.remap
    {
      if k == t {
        NewKeyGood(cfg, g, exclude, b, b', id);
      } else {
        EntryIsNoValue(cfg, g, exclude, b, b', id, k);
        OldKeyGood(cfg, g, exclude, b, b', id, k);
      }
    }
  }

  lemma NewKeyGood(cfg: Cfg, g: seq<Meta>, exclude: set<ElemId>, b: Body, b': Body, id: ElemId)
    requires Sound(cfg, g) && Stepped(g, exclude, b, b', id) && Named(g, b) && Known(g, id)
    ensures Good(g, b', g[id].entry)
  {
    var t := g[id].entry;
    FoldOf(g, exclude, b, b', id);
    StepEnds(g, exclude, b, b', id);
    forall y | y in b'.elems && SameHead(g, t, y)
      ensures b'.Remap(t) == y
    {
      if y != id {
        OneMemberPerHead(g, b.elems, t, y, cfg);
      }
    }
  }

  lemma OldKeyGood(cfg: Cfg, g: seq<Meta>, exclude: set<ElemId>, b: Body, b': Body, id: ElemId, k: ElemId)
    requires Sound(cfg, g) && Stepped(g, exclude, b, b', id) && LoopTidy(cfg, g, exclude, b) && Named(g, b) && Known(g, id)
    requires k in b.remap
    ensures Good(g, b', k)
  {
    var t := g[id].entry;
    FoldOf(g, exclude, b, b', id);
    StepEnds(g, exclude, b, b', id);
    EntryIsNoValue(cfg, g, exclude, b, b', id, k);
    EntryHead(cfg, g, id);
    assert Good(g, b, k);
    forall y | y in b'.elems && SameHead(g, k, y)
      ensures b'.Remap(k) == y
    {
      assert y == id ==> SameHead(g, k, t);
    }
  }

  lemma LoopStepTidy(cfg: Cfg, g: seq<Meta>, exclude: set<ElemId>, b: Body, b': Body, id: ElemId)
    requires Sound(cfg, g) && Stepped(g, exclude, b, b', id) && LoopTidy(cfg, g, exclude, b) && Named(g, b) && Named(g, b')
    ensures LoopTidy(cfg, g, exclude, b')
  {
    FoldOf(g, exclude, b, b', id);
    StepEnds(g, exclude, b, b', id);
    assert Known(g, id);
    NewLoopPlain(cfg, g, exclude, b, b', id);
    LoopKeysGood(cfg, g, exclude, b, b', id);
    forall x | x in b'.elems
      ensures PlainAt(cfg, g, x)
    {
      assert x != id ==> PlainAt(cfg, g, x);
    }
    forall k | k in b'.remap && b'.remap[k] in b'.elems
      ensures NotReached(g, exclude, b', b'.remap[k])
    {
      if k == g[id].entry {
        NewLoopNotReached(g, exclude, b, b', id);
      } else {
        assert Renames(g, k, b.remap[k]);
        OldStaysNotReached(g, exclude, b, b', id, b.remap[k]);
      }
    }
  }

  /** Before anything is folded in it: blocks and loops by their own names. */
  ghost predicate StartsPlain(cfg: Cfg, g: seq<Meta>, b: Body) {
    b.remap == map[] && AllPlain(cfg, g, b.elems)
  }

  lemma HistoryNamed(g: seq<Meta>, b0: Body, exclude: set<ElemId>, r: Body, h: History)
    requires FoldsVia(g, b0, exclude, r, h)
    ensures forall i :: 0 <= i < |h.loops| ==> Named(g, h.loops[i])
    ensures forall i :: 0 <= i < |h.ifs| ==> Named(g, h.ifs[i])
  {
    forall i | 0 <= i < |h.ifs|
      ensures Named(g, h.ifs[i])
    {
      if i < |h.ifIds| {
        assert IfAt(g, h.ifs, h.ifIds, i);
      }
    }
    forall i | 0 <= i < |h.loops|
      ensures Named(g, h.loops[i])
    {
      if i < |h.loopIds| {
        assert LoopAt(g, exclude, h.loops, h.loopIds, i);
      }
    }
  }

  lemma StepOfHistory(g: seq<Meta>, exclude: set<ElemId>, bs: seq<Body>, ids: seq<ElemId>, i: nat)
    requires LoopsTo(g, exclude, bs, ids) && i < |ids|
    ensures Stepped(g, exclude, bs[i], bs[i + 1], ids[i])
  {
    assert LoopAt(g, exclude, bs, ids, i);
    OneLoop(g, exclude, bs[i], bs[i + 1], ids[i]);
  }

  /** A history of folding a plain body; closed, so that what uses it need not look inside. */
  ghost predicate Recorded(cfg: Cfg, g: seq<Meta>, b0: Body, exclude: set<ElemId>, r: Body, h: History) {
    exists n :: RecordedBy(cfg, g, b0, exclude, r, h, n)
  }

  ghost predicate RecordedBy(cfg: Cfg, g: seq<Meta>, b0: Body, exclude: set<ElemId>, r: Body, h: History, n: nat) {
    n == |h.ifs| && Sound(cfg, g) && StartsPlain(cfg, g, b0) && FoldsVia(g, b0, exclude, r, h)
  }

  lemma LoopOfHistory(cfg: Cfg, g: seq<Meta>, b0: Body, exclude: set<ElemId>, r: Body, h: History, i: nat)
    requires Recorded(cfg, g, b0, exclude, r, h) && i < |h.loopIds|
    ensures |h.loops| == |h.loopIds| + 1 && Sound(cfg, g) && Named(g, h.loops[i]) && Named(g, h.loops[i + 1])
    ensures Stepped(g, exclude, h.loops[i], h.loops[i + 1], h.loopIds[i])
  {
    HistoryNamed(g, b0, exclude, r, h);
    StepOfHistory(g, exclude, h.loops, h.loopIds, i);
  }

  lemma {:induction false} LoopsStayTidy(cfg: Cfg, g: seq<Meta>, b0: Body, exclude: set<ElemId>, r: Body, h: History, i: nat)
    requires Recorded(cfg, g, b0, exclude, r, h) && i < |h.loops|
    ensures LoopTidy(cfg, g, exclude, h.loops[i])
  {
    if i > 0 {
      LoopsStayTidy(cfg, g, b0, exclude, r, h, i - 1);
      LoopOfHistory(cfg, g, b0, exclude, r, h, i - 1);
      LoopStepTidy(cfg, g, exclude, h.loops[i - 1], h.loops[i], h.loopIds[i - 1]);
    }
  }

  lemma LoopTidyIsTidy(cfg: Cfg, g: seq<Meta>, exclude: set<ElemId>, b: Body)
    requires LoopTidy(cfg, g, exclude, b) && Named(g, b)
    ensures Tidy(cfg, g, b)
  {
    forall x | x in b.elems
      ensures ExitsRooted(cfg, g, b, x) && JoinsKnown(g, b, x)
    {
      assert PlainAt(cfg, g, x);
    }
  }

  // ------------------------------------------------------------------------
  // While ifs are folded.

  /** How an if was made: its arms know the joins below them and run straight, or it has one arm that is a ring. */
  ghost predicate IfMade(g: seq<Meta>, id: ElemId)
    requires id < |g| && g[id].made.detail.If?
  {
    var arm, other := g[id].made.detail.thenBody, g[id].made.detail.elseBody;
    && BodyKnown(g, arm) && (Straight(g, arm) || (other.None? && Ringed(g, arm) && TwinIf(g, id) && g[id].made.exits == [arm.entry]))
    && (other.Some? ==> Straight(g, other.value) && BodyKnown(g, other.value))
  }

  /** One if fold of a tidy body. */
  ghost predicate IfFold(cfg: Cfg, g: seq<Meta>, b: Body, b': Body, id: ElemId, f: IfShape, arm: Body, other: Option<Body>) {
    && Sound(cfg, g) && Tidy(cfg, g, b) && IfStepOf(g, b, b', id, f, arm, other)
  }

  /** The header and where its two exits lead. */
  lemma HeaderFacts(cfg: Cfg, g: seq<Meta>, b: Body, b': Body, id: ElemId, f: IfShape, arm: Body, other: Option<Body>)
    requires IfFold(cfg, g, b, b', id, f, arm, other)
    ensures f.entry in b.elems && f.entry < |cfg| && Known(g, id) && SameHead(g, f.entry, id) && id !in b.elems && id !in b.remap && id != f.entry
    ensures var x := g[f.entry].made.exits;
      && |x| == 2 && x[0] < |cfg| && x[1] < |cfg| && (b.Remap(x[0]) != b.Remap(x[1]) || TwinIf(g, id))
      && Way(b, Made(g), f.entry, 0) == b.Remap(x[0]) && Way(b, Made(g), f.entry, 1) == b.Remap(x[1])
  {
    assert Header(b, Made(g), f.entry);
    assert KnownSound(cfg, g, f.entry);
    BlockIsItself(cfg, g, f.entry);
    assert Within(g, id, f.entry);
    EntryHead(cfg, g, id);
    var x := g[f.entry].made.exits;
    RemapOf(cfg, g, b, x[0]);
    RemapOf(cfg, g, b, x[1]);
    assert Live(cfg, f.entry);
  }

  lemma ChainMissesEnd(b: Body, d: Arena, src: ElemId, dst: ElemId, c: seq<ElemId>)
    requires Graph(b, {}, d).Ok() && Chain(b, d, src, dst, c) && src != dst
    ensures dst !in c
  {
    forall k | 0 <= k < |c|
      ensures c[k] != dst
    {
      assert Link(b, d, c, dst, k);
    }
  }

  /** The chains of an if do not lead back to where they start, but for the one arm of an if over a block with one way out. */
  lemma ArmsAreCutOut(cfg: Cfg, g: seq<Meta>, b: Body, b': Body, id: ElemId, f: IfShape, arm: Body, other: Option<Body>)
    returns (x: ElemId, y: ElemId)
    requires IfFold(cfg, g, b, b', id, f, arm, other)
    ensures CutOut(cfg, g, b, arm, f.thenBlks, x, f.join) && (f.join !in f.thenBlks || (other.None? && TwinIf(g, id)))
    ensures other.Some? ==> CutOut(cfg, g, b, other.value, f.elseBlks.value, y, f.join) && f.join !in f.elseBlks.value
  {
    HeaderFacts(cfg, g, b, b', id, f, arm, other);
    var exits := g[f.entry].made.exits;
    var p, q := Way(b, Made(g), f.entry, 0), Way(b, Made(g), f.entry, 1);
    x, y := exits[0], exits[1];
    if other.None? {
      if f.inverted {
        x := exits[1];
      }
      if p != q {
        ChainMissesEnd(b, Made(g), b.Remap(x), f.join, f.thenBlks);
      }
    } else {
      NoShortIf(b, Made(g), f);
      ChainMissesEnd(b, Made(g), p, f.join, f.thenBlks);
      ChainMissesEnd(b, Made(g), q, f.join, f.elseBlks.value);
    }
  }

  /** An if with two arms was taken only where none with one arm was to be had. */
  lemma NoShortIf(b: Body, d: Arena, f: IfShape)
    requires ChosenIf(b, d, f) && f.elseBlks.Some?
    ensures f.join != Way(b, d, f.entry, 0) && f.join != Way(b, d, f.entry, 1)
  {
    var short0 := IfShape(f.entry, f.elseBlks.value, None, Way(b, d, f.entry, 0), true);
    var short1 := IfShape(f.entry, f.thenBlks, None, Way(b, d, f.entry, 1), false);
    assert Preferred(short0, f) && Preferred(short1, f);
    assert !IsIf(b, d, short0) && !IsIf(b, d, short1);
  }

  lemma ArmIsMade(cfg: Cfg, g: seq<Meta>, b: Body, arm: Body, blks: seq<ElemId>, from: ElemId, dst: ElemId)
    requires CutOut(cfg, g, b, arm, blks, from, dst)
    ensures if dst in blks then Ringed(g, arm) && dst == arm.entry else Straight(g, arm)
    ensures BodyKnown(g, arm) && ArmTied(g, b, arm, dst)
  {
    if dst in blks {
      RingRuns(cfg, g, b, arm, blks, from, dst);
    } else {
      ArmRuns(cfg, g, b, arm, blks, from, dst);
    }
    ArmLeavesTied(cfg, g, b, arm, blks, from, dst);
    ArmKnowsToo(cfg, g, b, arm, blks, from, dst);
    forall y | y in arm.elems
      ensures JoinsKnown(g, arm, y)
    {
      assert JoinsKnown(g, b, y);
      JoinsKnownToo(g, b, arm, y);
    }
  }

  lemma JoinRooted(cfg: Cfg, g: seq<Meta>, b: Body, arm: Body, blks: seq<ElemId>, from: ElemId, dst: ElemId)
    requires CutOut(cfg, g, b, arm, blks, from, dst)
    ensures Rooted(cfg, g, b, dst)
  {
    var last := blks[|blks| - 1];
    assert Link(b, Made(g), blks, dst, |blks| - 1);
    assert last in arm.elems && ExitsRooted(cfg, g, b, last);
    RemapRooted(cfg, g, b, g[last].made.exits[0]);
  }

  lemma ArmTiedToo(g: seq<Meta>, b: Body, b': Body, arm: Body, e: ElemId)
    requires ArmTied(g, b, arm, e) && GoodToo(g, b, b')
    ensures ArmTied(g, b', arm, e)
  {
    forall x, i | x in arm.elems && x < |g| && 0 <= i < |g[x].made.exits| && arm.LookupFromId(g[x].made.exits[i]).None?
      ensures Tied(g, b', g[x].made.exits[i], e)
    {
      assert Tied(g, b, g[x].made.exits[i], e);
    }
  }

  /** The new if is known in the body it was folded in. */
  lemma NewIfKnown(cfg: Cfg, g: seq<Meta>, b: Body, b': Body, id: ElemId, f: IfShape, arm: Body, other: Option<Body>)
    requires IfFold(cfg, g, b, b', id, f, arm, other) && GoodToo(g, b, b')
    ensures IfMade(g, id) && JoinsKnown(g, b', id) && Rooted(cfg, g, b, f.join)
  {
    HeaderFacts(cfg, g, b, b', id, f, arm, other);
    var x, y := ArmsAreCutOut(cfg, g, b, b', id, f, arm, other);
    ArmIsMade(cfg, g, b, arm, f.thenBlks, x, f.join);
    JoinRooted(cfg, g, b, arm, f.thenBlks, x, f.join);
    ArmTiedToo(g, b, b', arm, f.join);
    MembersKnownToo(g, b, b', id, arm);
    if other.Some? {
      ArmIsMade(cfg, g, b, other.value, f.elseBlks.value, y, f.join);
      ArmTiedToo(g, b, b', other.value, f.join);
      MembersKnownToo(g, b, b', id, other.value);
    }
  }

  lemma MembersKnownToo(g: seq<Meta>, b: Body, b': Body, id: ElemId, arm: Body)
    requires (forall y {:trigger JoinsKnown(g, b, y)} :: y in b.elems ==> JoinsKnown(g, b, y)) && arm.elems <= b.elems
    requires id < |g| && AllWithin(g, id, arm.elems) && !g[id].loop && GoodToo(g, b, b')
    ensures forall y :: y in arm.elems ==> y < |g| && g[y].leaves < g[id].leaves && JoinsKnown(g, b', y)
  {
    forall y | y in arm.elems
      ensures y < |g| && g[y].leaves < g[id].leaves && JoinsKnown(g, b', y)
    {
      assert Within(g, id, y) && JoinsKnown(g, b, y);
      JoinsKnownToo(g, b, b', y);
    }
  }

  lemma RootedToo(cfg: Cfg, g: seq<Meta>, b: Body, h: ElemId, out: set<ElemId>, id: ElemId, x: ElemId)
    requires ExitsRooted(cfg, g, b, x) && h !in b.remap
    ensures ExitsRooted(cfg, g, Fold(b, h, out, id), x)
  {
    forall i | 0 <= i < |g[x].made.exits|
      ensures Rooted(cfg, g, Fold(b, h, out, id), g[x].made.exits[i])
    {
      assert Rooted(cfg, g, b, g[x].made.exits[i]);
    }
  }

  lemma IfFoldTidy(cfg: Cfg, g: seq<Meta>, b: Body, b': Body, id: ElemId, f: IfShape, arm: Body, other: Option<Body>)
    requires IfFold(cfg, g, b, b', id, f, arm, other) && Named(g, b')
    ensures Tidy(cfg, g, b') && IfMade(g, id)
  {
    var out := IfOut(f, arm, other);
    HeaderFacts(cfg, g, b, b', id, f, arm, other);
    KeysAfterFold(cfg, g, b, f.entry, out, id);
    GoodAfterFold(cfg, g, b, f.entry, out, id);
    NewIfKnown(cfg, g, b, b', id, f, arm, other);
    IfExitsRooted(cfg, g, b, b', id, f, arm, other);
    StillKnown(g, b, b', out, id);
  }

  lemma StillKnown(g: seq<Meta>, b: Body, b': Body, out: set<ElemId>, id: ElemId)
    requires BodyKnown(g, b) && GoodToo(g, b, b') && JoinsKnown(g, b', id) && b'.elems == b.elems - out + {id}
    ensures BodyKnown(g, b')
  {
    forall x | x in b'.elems
      ensures JoinsKnown(g, b', x)
    {
      if x != id {
        assert JoinsKnown(g, b, x);
        JoinsKnownToo(g, b, b', x);
      }
    }
  }

  lemma IfExitsRooted(cfg: Cfg, g: seq<Meta>, b: Body, b': Body, id: ElemId, f: IfShape, arm: Body, other: Option<Body>)
    requires IfFold(cfg, g, b, b', id, f, arm, other) && Rooted(cfg, g, b, f.join) && f.entry !in b.remap
    ensures forall x {:trigger ExitsRooted(cfg, g, b', x)} :: x in b'.elems ==> ExitsRooted(cfg, g, b', x)
  {
    var out := IfOut(f, arm, other);
    forall x | x in b'.elems
      ensures ExitsRooted(cfg, g, b', x)
    {
      if x == id {
        assert Rooted(cfg, g, b', f.join);
      } else {
        assert ExitsRooted(cfg, g, b, x);
        RootedToo(cfg, g, b, f.entry, out, id, x);
      }
    }
  }

  // ------------------------------------------------------------------------
  // Every element of a folded structure was made well.

  ghost predicate WellMade(cfg: Cfg, g: seq<Meta>, x: ElemId)
    decreases if x < |g| then g[x].leaves else {}, x < |g| && g[x].loop
  {
    Known(g, x) &&
    match g[x].made.detail
    case BasicBlock(_) => true
    case Loop(_, b) => StartsPlain(cfg, g, b) && forall y :: y in b.elems ==> Within(g, x, y) && WellMade(cfg, g, y)
    case If(_, arm, other) =>
      && IfMade(g, x)
      && (forall y :: y in arm.elems ==> Within(g, x, y) && WellMade(cfg, g, y))
      && (other.Some? ==> forall y :: y in other.value.elems ==> Within(g, x, y) && WellMade(cfg, g, y))
  }

  ghost predicate AllWell(cfg: Cfg, g: seq<Meta>, s: set<ElemId>) {
    forall x {:trigger WellMade(cfg, g, x)} :: x in s ==> WellMade(cfg, g, x)
  }

  lemma LoopStepWell(cfg: Cfg, g: seq<Meta>, exclude: set<ElemId>, b: Body, b': Body, id: ElemId)
    requires Stepped(g, exclude, b, b', id) && AllPlain(cfg, g, b.elems) && AllWell(cfg, g, b.elems)
    ensures AllWell(cfg, g, b'.elems)
  {
    StepIs(g, exclude, b, b', id);
    var c := Members(g, id);
    StepEnds(g, exclude, b, b', id);
    assert Within(g, id, g[id].entry);
    forall y | y in c
      ensures Within(g, id, y) && WellMade(cfg, g, y)
    {
      assert y in b.elems;
    }
    assert WellMade(cfg, g, id);
    forall x | x in b'.elems
      ensures WellMade(cfg, g, x)
    {
      assert x != id ==> x in b.elems;
    }
  }

  lemma IfFoldWell(cfg: Cfg, g: seq<Meta>, b: Body, b': Body, id: ElemId, f: IfShape, arm: Body, other: Option<Body>)
    requires IfFold(cfg, g, b, b', id, f, arm, other) && IfMade(g, id) && AllWell(cfg, g, b.elems)
    ensures AllWell(cfg, g, b'.elems)
  {
    HeaderFacts(cfg, g, b, b', id, f, arm, other);
    forall y | y in IfOut(f, arm, other)
      ensures Within(g, id, y) && WellMade(cfg, g, y)
    {
      assert y in b.elems;
    }
    assert WellMade(cfg, g, id);
    forall x | x in b'.elems
      ensures WellMade(cfg, g, x)
    {
      assert x != id ==> x in b.elems;
    }
  }

  lemma {:induction false} LoopsStayWell(cfg: Cfg, g: seq<Meta>, b0: Body, exclude: set<ElemId>, r: Body, h: History, i: nat)
    requires Recorded(cfg, g, b0, exclude, r, h) && AllWell(cfg, g, b0.elems) && i < |h.loops|
    ensures AllWell(cfg, g, h.loops[i].elems)
  {
    if i > 0 {
      LoopsStayWell(cfg, g, b0, exclude, r, h, i - 1);
      LoopsStayTidy(cfg, g, b0, exclude, r, h, i - 1);
      LoopOfHistory(cfg, g, b0, exclude, r, h, i - 1);
      LoopStepWell(cfg, g, exclude, h.loops[i - 1], h.loops[i], h.loopIds[i - 1]);
    }
  }

  /** Closed like `Recorded`. */
  ghost predicate TidyAndWell(cfg: Cfg, g: seq<Meta>, b: Body) {
    exists e :: TidyAt(cfg, g, b, e)
  }

  ghost predicate TidyAt(cfg: Cfg, g: seq<Meta>, b: Body, e: ElemId) {
    e == b.entry && Tidy(cfg, g, b) && AllWell(cfg, g, b.elems)
  }

  lemma IfsStartTidy(cfg: Cfg, g: seq<Meta>, b0: Body, exclude: set<ElemId>, r: Body, h: History)
    requires Recorded(cfg, g, b0, exclude, r, h) && AllWell(cfg, g, b0.elems)
    ensures h.loops != [] && TidyAndWell(cfg, g, LastOf(h.loops))
  {
    HistoryNamed(g, b0, exclude, r, h);
    LoopsStayTidy(cfg, g, b0, exclude, r, h, |h.loops| - 1);
    LoopsStayWell(cfg, g, b0, exclude, r, h, |h.loops| - 1);
    LoopTidyIsTidy(cfg, g, exclude, LastOf(h.loops));
    assert TidyAt(cfg, g, LastOf(h.loops), LastOf(h.loops).entry);
  }

  lemma {:induction false} IfsStayTidy(cfg: Cfg, g: seq<Meta>, b0: Body, exclude: set<ElemId>, r: Body, h: History, i: nat)
    requires Recorded(cfg, g, b0, exclude, r, h) && AllWell(cfg, g, b0.elems) && i < |h.ifs|
    ensures TidyAndWell(cfg, g, h.ifs[i])
  {
    if i == 0 {
      IfsStartTidy(cfg, g, b0, exclude, r, h);
    } else {
      IfsStayTidy(cfg, g, b0, exclude, r, h, i - 1);
      IfOfHistory(cfg, g, b0, exclude, r, h, i - 1);
    }
  }

  lemma IfOfHistory(cfg: Cfg, g: seq<Meta>, b0: Body, exclude: set<ElemId>, r: Body, h: History, i: nat)
    requires Recorded(cfg, g, b0, exclude, r, h) && i < |h.ifIds|
    requires i < |h.ifs| && TidyAndWell(cfg, g, h.ifs[i])
    ensures i + 1 < |h.ifs| && TidyAndWell(cfg, g, h.ifs[i + 1])
  {
    HistoryNamed(g, b0, exclude, r, h);
    assert IfAt(g, h.ifs, h.ifIds, i);
    var f, arm, other :| IfStepOf(g, h.ifs[i], h.ifs[i + 1], h.ifIds[i], f, arm, other);
    IfFoldTidy(cfg, g, h.ifs[i], h.ifs[i + 1], h.ifIds[i], f, arm, other);
    IfFoldWell(cfg, g, h.ifs[i], h.ifs[i + 1], h.ifIds[i], f, arm, other);
    assert TidyAt(cfg, g, h.ifs[i + 1], h.ifs[i + 1].entry);
  }

  /** In a folded body every member was made well, and the body knows all joins below it by the names its arms use. */
  lemma FoldedBodyKnows(cfg: Cfg, g: seq<Meta>, b0: Body, exclude: set<ElemId>, r: Body)
    requires Sound(cfg, g) && StartsPlain(cfg, g, b0) && AllWell(cfg, g, b0.elems) && Folds(g, b0, exclude, r)
    ensures AllWell(cfg, g, r.elems) && BodyKnown(g, r)
  {
    var h :| FoldsVia(g, b0, exclude, r, h);
    assert RecordedBy(cfg, g, b0, exclude, r, h, |h.ifs|);
    IfsStayTidy(cfg, g, b0, exclude, r, h, |h.ifs| - 1);
  }
}
