/** Which names lead where while the ifs of a body are folded, and why the arms of an if
    run straight to where the if goes on. */
module Names {
  import opened ControlFlow
  import opened Ownership
  import opened Structure

  /** No block has both its exits to the same block. */
  ghost predicate NoTwins(cfg: Cfg) {
    forall b: nat {:trigger Live(cfg, b)} :: Live(cfg, b) && |cfg[b].value| == 2 ==> cfg[b].value[0] != cfg[b].value[1]
  }

  /** An if over a block that has both its exits to one place: its arm leads back to where it starts. */
  ghost predicate TwinIf(g: seq<Meta>, id: ElemId) {
    && Known(g, id) && g[id].made.detail.If? && Known(g, g[id].entry)
    && |g[g[id].entry].made.exits| == 2 && g[g[id].entry].made.exits[0] == g[g[id].entry].made.exits[1]
  }

  ghost predicate NoTwinIfs(g: seq<Meta>) {
    forall id: nat {:trigger TwinIf(g, id)} :: !TwinIf(g, id)
  }

  /** What is known of every element that was made. */
  ghost predicate Sound(cfg: Cfg, g: seq<Meta>) {
    && CfgOk(cfg) && MetaOk(cfg, g)
    && (forall x {:trigger KnownSound(cfg, g, x)} :: Known(g, x) ==> KnownSound(cfg, g, x))
  }

  ghost predicate KnownSound(cfg: Cfg, g: seq<Meta>, x: ElemId)
    requires Known(g, x)
  {
    && SameHead(g, g[x].entry, x)
    && (g[x].made.detail.BasicBlock? <==> x < |cfg|)
    && (forall i :: 0 <= i < |g[x].made.exits| ==> Known(g, g[x].made.exits[i]))
  }

  lemma BlockIsItself(cfg: Cfg, g: seq<Meta>, b: ElemId)
    requires Sound(cfg, g) && Known(g, b) && b < |cfg|
    ensures g[b].entry == b && Live(cfg, b) && g[b].made.exits == cfg[b].value
    ensures forall i :: 0 <= i < |g[b].made.exits| ==> g[b].made.exits[i] < |cfg|
  {
    assert g[b] == BlockMeta(cfg, b);
    assert Live(cfg, b);
    forall i | 0 <= i < |g[b].made.exits|
      ensures g[b].made.exits[i] < |cfg|
    {
      assert Live(cfg, cfg[b].value[i]);
    }
  }

  // ------------------------------------------------------------------------
  // Names that lead to whatever member starts with their block.

  ghost predicate Good(g: seq<Meta>, b: Body, n: ElemId) {
    forall y {:trigger SameHead(g, n, y)} :: y in b.elems && SameHead(g, n, y) ==> b.Remap(n) == y
  }

  ghost predicate KeysGood(g: seq<Meta>, b: Body) {
    && (forall k {:trigger Good(g, b, k)} :: k in b.remap ==> Good(g, b, k))
    && (forall k :: k in b.remap ==> b.remap[k] !in b.remap)
  }

  /** The same element by either name, in this body. */
  ghost predicate Tied(g: seq<Meta>, b: Body, n: ElemId, e: ElemId) {
    n == e || (SameHead(g, n, e) && Good(g, b, n) && Good(g, b, e))
  }

  lemma LookedUp(g: seq<Meta>, b: Body, n: ElemId)
    requires Known(g, n) && forall k :: k in b.remap ==> Renames(g, k, b.remap[k])
    ensures b.LookupFromId(n).Some? ==> b.LookupFromId(n).value in b.elems && SameHead(g, n, b.LookupFromId(n).value)
  {
    if n in b.remap {
      assert Renames(g, n, b.remap[n]);
    }
  }

  lemma TiedLookup(g: seq<Meta>, b: Body, n: ElemId, e: ElemId)
    requires Known(g, n) && Known(g, e) && Tied(g, b, n, e) && forall k :: k in b.remap ==> Renames(g, k, b.remap[k])
    ensures b.LookupFromId(n) == b.LookupFromId(e)
  {
    LookedUp(g, b, n);
    LookedUp(g, b, e);
    if n != e && b.LookupFromId(n).Some? {
      assert SameHead(g, e, b.LookupFromId(n).value);
    }
    if n != e && b.LookupFromId(e).Some? {
      assert SameHead(g, n, b.LookupFromId(e).value);
    }
  }

  lemma OneMemberPerHead(g: seq<Meta>, s: set<ElemId>, x: ElemId, y: ElemId, cfg: Cfg)
    requires MetaOk(cfg, g) && MembersOk(g, s) && x in s && y in s && g[x].head == g[y].head
    ensures x == y
  {
    assert g[x].head in g[x].leaves && g[y].head in g[y].leaves;
  }

  /** What an exit of a body leads to is known by that name. */
  lemma RemapTied(cfg: Cfg, g: seq<Meta>, b: Body, n: ElemId)
    requires Sound(cfg, g) && Named(g, b) && KeysGood(g, b) && Known(g, n)
    ensures Tied(g, b, n, b.Remap(n))
  {
    var e := b.Remap(n);
    if n != e {
      assert Renames(g, n, e) && Good(g, b, n);
      forall y | y in b.elems && SameHead(g, e, y)
        ensures b.Remap(e) == y
      {
        assert SameHead(g, n, y);
      }
    }
  }

  // ------------------------------------------------------------------------
  // What the arms below an element need of an enclosing body.

  ghost predicate ArmTied(g: seq<Meta>, b: Body, arm: Body, e: ElemId) {
    forall x, i {:trigger g[x].made.exits[i]} :: x in arm.elems && x < |g| && 0 <= i < |g[x].made.exits| && arm.LookupFromId(g[x].made.exits[i]).None?
      ==> Tied(g, b, g[x].made.exits[i], e)
  }

  /** The names by which the arms below `x` leave are known in `b` like the joins of their ifs. */
  ghost predicate JoinsKnown(g: seq<Meta>, b: Body, x: ElemId)
    decreases if x < |g| then g[x].leaves else {}
  {
    Known(g, x) &&
    match g[x].made.detail
    case If(_, arm, other) =>
      && |g[x].made.exits| == 1
      && ArmTied(g, b, arm, g[x].made.exits[0])
      && (forall y :: y in arm.elems ==> y < |g| && g[y].leaves < g[x].leaves && JoinsKnown(g, b, y))
      && (other.Some? ==>
            && ArmTied(g, b, other.value, g[x].made.exits[0])
            && forall y :: y in other.value.elems ==> y < |g| && g[y].leaves < g[x].leaves && JoinsKnown(g, b, y))
    case _ => true
  }

  ghost predicate GoodToo(g: seq<Meta>, b: Body, b': Body) {
    forall n {:trigger Good(g, b', n)} :: Good(g, b, n) ==> Good(g, b', n)
  }

  lemma {:induction false} JoinsKnownToo(g: seq<Meta>, b: Body, b': Body, x: ElemId)
    requires JoinsKnown(g, b, x) && GoodToo(g, b, b')
    ensures JoinsKnown(g, b', x)
    decreases g[x].leaves
  {
    match g[x].made.detail {
      case If(_, arm, other) =>
        forall y | y in arm.elems
          ensures JoinsKnown(g, b', y)
        {
          JoinsKnownToo(g, b, b', y);
        }
        if other.Some? {
          forall y | y in other.value.elems
            ensures JoinsKnown(g, b', y)
          {
            JoinsKnownToo(g, b, b', y);
          }
        }
      case _ =>
    }
  }

  // ------------------------------------------------------------------------
  // Bodies while their ifs are folded.

  /** A name of a block, or the one a member is known by where its own entry leads to it. */
  ghost predicate Rooted(cfg: Cfg, g: seq<Meta>, b: Body, m: ElemId) {
    m < |cfg| || (m < |g| && g[m].entry in b.remap && b.remap[g[m].entry] == m)
  }

  ghost predicate ExitsRooted(cfg: Cfg, g: seq<Meta>, b: Body, x: ElemId) {
    x < |g| && forall i :: 0 <= i < |g[x].made.exits| ==> Rooted(cfg, g, b, g[x].made.exits[i])
  }

  ghost predicate Tidy(cfg: Cfg, g: seq<Meta>, b: Body) {
    && Named(g, b) && KeysGood(g, b)
    && (forall x {:trigger ExitsRooted(cfg, g, b, x)} :: x in b.elems ==> ExitsRooted(cfg, g, b, x))
    && (forall x {:trigger JoinsKnown(g, b, x)} :: x in b.elems ==> JoinsKnown(g, b, x))
  }

  /** Only members folded as entries are renamed, so a block that is a member is no key, and a renamed element no block. */
  lemma RemapOf(cfg: Cfg, g: seq<Meta>, b: Body, n: ElemId)
    requires Sound(cfg, g) && Named(g, b) && KeysGood(g, b)
    ensures b.Remap(n) == n || (n in b.remap && b.Remap(n) < |g| && g[b.Remap(n)].entry == n && b.Remap(n) !in b.remap)
    ensures n in b.elems ==> b.Remap(n) == n
    ensures b.Remap(n) != n ==> Known(g, b.Remap(n)) && b.Remap(n) >= |cfg|
  {
    if n in b.remap && b.Remap(n) != n {
      assert Renames(g, n, b.remap[n]);
      if b.remap[n] < |cfg| {
        BlockIsItself(cfg, g, b.remap[n]);
      }
    }
  }

  /** Where a rooted name leads is rooted. */
  lemma RemapRooted(cfg: Cfg, g: seq<Meta>, b: Body, m: ElemId)
    requires Sound(cfg, g) && Named(g, b) && KeysGood(g, b) && Rooted(cfg, g, b, m)
    ensures Rooted(cfg, g, b, b.Remap(m))
    ensures m >= |cfg| ==> b.Remap(m) == m
  {
    RemapOf(cfg, g, b, m);
  }

  /** Folding around a block leaves names good. */
  lemma GoodAfterFold(cfg: Cfg, g: seq<Meta>, b: Body, h: ElemId, out: set<ElemId>, id: ElemId)
    requires Sound(cfg, g) && Named(g, b) && KeysGood(g, b) && h in out && out <= b.elems && h < |cfg| && Known(g, id) && SameHead(g, h, id)
    requires id !in b.elems
    ensures GoodToo(g, b, Fold(b, h, out, id))
  {
    var b' := Fold(b, h, out, id);
    forall n | Good(g, b, n)
      ensures Good(g, b', n)
    {
      RemapOf(cfg, g, b, n);
      forall y | y in b'.elems && SameHead(g, n, y)
        ensures b'.Remap(n) == y
      {
        if y == id {
          assert SameHead(g, n, h);
          if n != h {
            BlockIsItself(cfg, g, h);
          }
        } else if n == h {
          OneMemberPerHead(g, b.elems, h, y, cfg);
        }
      }
    }
  }

  lemma KeysAfterFold(cfg: Cfg, g: seq<Meta>, b: Body, h: ElemId, out: set<ElemId>, id: ElemId)
    requires Sound(cfg, g) && Named(g, b) && KeysGood(g, b) && h in out && out <= b.elems && h < |cfg| && Known(g, id) && SameHead(g, h, id)
    requires id !in b.elems && id !in b.remap && id != h
    ensures KeysGood(g, Fold(b, h, out, id))
  {
    var b' := Fold(b, h, out, id);
    GoodAfterFold(cfg, g, b, h, out, id);
    forall k | k in b'.remap
      ensures Good(g, b', k) && b'.remap[k] !in b'.remap
    {
      RemapOf(cfg, g, b, k);
      if k == h {
        forall y | y in b.elems && SameHead(g, h, y)
          ensures b.Remap(h) == y
        {
          OneMemberPerHead(g, b.elems, h, y, cfg);
        }
        assert Good(g, b, h) && Good(g, b', h);
      } else {
        assert Good(g, b, k) && Good(g, b', k);
      }
    }
  }
}
