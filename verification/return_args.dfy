/** Inferring how many argument words a function pops (dis86/src/app_infer.rs, reachable_raw
    and ret_imm_args) from the instructions of its body that control can reach. */
module ReturnArgs {
  import opened Wrappers
  import opened Addresses

  /** `targets` are the static targets of an instruction that jumps; a return has its immediate operands in `imms`. */
  datatype Raw = Raw(addr: SegOff, len: nat, fallsThrough: bool, targets: seq<SegOff>, isReturn: bool, imms: seq<u16>)

  /** The index of the last instruction at an address. */
  function IndexOf(raw: seq<Raw>, a: SegOff): (r: Option<nat>)
    ensures r.Some? ==> r.value < |raw| && raw[r.value].addr == a && forall k :: r.value < k < |raw| ==> raw[k].addr != a
    ensures r.None? ==> forall k :: 0 <= k < |raw| ==> raw[k].addr != a
  {
    if raw == [] then None
    else if raw[|raw| - 1].addr == a then Some(|raw| - 1)
    else IndexOf(raw[..|raw| - 1], a)
  }

  /** `j` is the last instruction at that address. */
  ghost predicate Lands(raw: seq<Raw>, a: SegOff, j: nat) {
    j < |raw| && raw[j].addr == a && forall k :: j < k < |raw| ==> raw[k].addr != a
  }

  /** An instruction leads to the one at its end, which may have wrapped, if it falls through, and to its targets. */
  ghost predicate Follows(raw: seq<Raw>, i: nat, j: nat) {
    && i < |raw|
    && var ins := raw[i];
    || (ins.fallsThrough && Lands(raw, SegOff(ins.addr.seg, (ins.addr.off + ins.len) % 0x1_0000), j))
    || exists k :: 0 <= k < |ins.targets| && Lands(raw, ins.targets[k], j)
  }

  ghost predicate Walk(raw: seq<Raw>, w: seq<nat>) {
    w != [] && w[0] == 0 && 0 < |raw| && forall k :: 0 <= k < |w| - 1 ==> Follows(raw, w[k], w[k + 1])
  }

  ghost predicate Reachable(raw: seq<Raw>, i: nat) {
    exists w :: Walk(raw, w) && w[|w| - 1] == i
  }

  lemma ReachableStep(raw: seq<Raw>, i: nat, j: nat)
    requires Reachable(raw, i) && Follows(raw, i, j)
    ensures Reachable(raw, j) && j < |raw|
  {
    var w :| Walk(raw, w) && w[|w| - 1] == i;
    assert Walk(raw, w + [j]);
  }

  lemma {:induction false} ClosedHoldsWalk(raw: seq<Raw>, marked: set<nat>, w: seq<nat>)
    requires 0 in marked && (forall i, j :: i in marked && Follows(raw, i, j) ==> j in marked) && Walk(raw, w)
    ensures w[|w| - 1] in marked
    decreases |w|
  {
    if |w| > 1 {
      var init := w[..|w| - 1];
      assert Walk(raw, init);
      ClosedHoldsWalk(raw, marked, init);
      assert Follows(raw, w[|w| - 2], w[|w| - 2 + 1]);
    }
  }

  /** The indices an instruction leads to, in some order. */
  method Successors(raw: seq<Raw>, i: nat) returns (js: seq<nat>)
    requires i < |raw|
    ensures forall j :: j in js <==> Follows(raw, i, j)
  {
    js := [];
    var ts := raw[i].targets;
    for n := 0 to |ts|
      invariant forall j :: j in js <==> exists k :: 0 <= k < n && Lands(raw, ts[k], j)
    {
      var j := IndexOf(raw, ts[n]);
      if j.Some? { js := js + [j.value]; }
    }
    if raw[i].fallsThrough {
      var j := IndexOf(raw, raw[i].addr.AddOffset(raw[i].len));
      if j.Some? { js := js + [j.value]; }
    }
  }

  /** What was marked is reachable, and what follows it is marked or on the stack. */
  ghost predicate Marking(raw: seq<Raw>, marked: set<nat>, stack: seq<nat>) {
    && (forall i :: i in marked ==> i < |raw| && Reachable(raw, i))
    && (forall i :: i in stack ==> Reachable(raw, i))
    && (0 in marked || 0 in stack)
    && (forall i, j :: i in marked && Follows(raw, i, j) ==> j in marked || j in stack)
  }

  lemma MarkOne(raw: seq<Raw>, marked: set<nat>, stack: seq<nat>, i: nat, js: seq<nat>)
    requires Marking(raw, marked, stack + [i]) && i < |raw| && forall j :: j in js <==> Follows(raw, i, j)
    ensures Marking(raw, marked + {i}, stack + js)
  {
    assert i in stack + [i];
    forall j | j in js
      ensures Reachable(raw, j)
    {
      ReachableStep(raw, i, j);
    }
    forall j | j in stack
      ensures Reachable(raw, j)
    {
      assert j in stack + [i];
    }
  }

  ghost function Indices(n: nat): (s: set<nat>)
    ensures forall i: nat :: i in s <==> i < n
  {
    if n == 0 then {} else Indices(n - 1) + {n - 1}
  }

  method ReachableRaw(raw: seq<Raw>) returns (marked: set<nat>)
    ensures forall i: nat :: i in marked <==> i < |raw| && Reachable(raw, i)
  {
    marked := {};
    if raw == [] { return; }
    var stack := [0];
    assert Walk(raw, [0]);
    ghost var todo := Indices(|raw|);
    while stack != []
      invariant Marking(raw, marked, stack) && marked <= todo && forall i: nat :: i < |raw| ==> i in todo
      decreases todo - marked, |stack|
    {
      var i := stack[|stack| - 1];
      assert stack == stack[..|stack| - 1] + [i];
      stack := stack[..|stack| - 1];
      if i >= |raw| || i in marked {
        continue;
      }
      var js := Successors(raw, i);
      MarkOne(raw, marked, stack, i, js);
      marked := marked + {i};
      stack := stack + js;
    }
    forall i: nat | i < |raw| && Reachable(raw, i)
      ensures i in marked
    {
      var w :| Walk(raw, w) && w[|w| - 1] == i;
      ClosedHoldsWalk(raw, marked, w);
    }
  }

  /** The argument words a return pops: from its last even immediate. */
  function ImmOf(imms: seq<u16>): Option<nat> {
    if imms == [] then None
    else if imms[|imms| - 1] % 2 == 0 then Some(imms[|imms| - 1] / 2)
    else ImmOf(imms[..|imms| - 1])
  }

  /** The last immediate that is even is the number of bytes in `n` words. */
  ghost predicate PopsWords(imms: seq<u16>, n: nat) {
    exists k :: 0 <= k < |imms| && imms[k] == 2 * n && forall j :: k < j < |imms| ==> imms[j] % 2 == 1
  }

  lemma {:induction false} ImmIs(imms: seq<u16>, n: nat)
    ensures ImmOf(imms) == Some(n) <==> PopsWords(imms, n)
  {
    if imms != [] && imms[|imms| - 1] % 2 == 1 {
      var init := imms[..|imms| - 1];
      ImmIs(init, n);
      if k :| 0 <= k < |init| && init[k] == 2 * n && forall j :: k < j < |init| ==> init[j] % 2 == 1 {
        assert imms[k] == 2 * n;
      }
      if k :| 0 <= k < |imms| && imms[k] == 2 * n && forall j :: k < j < |imms| ==> imms[j] % 2 == 1 {
        assert k < |init| && init[k] == 2 * n;
      }
    }
  }

  ghost predicate ReturnAt(raw: seq<Raw>, i: nat) {
    i < |raw| && Reachable(raw, i) && raw[i].isReturn
  }

  /** `Some(n)` exactly when a return is reachable and every reachable return pops `n` words. */
  method RetImmArgs(raw: seq<Raw>) returns (r: Option<nat>)
    ensures forall n: nat :: r == Some(n) <==>
      (exists i: nat :: ReturnAt(raw, i)) && forall i: nat :: ReturnAt(raw, i) ==> PopsWords(raw[i].imms, n)
  {
    forall imms: seq<u16>, n: nat
      ensures ImmOf(imms) == Some(n) <==> PopsWords(imms, n)
    {
      ImmIs(imms, n);
    }
    r := ArgsOf(raw);
  }

  method ArgsOf(raw: seq<Raw>) returns (r: Option<nat>)
    ensures forall n: nat :: r == Some(n) <==>
      (exists i: nat :: ReturnAt(raw, i)) && forall i: nat :: ReturnAt(raw, i) ==> ImmOf(raw[i].imms) == Some(n)
  {
    var marked := ReachableRaw(raw);
    var values: set<nat> := {};
    var sawRet := false;
    for i := 0 to |raw|
      invariant sawRet <==> exists k: nat :: k < i && ReturnAt(raw, k)
      invariant forall k: nat :: k < i && ReturnAt(raw, k) ==> ImmOf(raw[k].imms).Some? && ImmOf(raw[k].imms).value in values
      invariant forall v :: v in values ==> exists k: nat :: k < i && ReturnAt(raw, k) && ImmOf(raw[k].imms) == Some(v)
    {
      if i !in marked || !raw[i].isReturn { continue; }
      sawRet := true;
      assert ReturnAt(raw, i);
      var imm := ImmOf(raw[i].imms);
      if imm.None? { return None; }
      values := values + {imm.value};
    }
    r := None;
    if sawRet && |values| == 1 {
      var v :| v in values;
      Single(values, v);
      r := Some(v);
    } else if sawRet {
      ghost var k: nat :| k < |raw| && ReturnAt(raw, k);
      ghost var v := ImmOf(raw[k].imms).value;
      assert v in values;
      NotSingle(values, v);
    }
  }

  lemma Single(s: set<nat>, v: nat)
    requires |s| == 1 && v in s
    ensures s == {v}
  {
    assert |s - {v}| == 0;
  }

  lemma NotSingle(s: set<nat>, v: nat)
    requires |s| != 1 && v in s
    ensures exists u :: u in s && u != v
  {
    assert s != {v};
  }
}
