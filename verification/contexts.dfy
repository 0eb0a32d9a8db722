/** The table of execution contexts (hydra/src/exec.c, hydra/src/internal.h). */
module Contexts {
  import opened Wrappers

  const MAX_EXEC: nat := 1024

  datatype ExecState = Uninit | Idle | Active | Done {
    predicate InUse() { Active? || Done? }
  }

  /** The first context that is not in use. */
  function FirstFree(states: seq<ExecState>, from: nat): (r: Option<nat>)
    requires from <= |states|
    ensures r.Some? ==> from <= r.value < |states| && !states[r.value].InUse()
    ensures forall j :: from <= j < (if r.Some? then r.value else |states|) ==> states[j].InUse()
    decreases |states| - from
  {
    if from == |states| then None
    else if !states[from].InUse() then Some(from)
    else FirstFree(states, from + 1)
  }

  lemma FirstFreeAfterPrefix(states: seq<ExecState>, depth: nat)
    requires depth <= |states| && forall i :: 0 <= i < |states| ==> (states[i].InUse() <==> i < depth)
    ensures FirstFree(states, 0) == if depth < |states| then Some(depth) else None
  {
    var r := FirstFree(states, 0);
    if depth < |states| {
      assert !states[depth].InUse();
    }
  }
}
