/** The hand-off between the host thread and the hook threads (hydra/src/exec.c, and the
    suspension of a hook in hydra/src/machine.c), one atomic action at a time. Each context
    has a mutex and two condition variables; a wait ends only on a signal. `M` is the machine:
    the host keeps one copy and each context another, and they are copied back and forth. */
module Handoff {
  import opened Wrappers
  import opened Contexts

  datatype Owner = Free | ByHost | ByHook

  /** Where a hook's thread is. */
  datatype HookPc =
    | Absent          // no thread
    | Created         // about to lock the mutex for the first time
    | Locked          // about to make itself the active context
    | Running         // in the hook's own code
    | Called          // asked for a guest call, about to signal cond_main
    | Notified        // about to wait on cond_child
    | Parked          // waiting on cond_child
    | Woken           // signalled, about to take the mutex back
    | Relocked        // about to make itself the active context again
    | Returned        // its function returned, about to signal cond_main
    | Notified2       // about to unlock
    | Exited

  /** Where the host's thread is, and with which context it is busy. */
  datatype HostPc =
    | Guest                  // running the guest
    | Acquired(id: nat)      // took a context for a new hook, about to lock
    | BeginLocked(id: nat)   // about to copy the machine in
    | Copied(id: nat)        // about to create the thread
    | Resuming(id: nat)      // about to lock a suspended context
    | ResumeLocked(id: nat)  // about to copy the machine in
    | ResumeCopied(id: nat)  // about to signal cond_child
    | MustWait(id: nat)      // about to wait on cond_main
    | Waiting(id: nat)       // waiting on cond_main
    | Signalled(id: nat)     // about to take the mutex back
    | Relock(id: nat)        // about to read the result and unlock
    | Unlocked(id: nat)      // about to copy the machine out
    | CopiedOut(id: nat)     // about to look at the context's state
    | Joining(id: nat)       // about to join the thread and release the context

  datatype Ctx<M> = Ctx(state: ExecState, owner: Owner, pc: HookPc, machine: M)

  datatype State<M> = State(host: HostPc, machine: M, ctxs: seq<Ctx<M>>, active: Option<nat>)

  datatype Step<M> =
    | GuestRuns(m: M)
    | Begin
    | Resume(id: nat)
    | HookRuns(id: nat, m: M)
    | HookCalls(id: nat)
    | HookReturns(id: nat)
    | HostGoesOn
    | HookGoesOn(id: nat)

  /** Steps at which the program decides something; the others are the protocol itself. */
  predicate Choice<M>(t: Step<M>) {
    !t.HostGoesOn? && !t.HookGoesOn?
  }

  function Put<M>(s: State<M>, i: nat, c: Ctx<M>): State<M>
    requires i < |s.ctxs|
  {
    s.(ctxs := s.ctxs[i := c])
  }

  function States<M>(ctxs: seq<Ctx<M>>): seq<ExecState> {
    seq(|ctxs|, i requires 0 <= i < |ctxs| => ctxs[i].state)
  }

  /** A signal wakes the host if it is waiting on that context, and is lost otherwise. */
  function SignalMain<M>(s: State<M>, i: nat): State<M> {
    if s.host == Waiting(i) then s.(host := Signalled(i)) else s
  }

  function SignalChild<M>(s: State<M>, i: nat): State<M>
    requires i < |s.ctxs|
  {
    if s.ctxs[i].pc == Parked then Put(s, i, s.ctxs[i].(pc := Woken)) else s
  }

  /** What the host thread does next, if nothing is to be decided and nothing blocks it. */
  function HostNext<M>(s: State<M>): Option<State<M>> {
    if s.host == Guest || s.host.id >= |s.ctxs| then None
    else
      var i := s.host.id;
      var c := s.ctxs[i];
      match s.host
      case Acquired(_) => if c.owner.Free? then Some(Put(s, i, c.(owner := ByHost)).(host := BeginLocked(i))) else None
      case BeginLocked(_) => Some(Put(s, i, c.(machine := s.machine)).(host := Copied(i)))
      case Copied(_) => Some(Put(s, i, c.(pc := Created)).(host := MustWait(i)))
      case Resuming(_) => if c.owner.Free? then Some(Put(s, i, c.(owner := ByHost)).(host := ResumeLocked(i))) else None
      case ResumeLocked(_) => Some(Put(s, i, c.(machine := s.machine)).(host := ResumeCopied(i)))
      case ResumeCopied(_) => Some(SignalChild(s, i).(host := MustWait(i)))
      case MustWait(_) => Some(Put(s, i, c.(owner := Free)).(host := Waiting(i)))
      case Waiting(_) => None
      case Signalled(_) => if c.owner.Free? then Some(Put(s, i, c.(owner := ByHost)).(host := Relock(i))) else None
      case Relock(_) => Some(Put(s, i, c.(owner := Free)).(host := Unlocked(i)))
      case Unlocked(_) => Some(s.(machine := c.machine, host := CopiedOut(i)))
      case CopiedOut(_) => Some(s.(host := if c.state.Done? then Joining(i) else Guest))
      case Joining(_) => if c.pc.Exited? then Some(Put(s, i, c.(state := Idle, pc := Absent)).(host := Guest)) else None
  }

  function HookNext<M>(s: State<M>, i: nat): Option<State<M>>
    requires i < |s.ctxs|
  {
    var c := s.ctxs[i];
    match c.pc
    case Created => if c.owner.Free? then Some(Put(s, i, c.(owner := ByHook, pc := Locked))) else None
    case Locked => Some(Put(s, i, c.(pc := Running)).(active := Some(i)))
    case Called => Some(Put(SignalMain(s, i), i, c.(pc := Notified)))
    case Notified => Some(Put(s, i, c.(owner := Free, pc := Parked)))
    case Woken => if c.owner.Free? then Some(Put(s, i, c.(owner := ByHook, pc := Relocked))) else None
    case Relocked => Some(Put(s, i, c.(pc := Running)).(active := Some(i)))
    case Returned => Some(Put(SignalMain(s, i), i, c.(pc := Notified2)))
    case Notified2 => Some(Put(s, i, c.(owner := Free, pc := Exited)))
    case _ => None
  }

  /** The state after one step of one thread; `None` when the step cannot be taken. */
  function Do<M>(s: State<M>, t: Step<M>): Option<State<M>> {
    match t
    case GuestRuns(m) => if s.host == Guest then Some(s.(machine := m)) else None
    case Begin =>
      var i := FirstFree(States(s.ctxs), 0);
      if s.host == Guest && i.Some? then Some(Put(s, i.value, s.ctxs[i.value].(state := Active)).(host := Acquired(i.value))) else None
    case Resume(i) =>
      if s.host == Guest && i < |s.ctxs| && s.ctxs[i].state.Active? then Some(s.(host := Resuming(i))) else None
    case HookRuns(i, m) =>
      if i < |s.ctxs| && s.ctxs[i].pc.Running? then Some(Put(s, i, s.ctxs[i].(machine := m))) else None
    case HookCalls(i) =>
      if i < |s.ctxs| && s.ctxs[i].pc.Running? then Some(Put(s, i, s.ctxs[i].(pc := Called))) else None
    case HookReturns(i) =>
      if i < |s.ctxs| && s.ctxs[i].pc.Running? then Some(Put(s, i, s.ctxs[i].(state := Done, pc := Returned))) else None
    case HostGoesOn => HostNext(s)
    case HookGoesOn(i) => if i < |s.ctxs| then HookNext(s, i) else None
  }

  function Start<M>(m: M): State<M> {
    State(Guest, m, seq(MAX_EXEC, _ => Ctx(Uninit, Free, Absent, m)), None)
  }

  // ------------------------------------------------------------------------
  // What every interleaving keeps.

  /** The context the host is busy with: every combination of host, hook and mutex that can occur. */
  ghost predicate BusyOk<M>(host: HostPc, c: Ctx<M>)
    requires host != Guest
  {
    match host
    case Acquired(_) => c.state == Active && c.owner == Free && c.pc == Absent
    case BeginLocked(_) => c.state == Active && c.owner == ByHost && c.pc == Absent
    case Copied(_) => c.state == Active && c.owner == ByHost && c.pc == Absent
    case Resuming(_) => c.state == Active && c.owner == Free && c.pc == Parked
    case ResumeLocked(_) => c.state == Active && c.owner == ByHost && c.pc == Parked
    case ResumeCopied(_) => c.state == Active && c.owner == ByHost && c.pc == Parked
    case MustWait(_) => c.state == Active && c.owner == ByHost && c.pc in {Created, Woken}
    case Waiting(_) =>
      || (c.state == Active && c.owner == Free && c.pc in {Created, Woken})
      || (c.state == Active && c.owner == ByHook && c.pc in {Locked, Relocked, Running, Called})
      || (c.state == Done && c.owner == ByHook && c.pc == Returned)
    case Signalled(_) =>
      || (c.state == Active && ((c.owner == ByHook && c.pc == Notified) || (c.owner == Free && c.pc == Parked)))
      || (c.state == Done && ((c.owner == ByHook && c.pc == Notified2) || (c.owner == Free && c.pc == Exited)))
    case Relock(_) => c.owner == ByHost && ((c.state == Active && c.pc == Parked) || (c.state == Done && c.pc == Exited))
    case Unlocked(_) => c.owner == Free && ((c.state == Active && c.pc == Parked) || (c.state == Done && c.pc == Exited))
    case CopiedOut(_) => c.owner == Free && ((c.state == Active && c.pc == Parked) || (c.state == Done && c.pc == Exited))
    case Joining(_) => c.owner == Free && c.state == Done && c.pc == Exited
  }

  /** Any other context is unused, or suspended in a guest call. */
  ghost predicate RestOk<M>(c: Ctx<M>) {
    c.owner == Free && if !c.state.InUse() then c.pc == Absent else c.state == Active && c.pc == Parked
  }

  ghost predicate CtxOk<M>(s: State<M>, i: nat)
    requires i < |s.ctxs|
  {
    if s.host != Guest && s.host.id == i then BusyOk(s.host, s.ctxs[i]) else RestOk(s.ctxs[i])
  }

  /** The hook is past making itself active, or the host has just been handed its result. */
  ghost predicate ActiveOk<M>(s: State<M>) {
    s.host != Guest && s.host.id < |s.ctxs| ==>
      (s.ctxs[s.host.id].pc in {Running, Called, Returned} || s.host.Signalled? || s.host.Relock? || s.host.Unlocked? || s.host.CopiedOut?)
      ==> s.active == Some(s.host.id)
  }

  ghost predicate Inv<M>(s: State<M>) {
    && |s.ctxs| == MAX_EXEC
    && (s.host != Guest ==> s.host.id < MAX_EXEC)
    && (forall i :: 0 <= i < MAX_EXEC ==> CtxOk(s, i))
    && ActiveOk(s)
  }

  lemma StartInv<M>(m: M)
    ensures Inv(Start(m))
  {
  }

  lemma OthersKeep<M>(s: State<M>, s': State<M>, i: nat)
    requires Inv(s) && i < MAX_EXEC && |s'.ctxs| == |s.ctxs|
    requires forall j :: 0 <= j < MAX_EXEC && j != i ==> s'.ctxs[j] == s.ctxs[j]
    requires (s.host == Guest || s.host.id == i) && (s'.host == Guest || s'.host.id == i)
    requires CtxOk(s', i) && ActiveOk(s')
    ensures Inv(s')
  {
    forall j | 0 <= j < MAX_EXEC
      ensures CtxOk(s', j)
    {
      assert CtxOk(s, j);
    }
  }

  lemma HostKeepsInv<M>(s: State<M>)
    requires Inv(s) && HostNext(s).Some?
    ensures Inv(HostNext(s).value)
  {
    assert CtxOk(s, s.host.id);
    OthersKeep(s, HostNext(s).value, s.host.id);
  }

  lemma HookKeepsInv<M>(s: State<M>, i: nat)
    requires Inv(s) && i < MAX_EXEC && HookNext(s, i).Some?
    ensures Inv(HookNext(s, i).value)
  {
    assert CtxOk(s, i);
    OthersKeep(s, HookNext(s, i).value, i);
  }

  lemma StepKeepsInv<M>(s: State<M>, t: Step<M>)
    requires Inv(s) && Do(s, t).Some?
    ensures Inv(Do(s, t).value)
  {
    var s' := Do(s, t).value;
    match t {
      case GuestRuns(_) => forall j | 0 <= j < MAX_EXEC ensures CtxOk(s', j) { assert CtxOk(s, j); }
      case Begin => var i := FirstFree(States(s.ctxs), 0).value; assert CtxOk(s, i); OthersKeep(s, s', i);
      case Resume(i) => assert CtxOk(s, i); OthersKeep(s, s', i);
      case HookRuns(i, _) => assert CtxOk(s, i); OthersKeep(s, s', i);
      case HookCalls(i) => assert CtxOk(s, i); OthersKeep(s, s', i);
      case HookReturns(i) => assert CtxOk(s, i); OthersKeep(s, s', i);
      case HostGoesOn => HostKeepsInv(s);
      case HookGoesOn(i) => HookKeepsInv(s, i);
    }
  }

  // ------------------------------------------------------------------------
  // Whole runs.

  ghost predicate IsRun<M>(ss: seq<State<M>>, ts: seq<Step<M>>) {
    && |ss| == |ts| + 1
    && ss[0] == Start(ss[0].machine)
    && forall k :: 0 <= k < |ts| ==> Do(ss[k], ts[k]) == Some(ss[k + 1])
  }

  lemma {:induction false} RunInv<M>(ss: seq<State<M>>, ts: seq<Step<M>>, k: nat)
    requires IsRun(ss, ts) && k < |ss|
    ensures Inv(ss[k])
  {
    if k == 0 {
      StartInv(ss[0].machine);
    } else {
      RunInv(ss, ts, k - 1);
      assert Do(ss[k - 1], ts[k - 1]) == Some(ss[k]);
      StepKeepsInv(ss[k - 1], ts[k - 1]);
    }
  }

  datatype Who = TheHost | Hook(id: nat)

  /** Who is running guest-visible code. */
  ghost predicate Runs<M>(s: State<M>, w: Who) {
    match w
    case TheHost => s.host == Guest
    case Hook(i) => i < |s.ctxs| && s.ctxs[i].pc == Running
  }

  /** In every interleaving: one thread at a time runs guest-visible code; every signal finds its waiter;
      the host copies a context's machine only while that hook is not running; and a running hook is the active context. */
  lemma ExclusiveAndHeard<M>(ss: seq<State<M>>, ts: seq<Step<M>>, k: nat)
    requires IsRun(ss, ts) && k < |ss|
    ensures var s := ss[k];
      && (forall v, w :: Runs(s, v) && Runs(s, w) ==> v == w)
      && (forall i :: 0 <= i < |s.ctxs| && s.ctxs[i].pc in {Called, Returned} ==> s.host == Waiting(i))
      && (s.host != Guest ==> s.host.id < |s.ctxs|)
      && (s.host.ResumeCopied? ==> s.ctxs[s.host.id].pc == Parked)
      && (s.host.BeginLocked? || s.host.ResumeLocked? || s.host.Unlocked? ==> s.ctxs[s.host.id].pc in {Absent, Parked, Exited})
      && (forall i :: 0 <= i < |s.ctxs| && s.ctxs[i].pc == Running ==> s.active == Some(i))
  {
    RunInv(ss, ts, k);
    var s := ss[k];
    forall v, w | Runs(s, v) && Runs(s, w)
      ensures v == w
    {
      if v.Hook? { assert CtxOk(s, v.id); }
      if w.Hook? { assert CtxOk(s, w.id); }
    }
    forall i | 0 <= i < |s.ctxs| && s.ctxs[i].pc in {Called, Returned, Running}
      ensures s.host == Waiting(i)
    {
      assert CtxOk(s, i);
    }
    if s.host != Guest { assert CtxOk(s, s.host.id); }
  }

  /** When a call's result reaches the host, the active context is the one that called. */
  lemma CallerStaysActive<M>(ss: seq<State<M>>, ts: seq<Step<M>>, k: nat)
    requires IsRun(ss, ts) && k < |ts| && ss[k].host.CopiedOut? && ts[k].HostGoesOn?
    ensures ss[k + 1].active == Some(ss[k].host.id)
  {
    RunInv(ss, ts, k);
    assert Do(ss[k], ts[k]) == Some(ss[k + 1]);
  }

  // ------------------------------------------------------------------------
  // There is one machine: the copies never diverge.

  /** The copy that counts: the host's, or that of the context it handed the machine to. */
  ghost function Current<M>(s: State<M>): M
    requires s.host == Guest || s.host.id < |s.ctxs|
  {
    match s.host
    case Copied(i) => s.ctxs[i].machine
    case ResumeCopied(i) => s.ctxs[i].machine
    case MustWait(i) => s.ctxs[i].machine
    case Waiting(i) => s.ctxs[i].machine
    case Signalled(i) => s.ctxs[i].machine
    case Relock(i) => s.ctxs[i].machine
    case Unlocked(i) => s.ctxs[i].machine
    case _ => s.machine
  }

  /** Only code that runs changes the machine: the protocol hands it over as it is. */
  lemma HandedOver<M>(s: State<M>, t: Step<M>)
    requires Inv(s) && Do(s, t).Some?
    ensures var s' := Do(s, t).value;
      && (s'.host == Guest || s'.host.id < |s'.ctxs|)
      && Current(s') == match t
         case GuestRuns(m) => m
         case HookRuns(_, m) => m
         case _ => Current(s)
  {
    StepKeepsInv(s, t);
    if t.HookRuns? || t.HookCalls? || t.HookReturns? || t.HookGoesOn? { assert CtxOk(s, t.id); }
  }

  // ------------------------------------------------------------------------
  // Nobody hangs: between two pieces of running code there is a bounded number of
  // protocol steps, and one of them can always be taken.

  ghost function HostRank(h: HostPc): nat {
    match h
    case Guest => 0
    case Joining(_) => 1
    case CopiedOut(_) => 2
    case Unlocked(_) => 3
    case Relock(_) => 4
    case Signalled(_) => 5
    case Waiting(_) => 6
    case MustWait(_) => 7
    case Copied(_) => 13
    case ResumeCopied(_) => 13
    case BeginLocked(_) => 14
    case ResumeLocked(_) => 14
    case Acquired(_) => 15
    case Resuming(_) => 15
  }

  ghost function PcRank(pc: HookPc): nat {
    match pc
    case Created => 5
    case Woken => 5
    case Locked => 4
    case Relocked => 4
    case Running => 3
    case Called => 2
    case Returned => 2
    case Notified => 1
    case Notified2 => 1
    case _ => 0
  }

  ghost function Rank<M>(s: State<M>): nat
    requires Inv(s)
  {
    if s.host == Guest then 0 else HostRank(s.host) + PcRank(s.ctxs[s.host.id].pc)
  }

  lemma ProtocolMovesOn<M>(s: State<M>, t: Step<M>)
    requires Inv(s) && Do(s, t).Some? && !Choice(t)
    ensures Inv(Do(s, t).value) && Rank(Do(s, t).value) < Rank(s) <= 20
  {
    StepKeepsInv(s, t);
    if s.host != Guest { assert CtxOk(s, s.host.id); }
    if t.HookGoesOn? { assert CtxOk(s, t.id); }
  }

  lemma NobodyHangs<M>(s: State<M>)
    requires Inv(s) && forall w :: !Runs(s, w)
    ensures s.host != Guest && (Do(s, HostGoesOn).Some? || Do(s, HookGoesOn(s.host.id)).Some?)
  {
    assert !Runs(s, TheHost) && !Runs(s, Hook(s.host.id));
    assert CtxOk(s, s.host.id);
  }

  // ------------------------------------------------------------------------
  // Nested runs: the context resumed is always the one suspended last.

  /** Exactly the contexts below `depth` are in use, and the host is busy with the last of them. */
  ghost predicate Nested<M>(s: State<M>, depth: nat) {
    && depth <= |s.ctxs| == MAX_EXEC
    && (forall i :: 0 <= i < MAX_EXEC ==> (s.ctxs[i].state.InUse() <==> i < depth))
    && (s.host != Guest ==> s.host.id + 1 == depth)
  }

  ghost predicate LastFirst<M>(t: Step<M>, depth: nat) {
    t.Resume? ==> t.id + 1 == depth
  }

  /** A hook's context id is the number of hooks it is nested in. */
  lemma NestedStep<M>(s: State<M>, t: Step<M>, depth: nat)
    requires Inv(s) && Nested(s, depth) && Do(s, t).Some? && LastFirst(t, depth)
    ensures var s' := Do(s, t).value;
      match t
      case Begin => depth < MAX_EXEC && s'.host == Acquired(depth) && Nested(s', depth + 1)
      case HostGoesOn => Nested(s', if s.host.Joining? then depth - 1 else depth)
      case _ => Nested(s', depth)
  {
    if t.HookRuns? || t.HookCalls? || t.HookReturns? || t.HookGoesOn? { assert CtxOk(s, t.id); }
    if s.host != Guest { assert CtxOk(s, s.host.id); }
    if t.Begin? { FirstFreeIs(s, depth); }
  }

  lemma FirstFreeIs<M>(s: State<M>, depth: nat)
    requires Nested(s, depth)
    ensures FirstFree(States(s.ctxs), 0) == if depth < MAX_EXEC then Some(depth) else None
  {
    FirstFreeAfterPrefix(States(s.ctxs), depth);
  }

  /** A new hook finds no context exactly when all of them hold suspended hooks. */
  lemma BeginFailsOnlyWhenFull<M>(s: State<M>, depth: nat)
    requires Inv(s) && Nested(s, depth) && s.host == Guest
    ensures Do(s, Begin).None? <==> depth == 1024
    ensures forall i :: 0 <= i < depth ==> s.ctxs[i].state == Active && s.ctxs[i].pc == Parked
  {
    FirstFreeIs(s, depth);
    forall i | 0 <= i < depth
      ensures s.ctxs[i].state == Active && s.ctxs[i].pc == Parked
    {
      assert CtxOk(s, i);
    }
  }
}
