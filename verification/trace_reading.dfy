/** Which of a run's events are read back, in which order, and against which load segment. */
module TraceOrder {
  import opened Wrappers

  /** An event, the load segment then, and whether its line was written. No load segment is 0xffff. */
  datatype Mark<E> = Mark(event: E, load: nat, written: bool) {
    predicate Configures() {
      written && load != 0xffff
    }
  }

  /** What it is for an event to be read as another against a load segment. */
  type Reading<!E, !T> = (E, Option<nat>, T) -> bool

  ghost predicate NoneConfigures<E>(run: seq<Mark<E>>, from: nat, to: nat)
    requires to <= |run|
  {
    forall j :: from <= j < to ==> !run[j].Configures()
  }

  /** The load segment in force after the first `n` moments is the one that the last of them configured, if one did. */
  ghost predicate InForceAfter<E>(run: seq<Mark<E>>, n: nat, load: Option<nat>)
    requires n <= |run|
  {
    match load
    case Some(l) => exists k: nat {:trigger NoneConfigures(run, k + 1, n)} ::
      k < n && run[k].Configures() && l == run[k].load && NoneConfigures(run, k + 1, n)
    case None => NoneConfigures(run, 0, n)
  }

  /** How many of the first `n` moments were written. */
  ghost function WrittenBefore<E>(run: seq<Mark<E>>, n: nat): nat
    requires n <= |run|
  {
    if n == 0 then 0 else WrittenBefore(run, n - 1) + if run[n - 1].written then 1 else 0
  }

  /** Moment `i` is read against the load segment in force then, and stands among the events in its order. */
  ghost predicate ReadAt<E, T>(R: Reading<E, T>, run: seq<Mark<E>>, i: nat, events: seq<T>)
    requires i < |run|
  {
    && WrittenBefore(run, i) < |events|
    && exists load :: InForceAfter(run, i + 1, load) && R(run[i].event, load, events[WrittenBefore(run, i)])
  }

  /** The events are those of the written moments among the first `n`. */
  ghost predicate ReadUpTo<E, T>(R: Reading<E, T>, run: seq<Mark<E>>, n: nat, events: seq<T>)
    requires n <= |run|
  {
    && |events| == WrittenBefore(run, n)
    && forall i: nat {:trigger ReadAt(R, run, i, events)} :: i < n && run[i].written ==> ReadAt(R, run, i, events)
  }

  /** The same, moment by moment. */
  ghost predicate ReadInTurn<E, T>(R: Reading<E, T>, run: seq<Mark<E>>, load: Option<nat>, events: seq<T>)
    decreases |run|
  {
    if run == [] then events == []
    else
      var next := if run[0].Configures() then Some(run[0].load) else load;
      if run[0].written then events != [] && R(run[0].event, next, events[0]) && ReadInTurn(R, run[1..], next, events[1..])
      else ReadInTurn(R, run[1..], next, events)
  }

  lemma OneMoreInForce<E>(run: seq<Mark<E>>, n: nat, load: Option<nat>, next: Option<nat>)
    requires n < |run| && InForceAfter(run, n, load) && next == if run[n].Configures() then Some(run[n].load) else load
    ensures InForceAfter(run, n + 1, next)
  {
    if run[n].Configures() {
      assert NoneConfigures(run, n + 1, n + 1);
    } else if load.Some? {
      var k: nat :| k < n && run[k].Configures() && load.value == run[k].load && NoneConfigures(run, k + 1, n);
      assert NoneConfigures(run, k + 1, n + 1);
    }
  }

  lemma ReadStays<E, T>(R: Reading<E, T>, run: seq<Mark<E>>, i: nat, events: seq<T>, more: seq<T>)
    requires i < |run| && ReadAt(R, run, i, events)
    ensures ReadAt(R, run, i, events + more)
  {
    var load :| InForceAfter(run, i + 1, load) && R(run[i].event, load, events[WrittenBefore(run, i)]);
    assert R(run[i].event, load, (events + more)[WrittenBefore(run, i)]);
  }

  lemma OneMoreRead<E, T>(R: Reading<E, T>, run: seq<Mark<E>>, n: nat, load: Option<nat>, events: seq<T>, t: T)
    requires n < |run| && InForceAfter(run, n + 1, load) && ReadUpTo(R, run, n, events) && run[n].written && R(run[n].event, load, t)
    ensures ReadUpTo(R, run, n + 1, events + [t])
  {
    forall i: nat | i < n + 1 && run[i].written
      ensures ReadAt(R, run, i, events + [t])
    {
      if i < n {
        ReadStays(R, run, i, events, [t]);
      } else {
        assert R(run[n].event, load, (events + [t])[WrittenBefore(run, n)]);
      }
    }
  }

  /** What is read in turn is read in order. */
  lemma {:induction false} InTurnInOrder<E, T>(R: Reading<E, T>, run: seq<Mark<E>>, n: nat, load: Option<nat>, events: seq<T>, more: seq<T>)
    requires n <= |run| && InForceAfter(run, n, load) && ReadUpTo(R, run, n, events) && ReadInTurn(R, run[n..], load, more)
    ensures ReadUpTo(R, run, |run|, events + more)
    decreases |run| - n
  {
    if n == |run| {
      assert events + more == events;
    } else {
      assert run[n..][1..] == run[n + 1..];
      var next := if run[n].Configures() then Some(run[n].load) else load;
      OneMoreInForce(run, n, load, next);
      if run[n].written {
        OneMoreRead(R, run, n, next, events, more[0]);
        InTurnInOrder(R, run, n + 1, next, events + [more[0]], more[1..]);
        assert events + [more[0]] + more[1..] == events + more;
      } else {
        InTurnInOrder(R, run, n + 1, next, events, more);
      }
    }
  }
}

/** What is read back, said of the events of a run alone (dis86/src/trace.rs). */
module TraceReading {
  import opened Wrappers
  import opened TraceText
  import opened TraceFormat
  import opened TraceRoundTrip
  import opened TraceOrder

  /** An address at or above the load segment, outside the two windows of magic return addresses, is read relative to
      it; no other is read as an address. */
  ghost predicate ReadAddr(a: Addr, load: Option<nat>, x: Option<Addr>) {
    if load.Some? && load.value <= a.seg && a.seg != 0xffff && a.off < 0xff00
    then x.Some? && x.value.seg + load.value == a.seg && x.value.off == a.off
    else x.None?
  }

  /** A name is read back if it is one word and the buffer leaves room for it. */
  ghost predicate ReadName(name: Option<string>, most: nat, x: Option<string>) {
    x == if NameOfLength(name, 0, most) then name else None
  }

  ghost predicate ReadEventAs(e: Event, load: Option<nat>, t: TraceEvent) {
    match e
    case Dispatch(enter, at, name, result) =>
      t.TDispatch? && t.enter == enter && ReadAddr(at, load, t.addr) && ReadName(name, 219, t.name) && t.result == result
    case Call(from, to, name) => t.TCall? && ReadAddr(from, load, t.from) && ReadAddr(to, load, t.to) && ReadName(name, 217, t.name)
    case Ret(from, to, name) => t.TRet? && ReadAddr(from, load, t.from) && ReadAddr(to, load, t.to) && ReadName(name, 218, t.name)
    case NativeCall(from, to, name, args) =>
      && t.TNativeCall? && ReadAddr(from, load, t.from) && ReadAddr(to, load, t.to) && ReadName(name, 466, t.name)
      && t.nargs == |t.args| == (if |args| < 8 then |args| else 8) && forall i :: 0 <= i < |t.args| ==> t.args[i] == args[i]
    case NativeRet(from, to, dx, ax) =>
      t.TNativeRet? && ReadAddr(from, load, t.from) && ReadAddr(to, load, t.to) && t.dx == dx && t.ax == ax
    case Step(at) => t.TStep? && ReadAddr(at, load, t.addr)
    case Int(num, ah) => t.TInt? && t.num == num && t.ah == ah
  }

  lemma AddrIsRead(a: Addr, load: Option<nat>)
    ensures ReadAddr(a, load, Resolve((a.seg, a.off), load))
  {
  }

  lemma NameIsRead(e: Event, most: nat)
    requires BaseLength(e) + most + 7 == Size(e)
    ensures ReadName(NameOf(e), most, if KeepsName(e) then NameOf(e) else None)
  {
    LengthOfLine(e);
  }

  lemma EventIsRead(e: Event, load: Option<nat>)
    ensures ReadEventAs(e, load, Seen(e, load))
  {
    match e
    case Dispatch(_, at, _, _) => AddrIsRead(at, load); NameIsRead(e, 219);
    case Call(f, t, _) => AddrIsRead(f, load); AddrIsRead(t, load); NameIsRead(e, 217);
    case Ret(f, t, _) => AddrIsRead(f, load); AddrIsRead(t, load); NameIsRead(e, 218);
    case NativeCall(f, t, _, _) => AddrIsRead(f, load); AddrIsRead(t, load); NameIsRead(e, 466);
    case NativeRet(f, t, _, _) => AddrIsRead(f, load); AddrIsRead(t, load);
    case Step(at) => AddrIsRead(at, load);
    case Int(_, _) =>
  }

  // ------------------------------------------------------------------------
  // A whole run.

  ghost function ReadsAs(): Reading<Event, TraceEvent> {
    (e, load, t) => ReadEventAs(e, load, t)
  }

  ghost function MarksOf(run: seq<Moment>): (marks: seq<Mark<Event>>)
    ensures |marks| == |run| && forall i :: 0 <= i < |run| ==> marks[i] == Mark(run[i].event, run[i].load, IsWritten(run[i].event))
  {
    seq(|run|, i requires 0 <= i < |run| => Mark(run[i].event, run[i].load, IsWritten(run[i].event)))
  }

  lemma {:induction false} SeenInTurn(run: seq<Moment>, load: Option<nat>)
    ensures ReadInTurn(ReadsAs(), MarksOf(run), load, SeenAll(run, load))
    decreases |run|
  {
    if run != [] {
      var m := run[0];
      assert MarksOf(run)[1..] == MarksOf(run[1..]);
      SeenInTurn(run[1..], LoadAfter(m, load));
      EventIsRead(m.event, InForce(load, m.load));
      var rest := SeenAll(run[1..], LoadAfter(m, load));
      assert SeenOne(m, load) + rest == if IsWritten(m.event) then [Seen(m.event, InForce(load, m.load))] + rest else rest;
    }
  }

  /** Events read in turn are read in order. */
  lemma InTurnIsInOrder(run: seq<Moment>, marks: seq<Mark<Event>>, events: seq<TraceEvent>)
    requires |marks| == |run| && ReadInTurn(ReadsAs(), marks, None, events)
    ensures ReadUpTo(ReadsAs(), marks, |run|, events)
  {
    assert marks[0..] == marks && [] + events == events;
    InTurnInOrder(ReadsAs(), marks, 0, None, [], events);
  }

  lemma ParsedInTurn(run: seq<Moment>) returns (events: seq<TraceEvent>)
    requires AllClean(run)
    ensures ParseTrace(Text(EmitAll(Opened(), run).lines)) == Some(events)
    ensures ReadInTurn(ReadsAs(), MarksOf(run), None, events)
  {
    TraceRoundTrips(run);
    SeenInTurn(run, None);
    events := SeenAll(run, None);
  }

  /** Parsing what was written in any run gives one event for each moment whose event was written, in order, with its
      addresses relative to the load segment in force at that moment. */
  lemma WrittenTraceReads(run: seq<Moment>)
    requires AllClean(run)
    ensures var events := ParseTrace(Text(EmitAll(Opened(), run).lines));
      events.Some? && ReadUpTo(ReadsAs(), MarksOf(run), |run|, events.value)
  {
    var events := ParsedInTurn(run);
    InTurnIsInOrder(run, MarksOf(run), events);
  }
}
