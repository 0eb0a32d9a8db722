/** The events of a trace, how they are written (hydra/src/trace.c) and how they are read (dis86/src/trace.rs). */
module TraceFormat {
  import opened Wrappers
  import opened TraceText

  type u16 = x: int | 0 <= x < 0x1_0000
  type u8 = x: int | 0 <= x < 0x100

  datatype Addr = Addr(seg: u16, off: u16)

  /** An event as it happens. */
  datatype Event =
    | Dispatch(enter: bool, at: Addr, name: Option<string>, result: Option<string>)
    | Call(from: Addr, to: Addr, name: Option<string>)
    | Ret(from: Addr, to: Addr, name: Option<string>)
    | NativeCall(from: Addr, to: Addr, name: Option<string>, args: seq<u16>)
    | NativeRet(from: Addr, to: Addr, dx: u16, ax: u16)
    | Step(at: Addr)
    | Int(num: u8, ah: u8)

  /** An event as it is read: addresses are relative to the loaded code, where they are addresses of code. */
  datatype TraceEvent =
    | TDispatch(enter: bool, addr: Option<Addr>, name: Option<string>, result: Option<string>)
    | TCall(from: Option<Addr>, to: Option<Addr>, name: Option<string>)
    | TRet(from: Option<Addr>, to: Option<Addr>, name: Option<string>)
    | TNativeCall(from: Option<Addr>, to: Option<Addr>, name: Option<string>, nargs: nat, args: seq<nat>)
    | TNativeRet(from: Option<Addr>, to: Option<Addr>, dx: nat, ax: nat)
    | TStep(addr: Option<Addr>)
    | TInt(num: nat, ah: nat)

  const MAX_ARGS: nat := 8

  // ------------------------------------------------------------------------
  // Writing.

  function AddrText(a: Addr): string {
    Hex4(a.seg) + ":" + Hex4(a.off)
  }

  function ArgFields(args: seq<u16>): seq<(string, string)>
    requires |args| <= MAX_ARGS
  {
    seq(|args|, i requires 0 <= i < |args| => ("arg" + [Digit(i)], Hex4(args[i])))
  }

  /** What an event line starts with. */
  function Heads(e: Event): seq<string> {
    match e
    case Dispatch(enter, _, _, _) => ["dispatch", if enter then "enter" else "leave"]
    case Call(_, _, _) => ["call"]
    case Ret(_, _, _) => ["ret"]
    case NativeCall(_, _, _, _) => ["native_call"]
    case NativeRet(_, _, _, _) => ["native_ret"]
    case Step(_) => ["step"]
    case Int(_, _) => ["int"]
  }

  function FromToFields(from: Addr, to: Addr): seq<(string, string)> {
    [("from", AddrText(from)), ("to", AddrText(to))]
  }

  /** The fields before the name. */
  function Firsts(e: Event): seq<(string, string)> {
    match e
    case Dispatch(_, at, _, _) => [("cs", Hex4(at.seg)), ("ip", Hex4(at.off))]
    case Call(from, to, _) => FromToFields(from, to)
    case Ret(from, to, _) => FromToFields(from, to)
    case NativeCall(from, to, _, _) => FromToFields(from, to)
    case NativeRet(from, to, dx, ax) => FromToFields(from, to) + [("dx", Hex4(dx)), ("ax", Hex4(ax))]
    case Step(at) => [("cs", Hex4(at.seg)), ("ip", Hex4(at.off))]
    case Int(num, ah) => [("num", Hex2(num)), ("ah", Hex2(ah))]
  }

  /** The fields after the name. The writer never writes more than `MAX_ARGS` arguments. */
  function Lasts(e: Event): seq<(string, string)> {
    match e
    case Dispatch(_, _, _, result) => if result.Some? then [("result", result.value)] else []
    case NativeCall(_, _, _, args) =>
      var n := if |args| <= MAX_ARGS then |args| else MAX_ARGS;
      [("nargs", [Digit(n)])] + ArgFields(args[..n])
    case _ => []
  }

  function NameOf(e: Event): Option<string> {
    match e
    case Dispatch(_, _, name, _) => name
    case Call(_, _, name) => name
    case Ret(_, _, name) => name
    case NativeCall(_, _, name, _) => name
    case _ => None
  }

  /** The size of the buffer the line is put together in. */
  function Size(e: Event): nat {
    if e.NativeCall? then 512 else if e.Step? || e.Int? then 64 else 256
  }

  /** Names with the white space the writer knows of are not written. */
  predicate NameIsToken(name: string) {
    name != "" && forall i :: 0 <= i < |name| ==> name[i] !in {' ', '\t', '\n', '\r'}
  }

  /** A name is written if it fits into what the first fields leave of the buffer. */
  predicate KeepsName(e: Event) {
    var name := NameOf(e);
    name.Some? && NameIsToken(name.value) && |Line(Heads(e) + FieldWords(Firsts(e)))| + |name.value| + 7 <= Size(e)
  }

  function Fields(e: Event): seq<(string, string)> {
    Firsts(e) + (if KeepsName(e) then [("name", NameOf(e).value)] else []) + Lasts(e)
  }

  function LineOf(e: Event): string {
    Line(Heads(e) + FieldWords(Fields(e)))
  }

  /** A line that does not fit its buffer, with its newline and terminator, is not written at all. */
  predicate IsWritten(e: Event) {
    |LineOf(e)| + 1 < Size(e)
  }

  const HEADER: string := "# hydra trace v1"

  function LoadLine(load: u16): string {
    "# code_load=" + Hex4(load)
  }

  /** The lines of the sink so far, and the load segment last written to it. */
  datatype Sink = Sink(lines: seq<string>, last: Option<nat>)

  function Opened(): Sink { Sink([HEADER], None) }

  /** An event's line, after the load segment when that is configured and new. */
  function Emit(s: Sink, e: Event, load: u16): Sink {
    if !IsWritten(e) then s
    else if load == 0xffff || s.last == Some(load) then s.(lines := s.lines + [LineOf(e)])
    else Sink(s.lines + [LoadLine(load), LineOf(e)], Some(load))
  }

  /** An event, and the load segment when it happened. */
  datatype Moment = Moment(event: Event, load: u16)

  function EmitAll(s: Sink, run: seq<Moment>): Sink
    decreases |run|
  {
    if run == [] then s else EmitAll(Emit(s, run[0].event, run[0].load), run[1..])
  }

  // ------------------------------------------------------------------------
  // Reading.

  function Resolve(a: (nat, nat), load: Option<nat>): Option<Addr> {
    if load.None? || a.0 < load.value || a.0 == 0xffff || a.1 >= 0xff00 || a.0 - load.value >= 0x1_0000 then None
    else Some(Addr(a.0 - load.value, a.1))
  }

  function NeedU16(m: map<string, string>, key: string): Option<nat> {
    if key in m then ParseHex16(m[key]) else None
  }

  function NeedU8(m: map<string, string>, key: string): Option<nat> {
    var v := NeedU16(m, key);
    if v.Some? && v.value > 0xff then None else v
  }

  function NeedAddr(m: map<string, string>, seg: string, off: string): Option<(nat, nat)> {
    var s, o := NeedU16(m, seg), NeedU16(m, off);
    if s.None? || o.None? then None else Some((s.value, o.value))
  }

  function NeedSegOff(m: map<string, string>, key: string): Option<(nat, nat)> {
    if key !in m then None
    else
      var parts := SplitOnce(m[key], ':');
      if parts.None? then None
      else
        var s, o := ParseHex16(parts.value.0), ParseHex16(parts.value.1);
        if s.None? || o.None? then None else Some((s.value, o.value))
  }

  function OptStr(m: map<string, string>, key: string): Option<string> {
    if key in m then Some(m[key]) else None
  }

  /** A number in decimal. */
  function Decimal(n: nat): string {
    if n < 10 then [Digit(n)] else Decimal(n / 10) + [Digit(n % 10)]
  }

  function NeedArgs(m: map<string, string>, i: nat, n: nat): Option<seq<nat>>
    decreases n - i
  {
    if i >= n then Some([])
    else
      var v, rest := NeedU16(m, "arg" + Decimal(i)), NeedArgs(m, i + 1, n);
      if v.None? || rest.None? then None else Some([v.value] + rest.value)
  }

  function FromTo(m: map<string, string>): Option<((nat, nat), (nat, nat))> {
    var f, t := NeedSegOff(m, "from"), NeedSegOff(m, "to");
    if f.None? || t.None? then None else Some((f.value, t.value))
  }

  /** The event a line of words stands for; `None` where the reader reports an error. */
  function ReadEvent(words: seq<string>, load: Option<nat>): Option<TraceEvent>
    requires words != []
  {
    var kind := words[0];
    if kind == "dispatch" then
      if |words| < 2 || (words[1] != "enter" && words[1] != "leave") then None
      else
        var m := ParseFields(words[2..]);
        if m.None? then None
        else
          var a := NeedAddr(m.value, "cs", "ip");
          if a.None? then None
          else Some(TDispatch(words[1] == "enter", Resolve(a.value, load), OptStr(m.value, "name"), OptStr(m.value, "result")))
    else
      var m := ParseFields(words[1..]);
      if m.None? then None else ReadPlain(kind, m.value, load)
  }

  function ReadPlain(kind: string, m: map<string, string>, load: Option<nat>): Option<TraceEvent> {
    if kind == "call" || kind == "ret" then
      var ft := FromTo(m);
      if ft.None? then None
      else
        var f, t, name := Resolve(ft.value.0, load), Resolve(ft.value.1, load), OptStr(m, "name");
        Some(if kind == "call" then TCall(f, t, name) else TRet(f, t, name))
    else if kind == "native_call" then
      var ft, n := FromTo(m), NeedU16(m, "nargs");
      if ft.None? || n.None? then None
      else
        var args := NeedArgs(m, 0, n.value);
        if args.None? then None
        else Some(TNativeCall(Resolve(ft.value.0, load), Resolve(ft.value.1, load), OptStr(m, "name"), n.value, args.value))
    else if kind == "native_ret" then
      var ft, dx, ax := FromTo(m), NeedU16(m, "dx"), NeedU16(m, "ax");
      if ft.None? || dx.None? || ax.None? then None
      else Some(TNativeRet(Resolve(ft.value.0, load), Resolve(ft.value.1, load), dx.value, ax.value))
    else if kind == "step" then
      var a := NeedAddr(m, "cs", "ip");
      if a.None? then None else Some(TStep(Resolve(a.value, load)))
    else if kind == "int" then
      var n, ah := NeedU8(m, "num"), NeedU8(m, "ah");
      if n.None? || ah.None? then None else Some(TInt(n.value, ah.value))
    else None
  }

  datatype Reader = Reader(events: seq<TraceEvent>, load: Option<nat>, seen: bool)

  /** One line; the first has the number 1. */
  function ReadLine(r: Reader, raw: string, lineno: nat): Option<Reader> {
    var line := Trim(raw);
    if line == "" then Some(r)
    else if line[0] == '#' then
      var rest := Trim(line[1..]);
      if rest == "hydra trace v1" then if r.seen || lineno != 1 then None else Some(r.(seen := true))
      else if "code_load=" <= rest then
        var load := ParseHex16(rest[10..]);
        if load.None? then None else Some(r.(load := load))
      else Some(r)
    else if !r.seen then None
    else
      var words := Words(line, "");
      if words == [] then None
      else
        var e := ReadEvent(words, r.load);
        if e.None? then None else Some(r.(events := r.events + [e.value]))
  }

  function ReadLines(r: Reader, lines: seq<string>, lineno: nat): Option<Reader>
    decreases |lines|
  {
    if lines == [] then Some(r)
    else
      var next := ReadLine(r, lines[0], lineno);
      if next.None? then None else ReadLines(next.value, lines[1..], lineno + 1)
  }

  function ParseTrace(text: string): Option<seq<TraceEvent>> {
    var r := ReadLines(Reader([], None, false), Lines(text, ""), 1);
    if r.None? || !r.value.seen then None else Some(r.value.events)
  }

  // ------------------------------------------------------------------------
  // What reading back should give.

  function Seen(e: Event, load: Option<nat>): TraceEvent {
    var name := if KeepsName(e) then NameOf(e) else None;
    match e
    case Dispatch(enter, at, _, result) => TDispatch(enter, Resolve((at.seg, at.off), load), name, result)
    case Call(f, t, _) => TCall(Resolve((f.seg, f.off), load), Resolve((t.seg, t.off), load), name)
    case Ret(f, t, _) => TRet(Resolve((f.seg, f.off), load), Resolve((t.seg, t.off), load), name)
    case NativeCall(f, t, _, args) =>
      var n := if |args| <= MAX_ARGS then |args| else MAX_ARGS;
      TNativeCall(Resolve((f.seg, f.off), load), Resolve((t.seg, t.off), load), name, n, args[..n])
    case NativeRet(f, t, dx, ax) => TNativeRet(Resolve((f.seg, f.off), load), Resolve((t.seg, t.off), load), dx, ax)
    case Step(at) => TStep(Resolve((at.seg, at.off), load))
    case Int(num, ah) => TInt(num, ah)
  }

  /** The load segment in force: that of the event, or the last that was configured before. */
  function InForce(last: Option<nat>, load: u16): Option<nat> {
    if load == 0xffff then last else Some(load)
  }

  /** What one moment adds to what is read back. */
  function SeenOne(m: Moment, last: Option<nat>): seq<TraceEvent> {
    if IsWritten(m.event) then [Seen(m.event, InForce(last, m.load))] else []
  }

  /** The last load segment the reader knows after that moment. */
  function LoadAfter(m: Moment, last: Option<nat>): Option<nat> {
    if IsWritten(m.event) then InForce(last, m.load) else last
  }

  /** Each written event, against the load segment in force. */
  function SeenAll(run: seq<Moment>, last: Option<nat>): seq<TraceEvent>
    decreases |run|
  {
    if run == [] then [] else SeenOne(run[0], last) + SeenAll(run[1..], LoadAfter(run[0], last))
  }

  /** Names and results hold no white space that the writer does not know of. */
  ghost predicate Clean(e: Event) {
    && (NameOf(e).Some? ==> forall i :: 0 <= i < |NameOf(e).value| ==> IsSpace(NameOf(e).value[i]) ==> NameOf(e).value[i] in {' ', '\t', '\n', '\r'})
    && (e.Dispatch? && e.result.Some? ==> forall i :: 0 <= i < |e.result.value| ==> !IsSpace(e.result.value[i]))
  }
}
