/** Reading a written trace gives back the events that were written. */
module TraceRoundTrip {
  import opened Wrappers
  import opened TraceText
  import opened TraceFormat

  // ------------------------------------------------------------------------
  // Every part of a line is one word.

  ghost predicate NoSpace(s: string) {
    forall i :: 0 <= i < |s| ==> !IsSpace(s[i])
  }

  lemma HexIsWord(v: nat)
    ensures v < 0x1_0000 ==> NoSpace(Hex4(v)) && ':' !in Hex4(v) && '=' !in Hex4(v)
    ensures v < 0x100 ==> NoSpace(Hex2(v)) && '=' !in Hex2(v)
  {
    if v < 0x1_0000 {
      DigitReads(v / 0x1000); DigitReads(v / 0x100 % 16); DigitReads(v / 0x10 % 16); DigitReads(v % 16);
    }
    if v < 0x100 {
      DigitReads(v / 16);
    }
  }

  lemma AddrIsWord(a: Addr)
    ensures NoSpace(AddrText(a))
  {
    HexIsWord(a.seg);
    HexIsWord(a.off);
  }

  lemma AddrReads(a: Addr, m: map<string, string>, key: string)
    requires key in m && m[key] == AddrText(a)
    ensures NeedSegOff(m, key) == Some((a.seg, a.off))
  {
    HexIsWord(a.seg);
    assert AddrText(a) == Hex4(a.seg) + [':'] + Hex4(a.off);
    SplitReads(Hex4(a.seg), ':', Hex4(a.off));
    Hex4Reads(a.seg);
    Hex4Reads(a.off);
  }

  ghost predicate WordFields(fs: seq<(string, string)>) {
    forall i :: 0 <= i < |fs| ==> NoSpace(fs[i].0) && NoSpace(fs[i].1)
  }

  lemma FieldsAreWords(fs: seq<(string, string)>)
    requires WordFields(fs)
    ensures forall i :: 0 <= i < |fs| ==> IsWord(FieldWords(fs)[i])
  {
    forall i | 0 <= i < |fs|
      ensures IsWord(FieldWords(fs)[i])
    {
      var w := FieldWords(fs)[i];
      assert w == fs[i].0 + "=" + fs[i].1;
      assert |"="| == 1 && !IsSpace("="[0]);
    }
  }

  lemma KeysAreWords()
    ensures NoSpace("cs") && NoSpace("ip") && NoSpace("from") && NoSpace("to") && NoSpace("name") && NoSpace("result")
    ensures NoSpace("nargs") && NoSpace("dx") && NoSpace("ax") && NoSpace("num") && NoSpace("ah")
  {
  }

  lemma TwoFields(k1: string, v1: string, k2: string, v2: string)
    requires NoSpace(k1) && NoSpace(v1) && NoSpace(k2) && NoSpace(v2)
    ensures WordFields([(k1, v1), (k2, v2)])
  {
  }

  lemma MoreFields(a: seq<(string, string)>, b: seq<(string, string)>)
    requires WordFields(a) && WordFields(b)
    ensures WordFields(a + b)
  {
  }

  lemma FromToAreWords(f: Addr, t: Addr)
    ensures WordFields(FromToFields(f, t))
  {
    KeysAreWords();
    AddrIsWord(f);
    AddrIsWord(t);
    TwoFields("from", AddrText(f), "to", AddrText(t));
  }

  lemma PairIsWords(k1: string, v1: nat, k2: string, v2: nat)
    requires NoSpace(k1) && NoSpace(k2) && v1 < 0x1_0000 && v2 < 0x1_0000
    ensures WordFields([(k1, Hex4(v1)), (k2, Hex4(v2))])
    ensures v1 < 0x100 && v2 < 0x100 ==> WordFields([(k1, Hex2(v1)), (k2, Hex2(v2))])
  {
    HexIsWord(v1);
    HexIsWord(v2);
    TwoFields(k1, Hex4(v1), k2, Hex4(v2));
    if v1 < 0x100 && v2 < 0x100 {
      TwoFields(k1, Hex2(v1), k2, Hex2(v2));
    }
  }

  lemma NativeRetIsWords(f: Addr, t: Addr, dx: u16, ax: u16)
    ensures WordFields(Firsts(NativeRet(f, t, dx, ax)))
  {
    KeysAreWords();
    FromToAreWords(f, t);
    PairIsWords("dx", dx, "ax", ax);
    MoreFields(FromToFields(f, t), [("dx", Hex4(dx)), ("ax", Hex4(ax))]);
  }

  lemma AtIsWords(at: Addr)
    ensures WordFields([("cs", Hex4(at.seg)), ("ip", Hex4(at.off))])
  {
    KeysAreWords();
    PairIsWords("cs", at.seg, "ip", at.off);
  }

  lemma IntIsWords(num: u8, ah: u8)
    ensures WordFields([("num", Hex2(num)), ("ah", Hex2(ah))])
  {
    KeysAreWords();
    PairIsWords("num", num, "ah", ah);
  }

  lemma FirstsAreWords(e: Event)
    ensures WordFields(Firsts(e))
  {
    match e {
      case Dispatch(_, at, _, _) => AtIsWords(at);
      case Call(f, t, _) => FromToAreWords(f, t);
      case Ret(f, t, _) => FromToAreWords(f, t);
      case NativeCall(f, t, _, _) => FromToAreWords(f, t);
      case NativeRet(f, t, dx, ax) => NativeRetIsWords(f, t, dx, ax);
      case Step(at) => AtIsWords(at);
      case Int(num, ah) => IntIsWords(num, ah);
    }
  }

  lemma ArgsAreWords(args: seq<u16>)
    requires |args| <= MAX_ARGS
    ensures WordFields(ArgFields(args))
  {
    forall i | 0 <= i < |args|
      ensures NoSpace(ArgFields(args)[i].0) && NoSpace(ArgFields(args)[i].1)
    {
      ArgIsWord(i, args[i]);
    }
  }

  lemma ArgIsWord(i: nat, v: u16)
    requires i < MAX_ARGS
    ensures NoSpace("arg" + [Digit(i)]) && NoSpace(Hex4(v))
  {
    DigitReads(i);
    HexIsWord(v);
  }

  lemma OneField(k: string, v: string)
    requires NoSpace(k) && NoSpace(v)
    ensures WordFields([(k, v)])
  {
  }

  lemma LastsAreWords(e: Event)
    requires Clean(e)
    ensures WordFields(Lasts(e))
  {
    KeysAreWords();
    if e.NativeCall? {
      var n := if |e.args| <= MAX_ARGS then |e.args| else MAX_ARGS;
      DigitReads(n);
      OneField("nargs", [Digit(n)]);
      ArgsAreWords(e.args[..n]);
      MoreFields([("nargs", [Digit(n)])], ArgFields(e.args[..n]));
    } else if e.Dispatch? && e.result.Some? {
      OneField("result", e.result.value);
    }
  }

  function NameField(e: Event): seq<(string, string)> {
    if KeepsName(e) then [("name", NameOf(e).value)] else []
  }

  lemma NameIsWord(e: Event)
    requires Clean(e)
    ensures WordFields(NameField(e))
  {
    if KeepsName(e) {
      KeysAreWords();
      var name := NameOf(e).value;
      forall i | 0 <= i < |name|
        ensures !IsSpace(name[i])
      {
      }
    }
  }

  lemma HeadsAreWords(e: Event)
    ensures Heads(e) != [] && (forall i :: 0 <= i < |Heads(e)| ==> IsWord(Heads(e)[i])) && Heads(e)[0] != "" && Heads(e)[0][0] != '#'
  {
  }

  lemma EventIsWords(e: Event)
    requires Clean(e)
    ensures WordFields(Fields(e))
    ensures var words := Heads(e) + FieldWords(Fields(e)); words != [] && forall i :: 0 <= i < |words| ==> IsWord(words[i])
  {
    FirstsAreWords(e);
    LastsAreWords(e);
    NameIsWord(e);
    MoreFields(Firsts(e), NameField(e));
    MoreFields(Firsts(e) + NameField(e), Lasts(e));
    HeadsAreWords(e);
    FieldsAreWords(Fields(e));
  }

  // ------------------------------------------------------------------------
  // The keys of an event differ.

  lemma ArgKeys(args: seq<u16>)
    requires |args| <= MAX_ARGS
    ensures forall i :: 0 <= i < |args| ==> var k := ArgFields(args)[i].0;
      |k| == 4 && k[0] == 'a' && k[1] == 'r' && k[3] == Digit(i) && '=' !in k
    ensures forall i, j :: 0 <= i < j < |args| ==> ArgFields(args)[i].0 != ArgFields(args)[j].0
  {
    forall i | 0 <= i < |args|
      ensures var k := ArgFields(args)[i].0; |k| == 4 && k[0] == 'a' && k[1] == 'r' && k[3] == Digit(i) && '=' !in k
    {
      DigitReads(i);
    }
    forall i, j | 0 <= i < j < |args|
      ensures ArgFields(args)[i].0 != ArgFields(args)[j].0
    {
      DigitReads(i);
      DigitReads(j);
    }
  }

  lemma ShortKeys()
    ensures '=' !in "cs" && '=' !in "ip" && '=' !in "from" && '=' !in "to" && '=' !in "name" && '=' !in "result"
    ensures '=' !in "nargs" && '=' !in "dx" && '=' !in "ax" && '=' !in "num" && '=' !in "ah"
    ensures "cs" != "ip" && "from" != "name" && "dx" != "ax" && "to" != "dx" && "to" != "ax" && "num" != "ah"
    ensures forall k: string :: |k| == 4 && k[0] == 'a' ==> k != "from" && k != "name"
  {
    assert "cs"[0] != "ip"[0] && "from"[0] != "name"[0] && "dx"[0] != "ax"[0] && "to"[0] != "dx"[0] && "to"[0] != "ax"[0];
    assert "from"[0] == 'f' && "name"[0] == 'n';
  }

  lemma KeysOfTwo(k1: string, v1: string, k2: string, v2: string)
    requires '=' !in k1 && '=' !in k2 && k1 != k2
    ensures DistinctKeys([(k1, v1), (k2, v2)])
  {
  }

  /** Two groups of fields with keys of different lengths, or starting differently, can stand together. */
  lemma KeysTogether(a: seq<(string, string)>, b: seq<(string, string)>)
    requires DistinctKeys(a) && DistinctKeys(b)
    requires forall i, j :: 0 <= i < |a| && 0 <= j < |b| ==> a[i].0 != b[j].0
    ensures DistinctKeys(a + b)
  {
  }

  /** Keys of the first fields, of the name, and of the last fields are told apart by length and first letter. */
  ghost predicate FirstKey(k: string) {
    |k| in {2, 3} || (|k| == 4 && k[0] == 'f')
  }

  ghost predicate LastKey(k: string) {
    |k| in {5, 6} || (|k| == 4 && k[0] == 'a')
  }

  ghost predicate FirstKeysOnly(fs: seq<(string, string)>) {
    forall i :: 0 <= i < |fs| ==> FirstKey(fs[i].0)
  }

  lemma FromToKeys(f: Addr, t: Addr)
    ensures DistinctKeys(FromToFields(f, t)) && FirstKeysOnly(FromToFields(f, t))
  {
    ShortKeys();
    KeysOfTwo("from", AddrText(f), "to", AddrText(t));
  }

  lemma TwoFirstKeys(k1: string, v1: string, k2: string, v2: string)
    requires '=' !in k1 && '=' !in k2 && |k1| in {2, 3} && |k2| in {2, 3} && k1 != k2
    ensures DistinctKeys([(k1, v1), (k2, v2)]) && FirstKeysOnly([(k1, v1), (k2, v2)])
  {
    KeysOfTwo(k1, v1, k2, v2);
  }

  lemma FourKeys(a: string, b: string, c: string, d: string)
    ensures var fs := [("from", a), ("to", b)] + [("dx", c), ("ax", d)]; DistinctKeys(fs) && FirstKeysOnly(fs)
  {
    ShortKeys();
    KeysOfTwo("from", a, "to", b);
    TwoFirstKeys("dx", c, "ax", d);
    assert |"from"| == 4 && |"to"| == 2 && "from"[0] == 'f';
    KeysTogether([("from", a), ("to", b)], [("dx", c), ("ax", d)]);
  }

  lemma NativeRetKeys(f: Addr, t: Addr, dx: u16, ax: u16)
    ensures DistinctKeys(Firsts(NativeRet(f, t, dx, ax))) && FirstKeysOnly(Firsts(NativeRet(f, t, dx, ax)))
  {
    FourKeys(AddrText(f), AddrText(t), Hex4(dx), Hex4(ax));
  }

  lemma FirstKeys(e: Event)
    ensures DistinctKeys(Firsts(e)) && FirstKeysOnly(Firsts(e))
  {
    match e {
      case Dispatch(_, at, _, _) => ShortKeys(); TwoFirstKeys("cs", Hex4(at.seg), "ip", Hex4(at.off));
      case Call(f, t, _) => FromToKeys(f, t);
      case Ret(f, t, _) => FromToKeys(f, t);
      case NativeCall(f, t, _, _) => FromToKeys(f, t);
      case NativeRet(f, t, dx, ax) => NativeRetKeys(f, t, dx, ax);
      case Step(at) => ShortKeys(); TwoFirstKeys("cs", Hex4(at.seg), "ip", Hex4(at.off));
      case Int(num, ah) => ShortKeys(); TwoFirstKeys("num", Hex2(num), "ah", Hex2(ah));
    }
  }

  function ArgCount(e: Event): nat
    requires e.NativeCall?
  {
    if |e.args| <= MAX_ARGS then |e.args| else MAX_ARGS
  }

  lemma LastKeys(e: Event)
    ensures DistinctKeys(Lasts(e)) && forall i :: 0 <= i < |Lasts(e)| ==> LastKey(Lasts(e)[i].0)
  {
    ShortKeys();
    if e.NativeCall? {
      var n := ArgCount(e);
      ArgKeys(e.args[..n]);
      assert |"nargs"| == 5;
      KeysTogether([("nargs", [Digit(n)])], ArgFields(e.args[..n]));
    }
  }

  ghost predicate NameKeysOnly(fs: seq<(string, string)>) {
    forall i :: 0 <= i < |fs| ==> |fs[i].0| == 4 && fs[i].0[0] == 'n'
  }

  ghost predicate LastKeysOnly(fs: seq<(string, string)>) {
    forall i :: 0 <= i < |fs| ==> LastKey(fs[i].0)
  }

  lemma ThreeGroups(a: seq<(string, string)>, b: seq<(string, string)>, c: seq<(string, string)>)
    requires DistinctKeys(a) && DistinctKeys(b) && DistinctKeys(c)
    requires FirstKeysOnly(a) && NameKeysOnly(b) && LastKeysOnly(c)
    ensures DistinctKeys(a + b + c)
  {
    KeysTogether(a, b);
    forall i, j | 0 <= i < |a + b| && 0 <= j < |c|
      ensures (a + b)[i].0 != c[j].0
    {
      assert LastKey(c[j].0);
      assert i < |a| ==> FirstKey((a + b)[i].0);
      assert i >= |a| ==> (a + b)[i] == b[i - |a|];
    }
    KeysTogether(a + b, c);
  }

  lemma OneNameKey(fs: seq<(string, string)>)
    requires fs == [] || (|fs| == 1 && fs[0].0 == "name")
    ensures DistinctKeys(fs) && NameKeysOnly(fs)
  {
    ShortKeys();
  }

  lemma NameKeys(e: Event)
    ensures DistinctKeys(NameField(e)) && NameKeysOnly(NameField(e))
  {
    OneNameKey(NameField(e));
  }

  lemma EventKeys(e: Event)
    ensures DistinctKeys(Fields(e))
  {
    FirstKeys(e);
    NameKeys(e);
    LastKeys(e);
    ThreeGroups(Firsts(e), NameField(e), Lasts(e));
  }

  // ------------------------------------------------------------------------
  // Each field is found again.

  ghost predicate MapOf(m: map<string, string>, e: Event) {
    IsMapOf(m, Fields(e))
  }

  lemma Places(a: seq<(string, string)>, b: seq<(string, string)>, c: seq<(string, string)>, all: seq<(string, string)>)
    requires all == a + b + c
    ensures |all| == |a| + |b| + |c|
    ensures forall i :: 0 <= i < |a| ==> all[i] == a[i]
    ensures forall i :: 0 <= i < |b| ==> all[|a| + i] == b[i]
    ensures forall i :: 0 <= i < |c| ==> all[|a| + |b| + i] == c[i]
  {
  }

  lemma FieldPlaces(e: Event)
    ensures |Fields(e)| == |Firsts(e)| + |NameField(e)| + |Lasts(e)|
    ensures forall i :: 0 <= i < |Firsts(e)| ==> Fields(e)[i] == Firsts(e)[i]
    ensures forall i :: 0 <= i < |NameField(e)| ==> Fields(e)[|Firsts(e)| + i] == NameField(e)[i]
    ensures forall i :: 0 <= i < |Lasts(e)| ==> Fields(e)[|Firsts(e)| + |NameField(e)| + i] == Lasts(e)[i]
  {
    Places(Firsts(e), NameField(e), Lasts(e), Fields(e));
  }

  lemma FirstReads(e: Event, m: map<string, string>, i: nat)
    requires MapOf(m, e) && i < |Firsts(e)|
    ensures Firsts(e)[i].0 in m && m[Firsts(e)[i].0] == Firsts(e)[i].1
  {
    FieldPlaces(e);
    assert Fields(e)[i] == Firsts(e)[i];
  }

  lemma LastReads(e: Event, m: map<string, string>, i: nat)
    requires MapOf(m, e) && i < |Lasts(e)|
    ensures Lasts(e)[i].0 in m && m[Lasts(e)[i].0] == Lasts(e)[i].1
  {
    FieldPlaces(e);
    assert Fields(e)[|Firsts(e)| + |NameField(e)| + i] == Lasts(e)[i];
  }

  lemma NoSuchKey(m: map<string, string>, fs: seq<(string, string)>, k: string)
    requires IsMapOf(m, fs) && forall i :: 0 <= i < |fs| ==> fs[i].0 != k
    ensures k !in m
  {
    assert !HasKey(fs, k);
  }

  /** The name is there just when it was kept. */
  lemma NameReads(e: Event, m: map<string, string>)
    requires MapOf(m, e)
    ensures OptStr(m, "name") == if KeepsName(e) then NameOf(e) else None
  {
    if KeepsName(e) {
      KeptNameReads(e, m, NameOf(e).value);
    } else {
      NoNameReads(e, m);
    }
  }

  lemma KeptNameReads(e: Event, m: map<string, string>, name: string)
    requires MapOf(m, e) && NameField(e) == [("name", name)]
    ensures OptStr(m, "name") == Some(name)
  {
    FieldPlaces(e);
    assert Fields(e)[|Firsts(e)| + 0] == NameField(e)[0];
  }

  lemma NoNameReads(e: Event, m: map<string, string>)
    requires MapOf(m, e) && NameField(e) == []
    ensures "name" !in m
  {
    FirstKeys(e);
    LastKeys(e);
    NotTheName(Firsts(e), Lasts(e));
    assert Fields(e) == Firsts(e) + NameField(e) + Lasts(e);
    assert Firsts(e) + [] == Firsts(e);
    NoSuchKey(m, Fields(e), "name");
  }

  lemma NotTheName(a: seq<(string, string)>, b: seq<(string, string)>)
    requires FirstKeysOnly(a) && LastKeysOnly(b)
    ensures forall i :: 0 <= i < |a + b| ==> (a + b)[i].0 != "name"
  {
    assert |"name"| == 4 && "name"[0] == 'n';
    forall i | 0 <= i < |a + b|
      ensures (a + b)[i].0 != "name"
    {
      assert i >= |a| ==> (a + b)[i] == b[i - |a|];
    }
  }

  lemma ResultReads(e: Event, m: map<string, string>)
    requires MapOf(m, e) && e.Dispatch?
    ensures OptStr(m, "result") == e.result
  {
    FieldPlaces(e);
    FirstKeys(e);
    if e.result.Some? {
      LastReads(e, m, 0);
    } else {
      assert |"result"| == 6;
      NameKeys(e);
      forall i | 0 <= i < |Fields(e)|
        ensures Fields(e)[i].0 != "result"
      {
        assert i >= |Firsts(e)| ==> Fields(e)[i] == NameField(e)[i - |Firsts(e)|];
      }
    }
  }

  lemma OneArg(e: Event, m: map<string, string>, i: nat)
    requires MapOf(m, e) && e.NativeCall? && i < ArgCount(e)
    ensures NeedU16(m, "arg" + Decimal(i)) == Some(e.args[i])
  {
    var args := e.args[..ArgCount(e)];
    LastReads(e, m, i + 1);
    assert Lasts(e)[i + 1] == ArgFields(args)[i] == ("arg" + [Digit(i)], Hex4(args[i]));
    assert Decimal(i) == [Digit(i)];
    Hex4Reads(args[i]);
  }

  lemma OneMoreArg(m: map<string, string>, i: nat, n: nat, args: seq<u16>)
    requires i < n == |args| && NeedU16(m, "arg" + Decimal(i)) == Some(args[i]) && NeedArgs(m, i + 1, n) == Some(args[i + 1..])
    ensures NeedArgs(m, i, n) == Some(args[i..])
  {
    assert [args[i]] + args[i + 1..] == args[i..];
    var v, rest := NeedU16(m, "arg" + Decimal(i)), NeedArgs(m, i + 1, n);
    assert NeedArgs(m, i, n) == Some([v.value] + rest.value);
  }

  lemma {:induction false} ArgsRead(e: Event, m: map<string, string>, i: nat)
    requires MapOf(m, e) && e.NativeCall? && i <= ArgCount(e)
    ensures NeedArgs(m, i, ArgCount(e)) == Some(e.args[..ArgCount(e)][i..])
    decreases ArgCount(e) - i
  {
    var args, n := e.args[..ArgCount(e)], ArgCount(e);
    if i < n {
      OneArg(e, m, i);
      ArgsRead(e, m, i + 1);
      OneMoreArg(m, i, n, args);
    } else {
      assert args[i..] == [];
    }
  }

  // ------------------------------------------------------------------------
  // Each event is read back.

  lemma AtReads(m: map<string, string>, at: Addr)
    requires "cs" in m && "ip" in m && m["cs"] == Hex4(at.seg) && m["ip"] == Hex4(at.off)
    ensures NeedAddr(m, "cs", "ip") == Some((at.seg, at.off))
  {
    Hex4Reads(at.seg);
    Hex4Reads(at.off);
  }

  lemma FromToRead(e: Event, m: map<string, string>, f: Addr, t: Addr)
    requires MapOf(m, e) && |Firsts(e)| >= 2 && Firsts(e)[0] == ("from", AddrText(f)) && Firsts(e)[1] == ("to", AddrText(t))
    ensures FromTo(m) == Some(((f.seg, f.off), (t.seg, t.off)))
  {
    FirstReads(e, m, 0);
    FirstReads(e, m, 1);
    AddrReads(f, m, "from");
    AddrReads(t, m, "to");
  }

  lemma CallReads(e: Event, m: map<string, string>, load: Option<nat>)
    requires MapOf(m, e) && (e.Call? || e.Ret?)
    ensures ReadPlain(Heads(e)[0], m, load) == Some(Seen(e, load))
  {
    FromToRead(e, m, e.from, e.to);
    NameReads(e, m);
    assert "call" != "ret";
  }

  lemma KindsDiffer()
    ensures "native_call" != "call" && "native_call" != "ret" && "native_ret" != "call" && "native_ret" != "ret" && "native_ret" != "native_call"
    ensures "step" != "call" && "step" != "ret" && "step" != "native_call" && "step" != "native_ret"
    ensures "int" != "call" && "int" != "ret" && "int" != "native_call" && "int" != "native_ret" && "int" != "step"
    ensures "dispatch" !in {"call", "ret", "native_call", "native_ret", "step", "int"} && "enter" != "leave"
  {
    assert |"native_call"| == 11 && |"native_ret"| == 10 && |"call"| == 4 && |"ret"| == 3 && |"step"| == 4 && |"int"| == 3 && |"dispatch"| == 8;
    assert "step"[0] != "call"[0] && "int"[0] != "ret"[0] && "enter"[0] != "leave"[0];
  }

  lemma NativeCallReads(e: Event, m: map<string, string>, load: Option<nat>)
    requires MapOf(m, e) && e.NativeCall?
    ensures ReadPlain(Heads(e)[0], m, load) == Some(Seen(e, load))
  {
    KindsDiffer();
    FromToRead(e, m, e.from, e.to);
    NameReads(e, m);
    LastReads(e, m, 0);
    DigitReadsAsHex(ArgCount(e));
    assert Lasts(e)[0] == ("nargs", [Digit(ArgCount(e))]);
    ArgsRead(e, m, 0);
    assert e.args[..ArgCount(e)][0..] == e.args[..ArgCount(e)];
  }

  lemma NativeRetReads(e: Event, m: map<string, string>, load: Option<nat>)
    requires MapOf(m, e) && e.NativeRet?
    ensures ReadPlain(Heads(e)[0], m, load) == Some(Seen(e, load))
  {
    KindsDiffer();
    FromToRead(e, m, e.from, e.to);
    FirstReads(e, m, 2);
    FirstReads(e, m, 3);
    assert Firsts(e)[2] == ("dx", Hex4(e.dx)) && Firsts(e)[3] == ("ax", Hex4(e.ax));
    Hex4Reads(e.dx);
    Hex4Reads(e.ax);
  }

  lemma StepReads(e: Event, m: map<string, string>, load: Option<nat>)
    requires MapOf(m, e) && e.Step?
    ensures ReadPlain(Heads(e)[0], m, load) == Some(Seen(e, load))
  {
    KindsDiffer();
    FirstReads(e, m, 0);
    FirstReads(e, m, 1);
    AtReads(m, e.at);
  }

  lemma IntReads(e: Event, m: map<string, string>, load: Option<nat>)
    requires MapOf(m, e) && e.Int?
    ensures ReadPlain(Heads(e)[0], m, load) == Some(Seen(e, load))
  {
    KindsDiffer();
    FirstReads(e, m, 0);
    FirstReads(e, m, 1);
    Hex2Reads(e.num);
    Hex2Reads(e.ah);
  }

  lemma PlainReads(e: Event, m: map<string, string>, load: Option<nat>)
    requires MapOf(m, e) && !e.Dispatch?
    ensures ReadPlain(Heads(e)[0], m, load) == Some(Seen(e, load))
  {
    match e {
      case Call(_, _, _) => CallReads(e, m, load);
      case Ret(_, _, _) => CallReads(e, m, load);
      case NativeCall(_, _, _, _) => NativeCallReads(e, m, load);
      case NativeRet(_, _, _, _) => NativeRetReads(e, m, load);
      case Step(_) => StepReads(e, m, load);
      case Int(_, _) => IntReads(e, m, load);
    }
  }

  lemma DispatchReads(e: Event, m: map<string, string>, load: Option<nat>, words: seq<string>)
    requires MapOf(m, e) && e.Dispatch? && |words| >= 2 && words[..2] == Heads(e) && ParseFields(words[2..]) == Some(m)
    ensures ReadEvent(words, load) == Some(Seen(e, load))
  {
    KindsDiffer();
    FirstReads(e, m, 0);
    FirstReads(e, m, 1);
    AtReads(m, e.at);
    NameReads(e, m);
    ResultReads(e, m);
    assert words[0] == words[..2][0] && words[1] == words[..2][1];
  }

  lemma EventReads(e: Event, load: Option<nat>)
    ensures var words := Heads(e) + FieldWords(Fields(e)); words != [] && ReadEvent(words, load) == Some(Seen(e, load))
  {
    var words := Heads(e) + FieldWords(Fields(e));
    EventKeys(e);
    FieldsRead(Fields(e));
    var m := ParseFields(FieldWords(Fields(e))).value;
    if e.Dispatch? {
      assert words[..2] == Heads(e) && words[2..] == FieldWords(Fields(e));
      DispatchReads(e, m, load, words);
    } else {
      KindsDiffer();
      assert words[0] == Heads(e)[0] && words[1..] == FieldWords(Fields(e));
      PlainReads(e, m, load);
    }
  }

  // ------------------------------------------------------------------------
  // Each line is read back.

  lemma EventLineReads(r: Reader, e: Event, lineno: nat)
    requires Clean(e) && r.seen
    ensures ReadLine(r, LineOf(e), lineno) == Some(r.(events := r.events + [Seen(e, r.load)]))
    ensures OneLine(LineOf(e))
  {
    var words := Heads(e) + FieldWords(Fields(e));
    EventIsWords(e);
    HeadsAreWords(e);
    LineIsTrimmed(words);
    WordsAreOneLine(words);
    LineReads(words);
    EventReads(e, r.load);
    assert words[0] == Heads(e)[0];
  }

  lemma TrimSpace(x: string)
    requires x != "" && !IsSpace(x[0]) && !IsSpace(x[|x| - 1])
    ensures Trim(" " + x) == x && Trim(x) == x
  {
    var s := " " + x;
    assert s[1..] == x && s[0] == ' ' && IsSpace(' ');
    assert TrimStart(s) == TrimStart(x) == x;
  }

  lemma OneLineConcat(a: string, b: string)
    requires OneLine(a) && OneLine(b)
    ensures OneLine(a + b)
  {
  }

  /** A comment line is "# " and its words. */
  lemma CommentLine(words: seq<string>)
    requires words != [] && forall i :: 0 <= i < |words| ==> IsWord(words[i])
    ensures var line := "# " + Line(words);
      Trim(line) == line && line != "" && line[0] == '#' && Trim(line[1..]) == Line(words) && OneLine(line)
  {
    LineIsTrimmed(words);
    WordsAreOneLine(words);
    CommentOf(Line(words));
  }

  lemma CommentOf(rest: string)
    requires rest != "" && !IsSpace(rest[0]) && !IsSpace(rest[|rest| - 1]) && OneLine(rest)
    ensures var line := "# " + rest; Trim(line) == line && line[0] == '#' && Trim(line[1..]) == rest && OneLine(line)
  {
    OneLineConcat("# ", rest);
    CommentTrims("# " + rest, rest);
  }

  lemma CommentTrims(line: string, rest: string)
    requires rest != "" && !IsSpace(rest[0]) && !IsSpace(rest[|rest| - 1]) && line == "# " + rest
    ensures Trim(line) == line && line[0] == '#' && Trim(line[1..]) == rest
  {
    TrimSpace(rest);
    assert line[1..] == " " + rest && line[0] == '#' && line[|line| - 1] == rest[|rest| - 1];
    assert !IsSpace('#');
    TrimSpace(line);
  }

  lemma LoadField(load: u16)
    ensures var field := "code_load=" + Hex4(load);
      IsWord(field) && "code_load=" <= field && field[10..] == Hex4(load) && field[0] == 'c' && LoadLine(load) == "# " + field
  {
    HexIsWord(load);
    assert NoSpace("code_load=");
    assert |"code_load="| == 10;
    assert "# code_load=" == "# " + "code_load=";
  }

  lemma LoadLineReads(r: Reader, load: u16, lineno: nat)
    ensures ReadLine(r, LoadLine(load), lineno) == Some(r.(load := Some(load)))
    ensures OneLine(LoadLine(load))
  {
    var field := "code_load=" + Hex4(load);
    LoadField(load);
    Hex4Reads(load);
    assert Line([field]) == field;
    CommentLine([field]);
    assert "hydra trace v1"[0] == 'h';
  }

  lemma HeaderWords()
    ensures IsWord("hydra") && IsWord("trace") && IsWord("v1")
    ensures Line(["hydra", "trace", "v1"]) == "hydra trace v1" && HEADER == "# " + "hydra trace v1"
  {
    HeaderIsWords();
    HeaderIsLine();
  }

  lemma HeaderIsWords()
    ensures IsWord("hydra") && IsWord("trace") && IsWord("v1")
  {
  }

  lemma HeaderIsLine()
    ensures Line(["hydra", "trace", "v1"]) == "hydra trace v1" && HEADER == "# " + "hydra trace v1"
  {
    var words := ["hydra", "trace", "v1"];
    assert words[1..] == ["trace", "v1"] && ["trace", "v1"][1..] == ["v1"];
    assert Line(["trace", "v1"]) == "trace" + " " + "v1";
    assert "hydra" + " " + ("trace" + " " + "v1") == "hydra trace v1";
  }

  lemma HeaderReads()
    ensures ReadLine(Reader([], None, false), HEADER, 1) == Some(Reader([], None, true)) && OneLine(HEADER)
  {
    HeaderWords();
    CommentLine(["hydra", "trace", "v1"]);
  }

  // ------------------------------------------------------------------------
  // The whole trace.

  /** The lines one moment adds. */
  function LinesOf(m: Moment, last: Option<nat>): seq<string> {
    if !IsWritten(m.event) then []
    else if m.load == 0xffff || last == Some(m.load) then [LineOf(m.event)]
    else [LoadLine(m.load), LineOf(m.event)]
  }

  function AllLines(run: seq<Moment>, last: Option<nat>): seq<string>
    decreases |run|
  {
    if run == [] then [] else LinesOf(run[0], last) + AllLines(run[1..], LoadAfter(run[0], last))
  }

  lemma EmitOne(s: Sink, m: Moment)
    ensures var next := Emit(s, m.event, m.load);
      next.lines == s.lines + LinesOf(m, s.last) && next.last == LoadAfter(m, s.last)
  {
  }

  lemma LinesAssoc(a: seq<string>, b: seq<string>, c: seq<string>)
    ensures a + b + c == a + (b + c)
  {
  }

  lemma EventsAssoc(a: seq<TraceEvent>, b: seq<TraceEvent>, c: seq<TraceEvent>)
    ensures a + b + c == a + (b + c)
  {
  }

  lemma {:induction false} EmittedLines(s: Sink, run: seq<Moment>)
    ensures EmitAll(s, run).lines == s.lines + AllLines(run, s.last)
    decreases |run|
  {
    if run == [] {
      assert s.lines + [] == s.lines;
    } else {
      var next := Emit(s, run[0].event, run[0].load);
      EmitOne(s, run[0]);
      EmittedLines(next, run[1..]);
      LinesAssoc(s.lines, LinesOf(run[0], s.last), AllLines(run[1..], next.last));
    }
  }

  lemma {:induction false} ReadConcat(r: Reader, a: seq<string>, b: seq<string>, lineno: nat)
    requires ReadLines(r, a, lineno).Some?
    ensures ReadLines(r, a + b, lineno) == ReadLines(ReadLines(r, a, lineno).value, b, lineno + |a|)
    decreases |a|
  {
    if a == [] {
      assert a + b == b;
    } else {
      assert (a + b)[1..] == a[1..] + b && (a + b)[0] == a[0];
      ReadConcat(ReadLine(r, a[0], lineno).value, a[1..], b, lineno + 1);
    }
  }

  lemma MomentReads(r: Reader, m: Moment, lineno: nat)
    requires Clean(m.event) && r.seen
    ensures ReadLines(r, LinesOf(m, r.load), lineno) == Some(Reader(r.events + SeenOne(m, r.load), LoadAfter(m, r.load), true))
    ensures forall i :: 0 <= i < |LinesOf(m, r.load)| ==> OneLine(LinesOf(m, r.load)[i])
  {
    if !IsWritten(m.event) {
      assert r.events + [] == r.events;
    } else if m.load == 0xffff || r.load == Some(m.load) {
      EventLineReads(r, m.event, lineno);
      ReadOne(r, LineOf(m.event), lineno);
    } else {
      var r1 := r.(load := Some(m.load));
      LoadLineReads(r, m.load, lineno);
      EventLineReads(r1, m.event, lineno + 1);
      ReadTwo(r, r1, LoadLine(m.load), LineOf(m.event), lineno);
    }
  }

  lemma ReadOne(r: Reader, line: string, lineno: nat)
    ensures ReadLines(r, [line], lineno) == ReadLine(r, line, lineno)
  {
    assert [line][1..] == [];
  }

  lemma ReadTwo(r: Reader, r1: Reader, a: string, b: string, lineno: nat)
    requires ReadLine(r, a, lineno) == Some(r1)
    ensures ReadLines(r, [a, b], lineno) == ReadLine(r1, b, lineno + 1)
  {
    assert [a, b][1..] == [b];
    ReadOne(r1, b, lineno + 1);
  }

  ghost predicate AllClean(run: seq<Moment>) {
    forall i :: 0 <= i < |run| ==> Clean(run[i].event)
  }

  lemma {:induction false} RunIsLines(run: seq<Moment>, last: Option<nat>)
    requires AllClean(run)
    ensures forall i :: 0 <= i < |AllLines(run, last)| ==> OneLine(AllLines(run, last)[i])
    decreases |run|
  {
    if run != [] {
      MomentReads(Reader([], last, true), run[0], 1);
      RunIsLines(run[1..], LoadAfter(run[0], last));
    }
  }

  /** Reading the lines adds these events; sealed, so that going through a run does not look inside. */
  ghost predicate ReadTo(r: Reader, lines: seq<string>, seen: seq<TraceEvent>, load: Option<nat>, lineno: nat) {
    forall after {:trigger ReadAs(r, lines, lineno, after)} ::
      after == Reader(r.events + seen, load, true) ==> ReadAs(r, lines, lineno, after)
  }

  ghost predicate ReadAs(r: Reader, lines: seq<string>, lineno: nat, after: Reader) {
    ReadLines(r, lines, lineno) == Some(after)
  }

  lemma NothingToRead(r: Reader, lineno: nat)
    requires r.seen
    ensures ReadTo(r, [], [], r.load, lineno)
  {
    assert r.events + [] == r.events;
  }

  /** What is read first and what is read then. */
  lemma ReadBoth(r: Reader, a: seq<string>, seen: seq<TraceEvent>, load: Option<nat>,
                 b: seq<string>, more: seq<TraceEvent>, last: Option<nat>, lineno: nat)
    requires ReadTo(r, a, seen, load, lineno)
    requires ReadTo(Reader(r.events + seen, load, true), b, more, last, lineno + |a|)
    ensures ReadTo(r, a + b, seen + more, last, lineno)
  {
    var middle, after := Reader(r.events + seen, load, true), Reader(r.events + seen + more, last, true);
    assert ReadAs(r, a, lineno, middle) && ReadAs(middle, b, lineno + |a|, after);
    ReadConcat(r, a, b, lineno);
    EventsAssoc(r.events, seen, more);
  }

  /** A clean event; sealed like the above. */
  ghost predicate IsClean(e: Event) {
    forall same {:trigger CleanAs(e, same)} :: same == e ==> CleanAs(e, same)
  }

  ghost predicate CleanAs(e: Event, same: Event) {
    same == e && Clean(e)
  }

  lemma FirstIsClean(run: seq<Moment>)
    requires AllClean(run) && run != []
    ensures IsClean(run[0].event) && AllClean(run[1..])
  {
  }

  /** The lines of a moment, what reading them adds, and the load segment then. */
  ghost predicate Written(m: Moment, load: Option<nat>, lines: seq<string>, seen: seq<TraceEvent>, next: Option<nat>) {
    forall same {:trigger WrittenAs(m, load, lines, seen, next, same)} ::
      same == m ==> WrittenAs(m, load, lines, seen, next, same)
  }

  ghost predicate WrittenAs(m: Moment, load: Option<nat>, lines: seq<string>, seen: seq<TraceEvent>, next: Option<nat>,
                            same: Moment) {
    same == m && lines == LinesOf(m, load) && seen == SeenOne(m, load) && next == LoadAfter(m, load)
  }

  lemma MomentIsRead(events: seq<TraceEvent>, load: Option<nat>, m: Moment, lineno: nat)
    returns (lines: seq<string>, seen: seq<TraceEvent>, next: Option<nat>)
    requires IsClean(m.event)
    ensures Written(m, load, lines, seen, next)
    ensures ReadTo(Reader(events, load, true), lines, seen, next, lineno)
  {
    var r := Reader(events, load, true);
    lines, seen, next := LinesOf(m, load), SeenOne(m, load), LoadAfter(m, load);
    assert CleanAs(m.event, m.event);
    MomentReads(r, m, lineno);
  }

  /** The lines of a run and what reading them adds. */
  ghost predicate RunWritten(run: seq<Moment>, load: Option<nat>, lines: seq<string>, seen: seq<TraceEvent>) {
    forall n {:trigger RunWrittenAs(run, load, lines, seen, n)} ::
      n == |run| ==> RunWrittenAs(run, load, lines, seen, n)
  }

  ghost predicate RunWrittenAs(run: seq<Moment>, load: Option<nat>, lines: seq<string>, seen: seq<TraceEvent>, n: nat) {
    n == |run| && lines == AllLines(run, load) && seen == SeenAll(run, load)
  }

  lemma NoMoment(run: seq<Moment>, load: Option<nat>)
    requires |run| == 0
    ensures RunWritten(run, load, [], [])
  {
  }

  lemma OneMoreMoment(run: seq<Moment>, load: Option<nat>, a: seq<string>, seen: seq<TraceEvent>, next: Option<nat>,
                      b: seq<string>, more: seq<TraceEvent>)
    requires run != [] && Written(run[0], load, a, seen, next) && RunWritten(run[1..], next, b, more)
    ensures RunWritten(run, load, a + b, seen + more)
  {
    assert WrittenAs(run[0], load, a, seen, next, run[0]);
    assert RunWrittenAs(run[1..], next, b, more, |run| - 1);
  }

  /** A run is read as its events. */
  lemma {:induction false} RunReads(events: seq<TraceEvent>, load: Option<nat>, run: seq<Moment>, lineno: nat)
    returns (lines: seq<string>, seen: seq<TraceEvent>, last: Option<nat>)
    requires AllClean(run)
    ensures RunWritten(run, load, lines, seen)
    ensures ReadTo(Reader(events, load, true), lines, seen, last, lineno)
    decreases |run|
  {
    var r := Reader(events, load, true);
    if run == [] {
      lines, seen, last := [], [], load;
      NoMoment(run, load);
      NothingToRead(r, lineno);
    } else {
      FirstIsClean(run);
      var a, added, next := MomentIsRead(events, load, run[0], lineno);
      var b, more, end := RunReads(events + added, next, run[1..], lineno + |a|);
      ReadBoth(r, a, added, next, b, more, end, lineno);
      OneMoreMoment(run, load, a, added, next, b, more);
      lines, seen, last := a + b, added + more, end;
    }
  }

  /** The text of a run is cut into the lines that were written. */
  lemma RunIsCut(header: string, run: seq<Moment>)
    requires AllClean(run) && OneLine(header)
    ensures Lines(Text([header] + AllLines(run, None)), "") == [header] + AllLines(run, None)
  {
    RunIsLines(run, None);
    FirstAndLines(header, AllLines(run, None));
  }

  lemma FirstAndLines(header: string, all: seq<string>)
    requires OneLine(header) && forall i :: 0 <= i < |all| ==> OneLine(all[i])
    ensures Lines(Text([header] + all), "") == [header] + all
  {
    TextReads([header] + all);
  }

  /** The header, and then the lines of the run. */
  lemma HeaderAndRun(all: seq<string>, seen: seq<TraceEvent>, load: Option<nat>)
    requires ReadTo(Reader([], None, true), all, seen, load, 2)
    ensures ReadLines(Reader([], None, false), [HEADER] + all, 1) == Some(Reader(seen, load, true))
  {
    HeaderReads();
    assert [] + seen == seen && ([HEADER] + all)[1..] == all;
    assert ReadAs(Reader([], None, true), all, 2, Reader(seen, load, true));
  }

  /** Parsing what was written in any run gives back the events that were written, in order, each address
      resolved against the load segment in force when its event happened. */
  lemma TraceRoundTrips(run: seq<Moment>)
    requires AllClean(run)
    ensures ParseTrace(Text(EmitAll(Opened(), run).lines)) == Some(SeenAll(run, None))
  {
    EmittedLines(Opened(), run);
    var all, seen, last := RunReads([], None, run, 2);
    assert RunWrittenAs(run, None, all, seen, |run|);
    HeaderReads();
    RunIsCut(HEADER, run);
    HeaderAndRun(all, seen, last);
  }

  // ------------------------------------------------------------------------
  // Which events are lost.

  /** The characters some more words add to a line. */
  ghost function Added(words: seq<string>): nat {
    if words == [] then 0 else 1 + |words[0]| + Added(words[1..])
  }

  lemma {:induction false} LineLength(words: seq<string>)
    requires words != []
    ensures |Line(words)| + 1 == Added(words)
  {
    if |words| > 1 {
      LineLength(words[1..]);
    }
  }

  lemma {:induction false} AddedConcat(a: seq<string>, b: seq<string>)
    ensures Added(a + b) == Added(a) + Added(b)
  {
    if a == [] {
      assert a + b == b;
    } else {
      assert (a + b)[1..] == a[1..] + b;
      AddedConcat(a[1..], b);
    }
  }

  lemma {:induction false} AddedSame(words: seq<string>, n: nat)
    requires forall i :: 0 <= i < |words| ==> |words[i]| == n
    ensures Added(words) == (1 + n) * |words|
  {
    if words != [] {
      AddedSame(words[1..], n);
    }
  }

  lemma TwoWords(a: string, b: string)
    ensures Added([a, b]) == |a| + |b| + 2 && Added([a]) == |a| + 1
  {
    assert [a, b][1..] == [b] && [b][1..] == [] && [a][1..] == [];
    assert Added([b]) == 1 + |b|;
  }

  lemma FieldsConcat(a: seq<(string, string)>, b: seq<(string, string)>)
    ensures Added(FieldWords(a + b)) == Added(FieldWords(a)) + Added(FieldWords(b))
  {
    assert FieldWords(a + b) == FieldWords(a) + FieldWords(b);
    AddedConcat(FieldWords(a), FieldWords(b));
  }

  lemma TwoFieldsLength(k1: string, v1: string, k2: string, v2: string)
    ensures Added(FieldWords([(k1, v1), (k2, v2)])) == |k1| + |v1| + |k2| + |v2| + 4
    ensures Added(FieldWords([(k1, v1)])) == |k1| + |v1| + 2
  {
    assert FieldWords([(k1, v1), (k2, v2)]) == [k1 + "=" + v1, k2 + "=" + v2];
    assert FieldWords([(k1, v1)]) == [k1 + "=" + v1];
    TwoWords(k1 + "=" + v1, k2 + "=" + v2);
  }

  /** The length of a line before its name. */
  function BaseLength(e: Event): nat {
    match e
    case Dispatch(_, _, _, _) => 30
    case Call(_, _, _) => 32
    case Ret(_, _, _) => 31
    case NativeCall(_, _, _, _) => 39
    case NativeRet(_, _, _, _) => 54
    case Step(_) => 20
    case Int(_, _) => 16
  }

  /** What comes after the name. */
  function LastLength(e: Event): nat {
    match e
    case Dispatch(_, _, _, result) => if result.Some? then 8 + |result.value| else 0
    case NativeCall(_, _, _, args) => 8 + 10 * (if |args| <= MAX_ARGS then |args| else MAX_ARGS)
    case _ => 0
  }

  lemma HeadsLength(e: Event)
    ensures Added(Heads(e)) == if e.Dispatch? then 15 else 1 + |Heads(e)[0]|
  {
    TwoWords(Heads(e)[0], if e.Dispatch? then Heads(e)[1] else "");
  }

  lemma FirstsLength(e: Event)
    ensures Added(Heads(e)) + Added(FieldWords(Firsts(e))) == BaseLength(e) + 1
  {
    HeadsLength(e);
    match e {
      case Dispatch(_, at, _, _) => TwoFieldsLength("cs", Hex4(at.seg), "ip", Hex4(at.off));
      case Step(at) => TwoFieldsLength("cs", Hex4(at.seg), "ip", Hex4(at.off));
      case Int(num, ah) => TwoFieldsLength("num", Hex2(num), "ah", Hex2(ah));
      case Call(f, t, _) => TwoFieldsLength("from", AddrText(f), "to", AddrText(t));
      case Ret(f, t, _) => TwoFieldsLength("from", AddrText(f), "to", AddrText(t));
      case NativeCall(f, t, _, _) => TwoFieldsLength("from", AddrText(f), "to", AddrText(t));
      case NativeRet(f, t, dx, ax) =>
        TwoFieldsLength("from", AddrText(f), "to", AddrText(t));
        TwoFieldsLength("dx", Hex4(dx), "ax", Hex4(ax));
        FieldsConcat(FromToFields(f, t), [("dx", Hex4(dx)), ("ax", Hex4(ax))]);
    }
  }

  lemma ArgsLength(args: seq<u16>)
    requires |args| <= MAX_ARGS
    ensures Added(FieldWords(ArgFields(args))) == 10 * |args|
  {
    var words := FieldWords(ArgFields(args));
    forall i | 0 <= i < |words|
      ensures |words[i]| == 9
    {
      assert words[i] == ("arg" + [Digit(i)]) + "=" + Hex4(args[i]);
    }
    AddedSame(words, 9);
  }

  lemma LastsLength(e: Event)
    ensures Added(FieldWords(Lasts(e))) == LastLength(e)
  {
    match e {
      case Dispatch(_, _, _, result) =>
        if result.Some? {
          TwoFieldsLength("result", result.value, "", "");
        }
      case NativeCall(_, _, _, args) =>
        var few := args[..if |args| <= MAX_ARGS then |args| else MAX_ARGS];
        ArgsLength(few);
        TwoFieldsLength("nargs", [Digit(|few|)], "", "");
        FieldsConcat([("nargs", [Digit(|few|)])], ArgFields(few));
      case _ =>
    }
  }

  lemma LengthOfLine(e: Event)
    ensures |Line(Heads(e) + FieldWords(Firsts(e)))| == BaseLength(e)
    ensures |LineOf(e)| == BaseLength(e) + (if KeepsName(e) then 6 + |NameOf(e).value| else 0) + LastLength(e)
  {
    FirstsLength(e);
    LastsLength(e);
    LineLength(Heads(e) + FieldWords(Firsts(e)));
    AddedConcat(Heads(e), FieldWords(Firsts(e)));
    LineLength(Heads(e) + FieldWords(Fields(e)));
    AddedConcat(Heads(e), FieldWords(Fields(e)));
    var named := if KeepsName(e) then [("name", NameOf(e).value)] else [];
    if KeepsName(e) {
      TwoFieldsLength("name", NameOf(e).value, "", "");
    }
    FieldsConcat(Firsts(e), named);
    FieldsConcat(Firsts(e) + named, Lasts(e));
  }

  predicate NameOfLength(name: Option<string>, least: int, most: int) {
    name.Some? && NameIsToken(name.value) && least <= |name.value| <= most
  }

  /** An event is lost exactly when its name still fits its buffer but what follows the name, or the newline, does
      not; an event with a result is also lost when the result alone is too long. */
  lemma LostExactlyAtTheEdge(e: Event)
    ensures !IsWritten(e) <==>
      match e
      case Call(_, _, name) => NameOfLength(name, 217, 217)
      case Ret(_, _, name) => NameOfLength(name, 218, 218)
      case NativeCall(_, _, name, args) => NameOfLength(name, 458 - 10 * (if |args| <= MAX_ARGS then |args| else MAX_ARGS), 466)
      case Dispatch(_, _, name, result) =>
        if result.None? then NameOfLength(name, 219, 219)
        else if NameOfLength(name, 0, 219) then |name.value| + |result.value| >= 211
        else |result.value| >= 217
      case _ => false
  {
    LengthOfLine(e);
  }
}
