/** Which texts the trace reader accepts (dis86/src/trace.rs): the header comes first, every event is known, and every
    field is well formed. */
module TraceAccepts {
  import opened Wrappers
  import opened TraceText
  import opened TraceFormat

  // ------------------------------------------------------------------------
  // Numbers.

  ghost predicate DigitIs(c: char, d: nat) {
    d < 16 && (c == "0123456789abcdef"[d] || c == "0123456789ABCDEF"[d])
  }

  /** What hexadecimal digits stand for, the last counting least. */
  ghost predicate HexValue(s: string, v: nat)
    decreases |s|, 1
  {
    if s == "" then v == 0 else exists d: nat :: HexEnds(s, v, d)
  }

  ghost predicate HexEnds(s: string, v: nat, d: nat)
    requires s != ""
    decreases |s|, 0
  {
    d <= v && (v - d) % 16 == 0 && DigitIs(s[|s| - 1], d) && HexValue(s[..|s| - 1], (v - d) / 16)
  }

  /** A number of 16 bits: at least one digit, after a plus sign or not. */
  ghost predicate Hex16Is(s: string, v: nat) {
    v < 0x1_0000 && exists t :: t != "" && (s == t || s == "+" + t) && HexValue(t, v)
  }

  lemma DigitIff(c: char, d: nat)
    ensures DigitValue(c) == Some(d) <==> DigitIs(c, d)
  {
    if d < 16 {
      assert "0123456789abcdef"[d] == if d < 10 then ('0' as int + d) as char else ('a' as int + d - 10) as char;
      assert "0123456789ABCDEF"[d] == if d < 10 then ('0' as int + d) as char else ('A' as int + d - 10) as char;
    }
  }

  lemma {:induction false} DigitsAppend(s: string, c: char, acc: nat)
    ensures Digits(s + [c], acc) ==
            if Digits(s, acc).Some? && DigitValue(c).Some? then Some(16 * Digits(s, acc).value + DigitValue(c).value) else None
  {
    if s == "" {
      assert (s + [c])[1..] == "";
    } else {
      assert (s + [c])[1..] == s[1..] + [c];
      if DigitValue(s[0]).Some? {
        DigitsAppend(s[1..], c, acc * 16 + DigitValue(s[0]).value);
      }
    }
  }

  lemma HexEndsIff(s: string, v: nat, w: Option<nat>, d: Option<nat>)
    requires s != "" && forall k: nat :: d == Some(k) <==> DigitIs(s[|s| - 1], k)
    requires forall k: nat :: w == Some(k) <==> HexValue(s[..|s| - 1], k)
    ensures HexValue(s, v) <==> w.Some? && d.Some? && v == 16 * w.value + d.value
  {
    if w.Some? && d.Some? && v == 16 * w.value + d.value {
      assert (v - d.value) / 16 == w.value && (v - d.value) % 16 == 0;
      assert HexEnds(s, v, d.value);
    }
    if k: nat :| HexEnds(s, v, k) {
      assert d == Some(k) && w == Some((v - k) / 16);
    }
  }

  lemma {:induction false} DigitsIff(s: string, v: nat)
    ensures Digits(s, 0) == Some(v) <==> HexValue(s, v)
    decreases |s|
  {
    if s != "" {
      var init, c := s[..|s| - 1], s[|s| - 1];
      assert s == init + [c];
      DigitsAppend(init, c, 0);
      forall k: nat
        ensures Digits(init, 0) == Some(k) <==> HexValue(init, k)
        ensures DigitValue(c) == Some(k) <==> DigitIs(c, k)
      {
        DigitsIff(init, k);
        DigitIff(c, k);
      }
      HexEndsIff(s, v, Digits(init, 0), DigitValue(c));
    }
  }

  lemma PlusIsNoDigit(s: string)
    requires s != "" && s[0] == '+'
    ensures Digits(s, 0).None?
  {
  }

  lemma HexIff(s: string, v: nat)
    ensures ParseHex16(s) == Some(v) <==> Hex16Is(s, v)
  {
    if s != "" && s[0] == '+' {
      PlusIsNoDigit(s);
      assert s == "+" + s[1..];
      DigitsIff(s[1..], v);
    }
    DigitsIff(s, v);
    if t :| v < 0x1_0000 && t != "" && (s == t || s == "+" + t) && HexValue(t, v) {
      DigitsIff(t, v);
      if s == "+" + t {
        assert s[1..] == t;
      }
    }
  }

  // ------------------------------------------------------------------------
  // Fields.

  /** The word is `key=value`, where only the value may hold more equal signs. */
  ghost predicate IsField(w: string, key: string, value: string) {
    '=' !in key && w == key + "=" + value
  }

  ghost predicate SomeField(w: string) {
    exists k, v :: IsField(w, k, v)
  }

  ghost predicate SameKey(w: string, x: string) {
    exists k, u, v :: IsField(w, k, u) && IsField(x, k, v)
  }

  /** Fields, no two of them with the same key. */
  ghost predicate FieldsOk(ws: seq<string>) {
    && (forall i :: 0 <= i < |ws| ==> SomeField(ws[i]))
    && (forall i, j :: 0 <= i < j < |ws| ==> !SameKey(ws[i], ws[j]))
  }

  ghost predicate HasField(ws: seq<string>, key: string, value: string) {
    exists i :: 0 <= i < |ws| && IsField(ws[i], key, value)
  }

  lemma {:induction false} SplitIff(s: string, c: char, a: string, b: string)
    ensures SplitOnce(s, c) == Some((a, b)) <==> c !in a && s == a + [c] + b
  {
    if c !in a && s == a + [c] + b {
      SplitReads(a, c, b);
    }
    if SplitOnce(s, c) == Some((a, b)) {
      SplitWas(s, c);
    }
  }

  lemma {:induction false} SplitWas(s: string, c: char)
    requires SplitOnce(s, c).Some?
    ensures c !in SplitOnce(s, c).value.0 && s == SplitOnce(s, c).value.0 + [c] + SplitOnce(s, c).value.1
  {
    if s[0] != c {
      SplitWas(s[1..], c);
      assert s == [s[0]] + s[1..];
    } else {
      assert s == "" + [c] + s[1..];
    }
  }

  lemma FieldIff(w: string, k: string, v: string)
    ensures SplitOnce(w, '=') == Some((k, v)) <==> IsField(w, k, v)
  {
    SplitIff(w, '=', k, v);
    assert k + "=" + v == k + ['='] + v;
  }

  ghost predicate FieldMap(ws: seq<string>, m: map<string, string>) {
    forall k, v {:trigger HasField(ws, k, v)} :: (k in m && m[k] == v) <==> HasField(ws, k, v)
  }

  lemma MoreFields(ws: seq<string>, w: string, k: string, v: string)
    ensures HasField(ws + [w], k, v) <==> HasField(ws, k, v) || IsField(w, k, v)
  {
    var more := ws + [w];
    if i :| 0 <= i < |ws| && IsField(ws[i], k, v) {
      assert more[i] == ws[i];
    }
    if i :| 0 <= i < |more| && IsField(more[i], k, v) {
      assert i < |ws| ==> more[i] == ws[i];
    }
    assert more[|ws|] == w;
  }

  /** A word is a field in one way. */
  lemma OneWay(w: string, k: string, v: string, j: string, u: string)
    requires IsField(w, k, v)
    ensures IsField(w, j, u) <==> j == k && u == v
  {
    FieldIff(w, j, u);
    FieldIff(w, k, v);
  }

  lemma KeyIsTaken(ws: seq<string>, w: string, m: map<string, string>, k: string, v: string)
    requires FieldMap(ws, m) && IsField(w, k, v)
    ensures k in m <==> exists i :: 0 <= i < |ws| && SameKey(ws[i], w)
  {
    if k in m {
      assert HasField(ws, k, m[k]);
      var i :| 0 <= i < |ws| && IsField(ws[i], k, m[k]);
      assert SameKey(ws[i], w);
    }
    if i :| 0 <= i < |ws| && SameKey(ws[i], w) {
      var key, u, x :| IsField(ws[i], key, u) && IsField(w, key, x);
      OneWay(w, k, v, key, x);
      assert HasField(ws, k, u);
    }
  }

  /** Fields with one more. */
  lemma OneMoreField(ws: seq<string>, w: string, m: map<string, string>, k: string, v: string)
    requires FieldsOk(ws) && FieldMap(ws, m) && IsField(w, k, v)
    ensures FieldsOk(ws + [w]) <==> k !in m
    ensures k !in m ==> FieldMap(ws + [w], m[k := v])
  {
    var more := ws + [w];
    assert more[|ws|] == w && forall i :: 0 <= i < |ws| ==> more[i] == ws[i];
    KeyIsTaken(ws, w, m, k, v);
    forall key, x
      ensures k !in m ==> ((key in m[k := v] && m[k := v][key] == x) <==> HasField(more, key, x))
    {
      MoreFields(ws, w, key, x);
      OneWay(w, k, v, key, x);
      assert HasField(ws, key, x) ==> key in m;
    }
  }

  lemma {:induction false} FieldsIff(ws: seq<string>)
    ensures ParseFields(ws).Some? <==> FieldsOk(ws)
    ensures ParseFields(ws).Some? ==> FieldMap(ws, ParseFields(ws).value)
  {
    if ws != [] {
      var init, w := ws[..|ws| - 1], ws[|ws| - 1];
      assert ws == init + [w];
      FieldsIff(init);
      if FieldsOk(ws) {
        FieldsOkBefore(init, w);
      }
      if ParseFields(init).Some? && SplitOnce(w, '=').Some? {
        var (k, v) := SplitOnce(w, '=').value;
        FieldIff(w, k, v);
        OneMoreField(init, w, ParseFields(init).value, k, v);
      }
    }
  }

  lemma FieldsOkBefore(ws: seq<string>, w: string)
    requires FieldsOk(ws + [w])
    ensures FieldsOk(ws) && SplitOnce(w, '=').Some?
  {
    var more := ws + [w];
    assert more[|ws|] == w && forall i :: 0 <= i < |ws| ==> more[i] == ws[i];
    var k, v :| IsField(more[|ws|], k, v);
    FieldIff(w, k, v);
  }

  // ------------------------------------------------------------------------
  // Events.

  ghost predicate HasHex(ws: seq<string>, key: string) {
    exists s, v :: HasField(ws, key, s) && Hex16Is(s, v)
  }

  ghost predicate HasByte(ws: seq<string>, key: string) {
    exists s, v :: HasField(ws, key, s) && Hex16Is(s, v) && v <= 255
  }

  /** `segment:offset`, cut at the first colon. */
  ghost predicate HasAddr(ws: seq<string>, key: string) {
    exists s, o, v, u :: HasField(ws, key, s + ":" + o) && ':' !in s && Hex16Is(s, v) && Hex16Is(o, u)
  }

  ghost predicate HasArg(ws: seq<string>, i: nat) {
    HasHex(ws, "arg" + Decimal(i))
  }

  /** As many arguments as their number says. */
  ghost predicate HasArgs(ws: seq<string>) {
    exists s, n: nat :: HasField(ws, "nargs", s) && Hex16Is(s, n) && forall i: nat :: i < n ==> HasArg(ws, i)
  }

  /** What each kind of event must have, dispatches apart; other fields are let pass. */
  ghost predicate HasAll(kind: string, ws: seq<string>) {
    if kind == "call" || kind == "ret" then HasAddr(ws, "from") && HasAddr(ws, "to")
    else if kind == "native_call" then HasAddr(ws, "from") && HasAddr(ws, "to") && HasArgs(ws)
    else if kind == "native_ret" then HasAddr(ws, "from") && HasAddr(ws, "to") && HasHex(ws, "dx") && HasHex(ws, "ax")
    else if kind == "step" then HasHex(ws, "cs") && HasHex(ws, "ip")
    else if kind == "int" then HasByte(ws, "num") && HasByte(ws, "ah")
    else false
  }

  ghost predicate EventOk(words: seq<string>) {
    && words != []
    && if words[0] == "dispatch" then
         |words| > 1 && (words[1] == "enter" || words[1] == "leave")
         && FieldsOk(words[2..]) && HasHex(words[2..], "cs") && HasHex(words[2..], "ip")
       else FieldsOk(words[1..]) && HasAll(words[0], words[1..])
  }

  lemma NeedIff(ws: seq<string>, m: map<string, string>, key: string)
    requires FieldMap(ws, m)
    ensures NeedU16(m, key).Some? <==> HasHex(ws, key)
    ensures NeedU8(m, key).Some? <==> HasByte(ws, key)
  {
    if key in m {
      assert HasField(ws, key, m[key]);
      var r := ParseHex16(m[key]);
      if r.Some? {
        HexIff(m[key], r.value);
      }
      forall s, v: nat | HasField(ws, key, s) && Hex16Is(s, v)
        ensures s == m[key] && r == Some(v)
      {
        HexIff(s, v);
      }
    }
    forall s | HasField(ws, key, s)
      ensures key in m
    {
    }
  }

  lemma NeedAddrIff(ws: seq<string>, m: map<string, string>, key: string)
    requires FieldMap(ws, m)
    ensures NeedSegOff(m, key).Some? <==> HasAddr(ws, key)
  {
    if NeedSegOff(m, key).Some? {
      var parts := SplitOnce(m[key], ':').value;
      SplitIff(m[key], ':', parts.0, parts.1);
      assert parts.0 + [':'] + parts.1 == parts.0 + ":" + parts.1;
      HexIff(parts.0, ParseHex16(parts.0).value);
      HexIff(parts.1, ParseHex16(parts.1).value);
      assert HasField(ws, key, parts.0 + ":" + parts.1);
    }
    if s, o, v, u :| HasField(ws, key, s + ":" + o) && ':' !in s && Hex16Is(s, v) && Hex16Is(o, u) {
      assert s + [':'] + o == s + ":" + o;
      SplitIff(s + ":" + o, ':', s, o);
      HexIff(s, v);
      HexIff(o, u);
    }
  }

  lemma {:induction false} ArgsIff(ws: seq<string>, m: map<string, string>, i: nat, n: nat)
    requires FieldMap(ws, m) && i <= n
    ensures NeedArgs(m, i, n).Some? <==> forall k: nat :: i <= k < n ==> HasArg(ws, k)
    decreases n - i
  {
    if i < n {
      ArgsIff(ws, m, i + 1, n);
      NeedIff(ws, m, "arg" + Decimal(i));
      assert NeedU16(m, "arg" + Decimal(i)).Some? <==> HasArg(ws, i);
    }
  }

  lemma AllArgsIff(ws: seq<string>, m: map<string, string>)
    requires FieldMap(ws, m)
    ensures (NeedU16(m, "nargs").Some? && NeedArgs(m, 0, NeedU16(m, "nargs").value).Some?) <==> HasArgs(ws)
  {
    var n := NeedU16(m, "nargs");
    if n.Some? {
      HexIff(m["nargs"], n.value);
      assert HasField(ws, "nargs", m["nargs"]);
      ArgsIff(ws, m, 0, n.value);
    }
    if s, v: nat :| HasField(ws, "nargs", s) && Hex16Is(s, v) && forall i: nat :: i < v ==> HasArg(ws, i) {
      HexIff(s, v);
    }
  }

  lemma AddrsIff(ws: seq<string>, m: map<string, string>)
    requires FieldMap(ws, m)
    ensures FromTo(m).Some? <==> HasAddr(ws, "from") && HasAddr(ws, "to")
  {
    NeedAddrIff(ws, m, "from");
    NeedAddrIff(ws, m, "to");
  }

  lemma StepIff(ws: seq<string>, m: map<string, string>)
    requires FieldMap(ws, m)
    ensures NeedAddr(m, "cs", "ip").Some? <==> HasHex(ws, "cs") && HasHex(ws, "ip")
  {
    NeedIff(ws, m, "cs");
    NeedIff(ws, m, "ip");
  }

  lemma PlainIff(kind: string, ws: seq<string>, m: map<string, string>, load: Option<nat>)
    requires FieldMap(ws, m)
    ensures ReadPlain(kind, m, load).Some? <==> HasAll(kind, ws)
  {
    if kind == "call" || kind == "ret" {
      AddrsIff(ws, m);
    } else if kind == "native_call" {
      AddrsIff(ws, m);
      AllArgsIff(ws, m);
    } else if kind == "native_ret" {
      AddrsIff(ws, m);
      NeedIff(ws, m, "dx");
      NeedIff(ws, m, "ax");
    } else if kind == "step" {
      StepIff(ws, m);
    } else if kind == "int" {
      NeedIff(ws, m, "num");
      NeedIff(ws, m, "ah");
    }
  }

  lemma EventIff(words: seq<string>, load: Option<nat>)
    requires words != []
    ensures ReadEvent(words, load).Some? <==> EventOk(words)
  {
    if words[0] != "dispatch" {
      FieldsIff(words[1..]);
      if ParseFields(words[1..]).Some? {
        PlainIff(words[0], words[1..], ParseFields(words[1..]).value, load);
      }
    } else if |words| > 1 {
      FieldsIff(words[2..]);
      if ParseFields(words[2..]).Some? {
        StepIff(words[2..], ParseFields(words[2..]).value);
      }
    }
  }

  // ------------------------------------------------------------------------
  // Texts.

  ghost predicate IsHeader(line: string) {
    line != "" && line[0] == '#' && Trim(line[1..]) == "hydra trace v1"
  }

  /** A line after the first: blank, a comment other than the header whose load segment is a number if it names one, or an event. */
  ghost predicate LineOk(line: string) {
    || line == ""
    || (line[0] == '#' && !IsHeader(line) && forall s :: Trim(line[1..]) == "code_load=" + s ==> exists v :: Hex16Is(s, v))
    || (line[0] != '#' && EventOk(Words(line, "")))
  }

  lemma LineIff(r: Reader, raw: string, lineno: nat)
    requires r.seen && lineno > 1
    ensures ReadLine(r, raw, lineno).Some? <==> LineOk(Trim(raw))
    ensures ReadLine(r, raw, lineno).Some? ==> ReadLine(r, raw, lineno).value.seen
  {
    var line := Trim(raw);
    if line != "" && line[0] == '#' {
      var rest := Trim(line[1..]);
      if "code_load=" <= rest {
        assert rest == "code_load=" + rest[10..];
        if ParseHex16(rest[10..]).Some? {
          HexIff(rest[10..], ParseHex16(rest[10..]).value);
        }
        if v :| Hex16Is(rest[10..], v) {
          HexIff(rest[10..], v);
        }
        forall s | rest == "code_load=" + s
          ensures s == rest[10..]
        {
        }
      }
    } else if line != "" {
      var words := Words(line, "");
      if words != [] {
        EventIff(words, r.load);
      }
    }
  }

  lemma {:induction false} LinesIff(r: Reader, lines: seq<string>, lineno: nat)
    requires r.seen && lineno > 1
    ensures ReadLines(r, lines, lineno).Some? <==> forall i :: 0 <= i < |lines| ==> LineOk(Trim(lines[i]))
    ensures ReadLines(r, lines, lineno).Some? ==> ReadLines(r, lines, lineno).value.seen
    decreases |lines|
  {
    if lines != [] {
      LineIff(r, lines[0], lineno);
      var next := ReadLine(r, lines[0], lineno);
      var rest := lines[1..];
      assert forall i :: 0 < i < |lines| ==> lines[i] == rest[i - 1];
      if next.Some? {
        LinesIff(next.value, rest, lineno + 1);
        if i :| 0 <= i < |rest| && !LineOk(Trim(rest[i])) {
          assert lines[i + 1] == rest[i];
        }
      }
    }
  }

  /** Without the header in its first line nothing is read to the end with it seen. */
  lemma {:induction false} NoHeader(r: Reader, lines: seq<string>, lineno: nat)
    requires !r.seen && lineno >= 1 && (lineno > 1 || lines == [] || !IsHeader(Trim(lines[0])))
    ensures var end := ReadLines(r, lines, lineno); end.None? || !end.value.seen
    decreases |lines|
  {
    if lines != [] {
      var next := ReadLine(r, lines[0], lineno);
      if next.Some? {
        NoHeader(next.value, lines[1..], lineno + 1);
      }
    }
  }

  /** A text is accepted exactly when its first line is the header and every other line may stand after it. */
  lemma AcceptedIff(text: string)
    ensures ParseTrace(text).Some? <==>
      var lines := Lines(text, "");
      lines != [] && IsHeader(Trim(lines[0])) && forall i :: 0 < i < |lines| ==> LineOk(Trim(lines[i]))
  {
    var lines := Lines(text, "");
    var start := Reader([], None, false);
    if lines != [] && IsHeader(Trim(lines[0])) {
      LinesIff(start.(seen := true), lines[1..], 2);
      assert forall i :: 0 < i < |lines| ==> lines[i] == lines[1..][i - 1];
    } else {
      NoHeader(start, lines, 1);
    }
  }

  // ------------------------------------------------------------------------
  // Decimal numbers.

  ghost function DecimalValue(s: string): int {
    if s == "" then 0 else 10 * DecimalValue(s[..|s| - 1]) + (s[|s| - 1] as int - '0' as int)
  }

  lemma DecimalDigit(d: nat)
    requires d < 10
    ensures '0' <= Digit(d) <= '9' && Digit(d) as int == '0' as int + d
  {
  }

  lemma LastDigit(s: string, c: char)
    ensures DecimalValue(s + [c]) == 10 * DecimalValue(s) + (c as int - '0' as int)
  {
    assert (s + [c])[..|s|] == s;
  }

  /** Decimal digits only, with no leading zero. */
  ghost predicate IsDecimal(s: string) {
    s != "" && (forall i :: 0 <= i < |s| ==> '0' <= s[i] <= '9') && (s[0] == '0' ==> |s| == 1)
  }

  lemma OneMoreDigit(s: string, c: char)
    requires IsDecimal(s) && s[0] != '0' && '0' <= c <= '9'
    ensures IsDecimal(s + [c]) && (s + [c])[0] != '0'
  {
  }

  lemma DecimalEnds(n: nat)
    requires n >= 10 && IsDecimal(Decimal(n / 10)) && Decimal(n / 10)[0] != '0' && DecimalValue(Decimal(n / 10)) == n / 10
    ensures IsDecimal(Decimal(n)) && DecimalValue(Decimal(n)) == n && Decimal(n)[0] != '0'
  {
    var s, d := Decimal(n / 10), n % 10;
    assert Decimal(n) == s + [Digit(d)];
    DecimalDigit(d);
    LastDigit(s, Digit(d));
    OneMoreDigit(s, Digit(d));
  }

  /** Numbers in decimal stand for themselves. */
  lemma {:induction false} DecimalIs(n: nat)
    ensures IsDecimal(Decimal(n)) && DecimalValue(Decimal(n)) == n && (n > 0 ==> Decimal(n)[0] != '0')
  {
    if n < 10 {
      DecimalDigit(n);
      LastDigit("", Digit(n));
      assert "" + [Digit(n)] == [Digit(n)];
    } else {
      DecimalIs(n / 10);
      DecimalEnds(n);
    }
  }

  // ------------------------------------------------------------------------
  // Words.

  ghost predicate AllSpace(s: string) {
    forall i :: 0 <= i < |s| ==> IsSpace(s[i])
  }

  lemma {:induction false} TrimStartIs(s: string) returns (a: string)
    ensures AllSpace(a) && s == a + TrimStart(s) && (TrimStart(s) != "" ==> !IsSpace(TrimStart(s)[0]))
  {
    a := "";
    if s != "" && IsSpace(s[0]) {
      var b := TrimStartIs(s[1..]);
      a := [s[0]] + b;
      assert s == [s[0]] + s[1..];
    }
  }

  lemma {:induction false} TrimEndIs(s: string) returns (b: string)
    ensures AllSpace(b) && s == TrimEnd(s) + b && (TrimEnd(s) != "" ==> !IsSpace(TrimEnd(s)[|TrimEnd(s)| - 1]))
  {
    b := "";
    if s != "" && IsSpace(s[|s| - 1]) {
      var a := TrimEndIs(s[..|s| - 1]);
      b := a + [s[|s| - 1]];
      assert s == s[..|s| - 1] + [s[|s| - 1]];
    } else {
      assert s == s + "";
    }
  }

  /** Trimming takes away the white space at both ends, and nothing else. */
  lemma TrimIs(s: string)
    ensures exists a, b :: AllSpace(a) && AllSpace(b) && s == a + Trim(s) + b
    ensures Trim(s) != "" ==> !IsSpace(Trim(s)[0]) && !IsSpace(Trim(s)[|Trim(s)| - 1])
  {
    var a := TrimStartIs(s);
    var b := TrimEndIs(TrimStart(s));
    assert s == a + Trim(s) + b;
  }

  /** The line is these words with white space between them, and any at the ends. */
  ghost predicate Spaced(s: string, ws: seq<string>)
    decreases |ws|, 1
  {
    if ws == [] then AllSpace(s)
    else exists b, rest :: SpacedFrom(s, b, rest, ws)
  }

  ghost predicate SpacedFrom(s: string, b: string, rest: string, ws: seq<string>)
    requires ws != []
    decreases |ws|, 0
  {
    s == b + ws[0] + rest && AllSpace(b) && IsWord(ws[0]) && (rest != "" ==> IsSpace(rest[0])) && Spaced(rest, ws[1..])
  }

  lemma MoreSpace(c: char, s: string, ws: seq<string>)
    requires IsSpace(c) && Spaced(s, ws)
    ensures Spaced([c] + s, ws)
  {
    if ws != [] {
      var b, rest :| SpacedFrom(s, b, rest, ws);
      assert [c] + s == [c] + b + ws[0] + rest;
      assert SpacedFrom([c] + s, [c] + b, rest, ws);
    }
  }

  lemma FirstWord(w: string, rest: string, ws: seq<string>)
    requires IsWord(w) && (rest != "" ==> IsSpace(rest[0])) && Spaced(rest, ws)
    ensures Spaced(w + rest, [w] + ws)
  {
    assert ([w] + ws)[1..] == ws && w + rest == "" + w + rest;
    assert SpacedFrom(w + rest, "", rest, [w] + ws);
  }

  lemma AfterSpace(s: string, word: string, ws: seq<string>)
    requires s != "" && IsSpace(s[0]) && (word == "" || IsWord(word)) && Spaced(s[1..], ws)
    ensures Spaced(word + s, (if word == "" then [] else [word]) + ws)
  {
    assert s == [s[0]] + s[1..] && [] + ws == ws && "" + s == s;
    MoreSpace(s[0], s[1..], ws);
    if word != "" {
      FirstWord(word, s, ws);
    }
  }

  lemma {:induction false} WordsAre(s: string, word: string)
    requires word == "" || IsWord(word)
    ensures Spaced(word + s, Words(s, word))
    decreases |s|
  {
    if s == "" {
      if word != "" {
        FirstWord(word, "", []);
        assert [word] + [] == [word];
      }
    } else if IsSpace(s[0]) {
      WordsAre(s[1..], "");
      assert "" + s[1..] == s[1..];
      AfterSpace(s, word, Words(s[1..], ""));
    } else {
      WordsAre(s[1..], word + [s[0]]);
      assert word + [s[0]] + s[1..] == word + s;
    }
  }
}
