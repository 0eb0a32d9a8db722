/** The text of a trace: numbers, words and lines (hydra/src/trace.c writes them, dis86/src/trace.rs reads them). */
module TraceText {
  import opened Wrappers

  // ------------------------------------------------------------------------
  // Numbers.

  function Digit(d: nat): char
    requires d < 16
  {
    "0123456789abcdef"[d]
  }

  /** As `%04x` prints it. */
  function Hex4(v: nat): string
    requires v < 0x1_0000
  {
    [Digit(v / 0x1000), Digit(v / 0x100 % 16), Digit(v / 0x10 % 16), Digit(v % 16)]
  }

  function Hex2(v: nat): string
    requires v < 0x100
  {
    [Digit(v / 16), Digit(v % 16)]
  }

  function DigitValue(c: char): Option<nat> {
    if '0' <= c <= '9' then Some(c as int - '0' as int)
    else if 'a' <= c <= 'f' then Some(c as int - 'a' as int + 10)
    else if 'A' <= c <= 'F' then Some(c as int - 'A' as int + 10)
    else None
  }

  function Digits(s: string, acc: nat): Option<nat> {
    if s == "" then Some(acc)
    else
      var d := DigitValue(s[0]);
      if d.None? then None else Digits(s[1..], acc * 16 + d.value)
  }

  /** A 16-bit hexadecimal number; a leading plus sign is allowed. */
  function ParseHex16(s: string): (r: Option<nat>)
    ensures r.Some? ==> r.value < 0x1_0000
  {
    var t := if s != "" && s[0] == '+' then s[1..] else s;
    var v := Digits(t, 0);
    if t == "" || v.None? || v.value >= 0x1_0000 then None else v
  }

  lemma DigitReads(d: nat)
    requires d < 16
    ensures DigitValue(Digit(d)) == Some(d) && Digit(d) != '+'
    ensures Digit(d) !in {' ', '=', ':', '#'} && !IsSpace(Digit(d))
  {
    assert Digit(d) == if d < 10 then ('0' as int + d) as char else ('a' as int + d - 10) as char;
  }

  lemma DigitsStep(d: nat, rest: string, acc: nat)
    requires d < 16
    ensures Digits([Digit(d)] + rest, acc) == Digits(rest, acc * 16 + d)
  {
    DigitReads(d);
    assert ([Digit(d)] + rest)[1..] == rest;
  }

  lemma DigitsOfFour(a: nat, b: nat, c: nat, d: nat)
    requires a < 16 && b < 16 && c < 16 && d < 16
    ensures Digits([Digit(a), Digit(b), Digit(c), Digit(d)], 0) == Some(((a * 16 + b) * 16 + c) * 16 + d)
  {
    assert [Digit(a), Digit(b), Digit(c), Digit(d)] == [Digit(a)] + ([Digit(b)] + ([Digit(c)] + ([Digit(d)] + "")));
    DigitsStep(a, [Digit(b)] + ([Digit(c)] + ([Digit(d)] + "")), 0);
    DigitsStep(b, [Digit(c)] + ([Digit(d)] + ""), a);
    DigitsStep(c, [Digit(d)] + "", a * 16 + b);
    DigitsStep(d, "", (a * 16 + b) * 16 + c);
  }

  lemma Hex4Reads(v: nat)
    requires v < 0x1_0000
    ensures ParseHex16(Hex4(v)) == Some(v)
  {
    DigitReads(v / 0x1000);
    FourDigits(v);
    DigitsOfFour(v / 0x1000, v / 0x100 % 16, v / 0x10 % 16, v % 16);
  }

  lemma FourDigits(v: nat)
    requires v < 0x1_0000
    ensures (((v / 0x1000) * 16 + v / 0x100 % 16) * 16 + v / 0x10 % 16) * 16 + v % 16 == v
  {
  }

  lemma Hex2Reads(v: nat)
    requires v < 0x100
    ensures ParseHex16(Hex2(v)) == Some(v)
  {
    DigitReads(v / 16); DigitReads(v % 16);
    var s := Hex2(v);
    assert s[1..][1..] == "" && s[1..][0] == s[1];
    assert Digits(s, 0) == Digits(s[1..], v / 16);
    assert Digits(s[1..], v / 16) == Some(v / 16 * 16 + v % 16);
  }

  /** A single decimal digit reads the same in hexadecimal. */
  lemma DigitReadsAsHex(d: nat)
    requires d < 10
    ensures ParseHex16([Digit(d)]) == Some(d)
  {
    DigitReads(d);
    var s := [Digit(d)];
    assert s[1..] == "";
    assert Digits(s, 0) == Digits(s[1..], d);
  }

  // ------------------------------------------------------------------------
  // Words.

  /** White space as the reader splits at it. */
  predicate IsSpace(c: char) {
    var n := c as int;
    || n == 0x20 || 0x09 <= n <= 0x0d || n == 0x85 || n == 0xa0 || n == 0x1680 || 0x2000 <= n <= 0x200a
    || n == 0x2028 || n == 0x2029 || n == 0x202f || n == 0x205f || n == 0x3000
  }

  predicate IsWord(s: string) {
    s != "" && forall i :: 0 <= i < |s| ==> !IsSpace(s[i])
  }

  /** The words of a line: its longest runs without white space. `word` is the run being read. */
  function Words(s: string, word: string): seq<string> {
    if s == "" then if word == "" then [] else [word]
    else if IsSpace(s[0]) then (if word == "" then [] else [word]) + Words(s[1..], "")
    else Words(s[1..], word + [s[0]])
  }

  function Line(words: seq<string>): string {
    if words == [] then "" else if |words| == 1 then words[0] else words[0] + " " + Line(words[1..])
  }

  lemma {:induction false} WordReads(w: string, rest: string, word: string)
    requires forall i :: 0 <= i < |w| ==> !IsSpace(w[i])
    ensures Words(w + rest, word) == Words(rest, word + w)
  {
    if w == "" {
      assert w + rest == rest && word + w == word;
    } else {
      assert (w + rest)[1..] == w[1..] + rest;
      WordReads(w[1..], rest, word + [w[0]]);
      assert word + [w[0]] + w[1..] == word + w;
    }
  }

  lemma {:induction false} LineReads(words: seq<string>)
    requires forall i :: 0 <= i < |words| ==> IsWord(words[i])
    ensures Words(Line(words), "") == words
  {
    if words != [] {
      var w := words[0];
      assert "" + w == w;
      if |words| == 1 {
        WordReads(w, "", "");
        assert w + "" == w;
      } else {
        var rest := Line(words[1..]);
        assert Line(words) == w + (" " + rest);
        WordReads(w, " " + rest, "");
        assert (" " + rest)[1..] == rest;
        LineReads(words[1..]);
        assert [w] + words[1..] == words;
      }
    }
  }

  /** Words stay words however the line is padded. */
  function Trim(s: string): string {
    TrimEnd(TrimStart(s))
  }

  function TrimStart(s: string): string {
    if s != "" && IsSpace(s[0]) then TrimStart(s[1..]) else s
  }

  function TrimEnd(s: string): string {
    if s != "" && IsSpace(s[|s| - 1]) then TrimEnd(s[..|s| - 1]) else s
  }

  /** A line of words has nothing to trim, and starts as its first word does. */
  lemma {:induction false} LineIsTrimmed(words: seq<string>)
    requires words != [] && forall i :: 0 <= i < |words| ==> IsWord(words[i])
    ensures words[0] != ""
    ensures Trim(Line(words)) == Line(words) && Line(words) != ""
    ensures Line(words)[0] == words[0][0] && !IsSpace(Line(words)[|Line(words)| - 1])
  {
    if |words| > 1 {
      LineIsTrimmed(words[1..]);
    }
  }

  // ------------------------------------------------------------------------
  // Lines.

  /** The lines of a text: what ends in a newline, and what is left after the last. */
  function Lines(s: string, line: string): seq<string> {
    if s == "" then if line == "" then [] else [line]
    else if s[0] == '\n' then [line] + Lines(s[1..], "")
    else Lines(s[1..], line + [s[0]])
  }

  function Text(lines: seq<string>): string {
    if lines == [] then "" else lines[0] + "\n" + Text(lines[1..])
  }

  predicate OneLine(s: string) {
    forall i :: 0 <= i < |s| ==> s[i] != '\n'
  }

  lemma {:induction false} OneLineReads(l: string, rest: string, line: string)
    requires OneLine(l)
    ensures Lines(l + rest, line) == Lines(rest, line + l)
  {
    if l == "" {
      assert l + rest == rest && line + l == line;
    } else {
      assert (l + rest)[1..] == l[1..] + rest;
      OneLineReads(l[1..], rest, line + [l[0]]);
      assert line + [l[0]] + l[1..] == line + l;
    }
  }

  lemma {:induction false} TextReads(lines: seq<string>)
    requires forall i :: 0 <= i < |lines| ==> OneLine(lines[i])
    ensures Lines(Text(lines), "") == lines
  {
    if lines != [] {
      var l := lines[0];
      var rest := "\n" + Text(lines[1..]);
      assert Text(lines) == l + rest && "" + l == l;
      OneLineReads(l, rest, "");
      assert rest[1..] == Text(lines[1..]);
      TextReads(lines[1..]);
      assert [l] + lines[1..] == lines;
    }
  }

  lemma {:induction false} TextConcat(a: seq<string>, b: seq<string>)
    ensures Text(a + b) == Text(a) + Text(b)
  {
    if a == [] {
      assert a + b == b;
    } else {
      assert (a + b)[1..] == a[1..] + b;
      TextConcat(a[1..], b);
    }
  }

  lemma {:induction false} WordsAreOneLine(words: seq<string>)
    requires forall i :: 0 <= i < |words| ==> IsWord(words[i])
    ensures OneLine(Line(words))
  {
    if |words| > 1 {
      WordsAreOneLine(words[1..]);
    }
    if words != [] {
      assert forall i :: 0 <= i < |words[0]| ==> !IsSpace(words[0][i]);
    }
  }

  // ------------------------------------------------------------------------
  // Fields.

  /** The text before and after the first `c`. */
  function SplitOnce(s: string, c: char): Option<(string, string)> {
    if s == "" then None
    else if s[0] == c then Some(("", s[1..]))
    else
      var r := SplitOnce(s[1..], c);
      if r.None? then None else Some(([s[0]] + r.value.0, r.value.1))
  }

  lemma {:induction false} SplitReads(a: string, c: char, b: string)
    requires c !in a
    ensures SplitOnce(a + [c] + b, c) == Some((a, b))
  {
    var s := a + [c] + b;
    if a == "" {
      assert s[1..] == b;
    } else {
      assert s[1..] == a[1..] + [c] + b;
      SplitReads(a[1..], c, b);
      assert [a[0]] + a[1..] == a;
    }
  }

  /** The fields `key=value` of an event; an error for anything else and for a key that comes twice. */
  function ParseFields(words: seq<string>): Option<map<string, string>> {
    if words == [] then Some(map[])
    else
      var rest, kv := ParseFields(words[..|words| - 1]), SplitOnce(words[|words| - 1], '=');
      if rest.None? || kv.None? || kv.value.0 in rest.value then None
      else Some(rest.value[kv.value.0 := kv.value.1])
  }

  function FieldWords(fs: seq<(string, string)>): seq<string> {
    seq(|fs|, i requires 0 <= i < |fs| => fs[i].0 + "=" + fs[i].1)
  }

  ghost predicate DistinctKeys(fs: seq<(string, string)>) {
    && (forall i :: 0 <= i < |fs| ==> '=' !in fs[i].0)
    && (forall i, j :: 0 <= i < j < |fs| ==> fs[i].0 != fs[j].0)
  }

  ghost predicate IsMapOf(m: map<string, string>, fs: seq<(string, string)>) {
    && (forall i :: 0 <= i < |fs| ==> fs[i].0 in m && m[fs[i].0] == fs[i].1)
    && (forall k :: k in m ==> HasKey(fs, k))
  }

  ghost predicate HasKey(fs: seq<(string, string)>, k: string) {
    exists i :: 0 <= i < |fs| && fs[i].0 == k
  }

  lemma OneFieldReads(fs: seq<(string, string)>, m: map<string, string>, f: (string, string))
    requires DistinctKeys(fs + [f]) && IsMapOf(m, fs)
    ensures f.0 !in m && IsMapOf(m[f.0 := f.1], fs + [f])
  {
    var more := fs + [f];
    assert more[|fs|] == f && forall i :: 0 <= i < |fs| ==> more[i] == fs[i];
    assert !HasKey(fs, f.0);
    forall k | k in m
      ensures HasKey(more, k)
    {
      var i :| 0 <= i < |fs| && fs[i].0 == k;
      assert more[i].0 == k;
    }
  }

  lemma LastField(fs: seq<(string, string)>)
    requires fs != []
    ensures var n := |fs| - 1;
      && FieldWords(fs)[..n] == FieldWords(fs[..n]) && FieldWords(fs)[n] == fs[n].0 + "=" + fs[n].1
      && fs == fs[..n] + [fs[n]]
  {
  }

  lemma {:induction false} FieldsRead(fs: seq<(string, string)>)
    requires DistinctKeys(fs)
    ensures ParseFields(FieldWords(fs)).Some? && IsMapOf(ParseFields(FieldWords(fs)).value, fs)
  {
    if fs != [] {
      var n := |fs| - 1;
      FieldsRead(fs[..n]);
      LastField(fs);
      SplitReads(fs[n].0, '=', fs[n].1);
      OneFieldReads(fs[..n], ParseFields(FieldWords(fs[..n])).value, fs[n]);
    }
  }
}
