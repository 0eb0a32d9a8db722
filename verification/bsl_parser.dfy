/** The parser of bsl/src/bsl/bsl.c: a position in the text and the current token, moved along in loops. */
module BslParser {
  import opened Wrappers
  import opened BslSyntax

  /** `AtEnd` once the text is used up. */
  datatype Current = AtEnd | At(t: Token)

  lemma NothingBefore(s: string)
    ensures "" + s == s
  {
  }

  lemma OneMore(a: string, c: char, b: string)
    ensures a + [c] + b == a + ([c] + b)
  {
  }

  lemma NextChar(buf: string, start: nat, idx: nat)
    requires start <= idx < |buf|
    ensures buf[idx..][1..] == buf[idx + 1..] && buf[idx..][0] == buf[idx] && buf[start..idx + 1] == buf[start..idx] + [buf[idx]]
  {
  }

  /** What has been read within quotes, from `start` up to `idx`, is a part of the whole. */
  ghost predicate QuotedSoFar(buf: string, start: nat, idx: nat) {
    && start <= idx <= |buf|
    && var q, whole := Quoted(buf[idx..]), Quoted(buf[start..]);
       (q.None? <==> whole.None?) && (q.Some? ==> whole.value.0 == buf[start..idx] + q.value.0 && whole.value.1 == q.value.1)
  }

  lemma QuotedStarts(buf: string, start: nat)
    requires start <= |buf|
    ensures QuotedSoFar(buf, start, start)
  {
    if Quoted(buf[start..]).Some? { NothingBefore(Quoted(buf[start..]).value.0); }
  }

  lemma QuotedGoesOn(buf: string, start: nat, idx: nat)
    requires QuotedSoFar(buf, start, idx) && idx < |buf| && buf[idx] != '"' && buf[idx] != '\0'
    ensures QuotedSoFar(buf, start, idx + 1)
  {
    NextChar(buf, start, idx);
    if Quoted(buf[idx + 1..]).Some? { OneMore(buf[start..idx], buf[idx], Quoted(buf[idx + 1..]).value.0); }
  }

  lemma QuotedEnds(buf: string, start: nat, idx: nat)
    requires QuotedSoFar(buf, start, idx) && (idx < |buf| ==> buf[idx] == '"' || buf[idx] == '\0')
    ensures if idx < |buf| && buf[idx] == '"' then Quoted(buf[start..]) == Some((buf[start..idx], buf[idx + 1..]))
            else Quoted(buf[start..]).None?
  {
    if idx < |buf| {
      NextChar(buf, start, idx);
      assert buf[start..idx] + "" == buf[start..idx];
    }
  }

  class Parser {
    const buf: string
    var idx: nat
    var cur: Current

    ghost predicate Valid()
      reads this
    {
      idx <= |buf|
    }

    /** The current token and all that are still to be read. */
    ghost function Remaining(): seq<Token>
      reads this
      requires Valid()
    {
      if cur.AtEnd? then [] else if cur.t.Bad? then [Bad] else [cur.t] + Tokens(buf[idx..])
    }

    constructor (buf: string)
      ensures Valid() && this.buf == buf && idx == 0 && fresh(this)
    {
      this.buf, idx, cur := buf, 0, AtEnd;
    }

    method SkipWhitespace()
      requires Valid()
      modifies this`idx
      ensures Valid() && buf[idx..] == SkipWhite(buf[old(idx)..]) && old(idx) <= idx
    {
      while idx < |buf| && IsWhite(buf[idx])
        invariant idx <= |buf| && old(idx) <= idx
        invariant SkipWhite(buf[idx..]) == SkipWhite(buf[old(idx)..])
      {
        assert buf[idx..][1..] == buf[idx + 1..];
        idx := idx + 1;
      }
      assert idx < |buf| ==> buf[idx..][0] == buf[idx];
    }

    /** Up to and past the closing quote; fails at a NUL or the end of the text. */
    method ReadQuoted() returns (s: Option<string>)
      requires Valid()
      modifies this`idx
      ensures Valid() && (s.None? <==> Quoted(buf[old(idx)..]).None?)
      ensures s.Some? ==> Quoted(buf[old(idx)..]) == Some((s.value, buf[idx..]))
    {
      var start := idx;
      QuotedStarts(buf, start);
      while idx < |buf| && buf[idx] != '"' && buf[idx] != '\0'
        invariant QuotedSoFar(buf, start, idx)
      {
        QuotedGoesOn(buf, start, idx);
        idx := idx + 1;
      }
      QuotedEnds(buf, start, idx);
      if idx == |buf| || buf[idx] == '\0' { return None; }
      s := Some(buf[start..idx]);
      idx := idx + 1;
    }

    method ReadRun() returns (s: string)
      requires Valid()
      modifies this`idx
      ensures Valid() && Run(buf[old(idx)..]) == (s, buf[idx..])
    {
      var start := idx;
      NothingBefore(Run(buf[idx..]).0);
      while idx < |buf| && IsVisible(buf[idx])
        invariant start <= idx <= |buf|
        invariant var r, whole := Run(buf[idx..]), Run(buf[start..]); whole.0 == buf[start..idx] + r.0 && whole.1 == r.1
      {
        NextChar(buf, start, idx);
        OneMore(buf[start..idx], buf[idx], Run(buf[idx + 1..]).0);
        idx := idx + 1;
      }
      assert idx < |buf| ==> buf[idx..][0] == buf[idx];
      s := buf[start..idx];
      assert buf[start..idx] + "" == buf[start..idx];
    }

    /** The next token becomes the current one. */
    method Next()
      requires Valid()
      modifies this
      ensures Valid() && Remaining() == Tokens(buf[old(idx)..])
    {
      ghost var text := buf[idx..];
      SkipWhitespace();
      ghost var t := buf[idx..];
      if idx == |buf| {
        cur := AtEnd;
        return;
      }
      assert t[0] == buf[idx] && t[1..] == buf[idx + 1..];
      var c := buf[idx];
      if c == '{' || c == '}' {
        idx := idx + 1;
        cur := At(if c == '{' then Open else Close);
      } else if c == '"' {
        idx := idx + 1;
        var s := ReadQuoted();
        cur := At(if s.None? then Bad else Word(s.value));
      } else if IsVisible(c) {
        var s := ReadRun();
        cur := At(Word(s));
      } else {
        cur := At(Bad);
      }
    }

    /** A value: a string, or a list in braces. */
    method ParseValue() returns (v: Option<Value>)
      requires Valid()
      modifies this
      ensures Valid()
      ensures var r := BslSyntax.ParseValue(old(Remaining()));
        (v.None? <==> r.None?) && (v.Some? ==> r.value == (v.value, Remaining()))
      decreases |Remaining()|, 0
    {
      ghost var ts := Remaining();
      v := None;
      if cur.AtEnd? { return; }
      match cur.t {
        case Word(s) =>
          Next();
          assert ts[1..] == Remaining();
          v := Some(Str(s));
        case Open =>
          Next();
          assert ts[1..] == Remaining();
          var kvs := ParseNode();
          if kvs.None? || cur != At(Close) { return; }
          ghost var rest := Remaining();
          Next();
          assert rest[1..] == Remaining();
          v := Some(Node(kvs.value));
        case _ =>
      }
    }

    /** Keys with values for as long as there is a key. */
    method ParseNode() returns (kvs: Option<seq<KeyVal>>)
      requires Valid()
      modifies this
      ensures Valid()
      ensures var r := BslSyntax.ParseNode(old(Remaining()));
        (kvs.None? <==> r.None?) && (kvs.Some? ==> r.value == (kvs.value, Remaining()))
      decreases |Remaining()|, 1
    {
      var node: seq<KeyVal> := [];
      ghost var whole := BslSyntax.ParseNode(Remaining());
      ParsingStarts(Remaining());
      while cur.At? && cur.t.Word?
        invariant Valid() && |Remaining()| <= |old(Remaining())| && Parsing(whole, node, Remaining())
        modifies this
        decreases |Remaining()|
      {
        ghost var ts := Remaining();
        var key := cur.t.s;
        Next();
        ghost var ts1 := Remaining();
        assert ts[1..] == ts1;
        var v := ParseValue();
        if v.None? {
          return None;
        }
        ParsingStep(whole, node, ts, v.value, Remaining());
        node := node + [KeyVal(key, v.value)];
      }
      assert node + [] == node;
      kvs := Some(node);
    }
  }

  /** With `node` read and `ts` to come, the whole list is what was to be expected from the start. */
  ghost predicate Parsing(whole: Option<(seq<KeyVal>, seq<Token>)>, node: seq<KeyVal>, ts: seq<Token>) {
    var r := BslSyntax.ParseNode(ts);
    (r.None? <==> whole.None?) && (r.Some? ==> whole.value.0 == node + r.value.0 && whole.value.1 == r.value.1)
  }

  lemma ParsingStarts(ts: seq<Token>)
    ensures Parsing(BslSyntax.ParseNode(ts), [], ts)
  {
    var r := BslSyntax.ParseNode(ts);
    assert r.Some? ==> [] + r.value.0 == r.value.0;
  }

  lemma ParsingStep(whole: Option<(seq<KeyVal>, seq<Token>)>, node: seq<KeyVal>, ts: seq<Token>, v: Value, rest: seq<Token>)
    requires Parsing(whole, node, ts) && ts != [] && ts[0].Word? && BslSyntax.ParseValue(ts[1..]) == Some((v, rest))
    ensures Parsing(whole, node + [KeyVal(ts[0].s, v)], rest)
  {
    var more := BslSyntax.ParseNode(rest);
    if more.Some? {
      var kv := KeyVal(ts[0].s, v);
      assert node + ([kv] + more.value.0) == node + [kv] + more.value.0;
    }
  }

  method ParseNew(buf: string) returns (r: Option<seq<KeyVal>>)
    ensures r == Parse(buf)
    ensures forall kvs :: r == Some(kvs) <==> Writes(kvs, buf)
  {
    var p := new Parser(buf);
    assert buf[0..] == buf;
    p.Next();
    var kvs := p.ParseNode();
    r := if kvs.Some? && p.cur.AtEnd? then kvs else None;
    forall kvs
      ensures r == Some(kvs) <==> Writes(kvs, buf)
    {
      ParsesIff(buf, kvs);
    }
  }

  // ------------------------------------------------------------------------
  // Lookup.

  /** The value of the first entry with a key. */
  function Lookup(kvs: seq<KeyVal>, key: string): Option<Value> {
    if kvs == [] then None else if kvs[0].key == key then Some(kvs[0].val) else Lookup(kvs[1..], key)
  }

  /** One lookup inside another, along a list of keys. */
  function LookupPath(kvs: seq<KeyVal>, path: seq<string>): Option<Value>
    requires path != []
    decreases |path|
  {
    var v := Lookup(kvs, path[0]);
    if |path| == 1 || v.None? then v
    else if v.value.Node? then LookupPath(v.value.kvs, path[1..])
    else None
  }

  predicate DotFree(key: string) {
    forall i :: 0 <= i < |key| ==> key[i] != '.'
  }

  function Dotted(path: seq<string>): string
    requires path != []
  {
    if |path| == 1 then path[0] else path[0] + "." + Dotted(path[1..])
  }

  /** The length of the part before the first dot. */
  function PartLen(key: string): (n: nat)
    ensures n <= |key| && DotFree(key[..n]) && (n < |key| ==> key[n] == '.')
  {
    if key == "" || key[0] == '.' then 0 else 1 + PartLen(key[1..])
  }

  /** The parts of a key between its dots. */
  function Parts(key: string): (r: seq<string>)
    ensures r != []
  {
    var n := PartLen(key);
    if n == |key| then [key] else [key[..n]] + Parts(key[n + 1..])
  }

  lemma {:induction false} PartLenIs(key: string, n: nat)
    requires n <= |key| && DotFree(key[..n]) && (n < |key| ==> key[n] == '.')
    ensures PartLen(key) == n
  {
    if n > 0 {
      assert key[..n][0] == key[0];
      assert key[1..][..n - 1] == key[..n][1..];
      PartLenIs(key[1..], n - 1);
    }
  }

  /** A dotted key has just the parts it was put together from, if they have no dots themselves. */
  lemma {:induction false} PartsOfDotted(path: seq<string>)
    requires path != [] && forall i :: 0 <= i < |path| ==> DotFree(path[i])
    ensures Parts(Dotted(path)) == path
  {
    var key, first := Dotted(path), path[0];
    var n := PartLen(key);
    assert forall i :: 0 <= i < |first| ==> key[i] == first[i];
    if |path| == 1 {
      assert n == |key|;
    } else {
      var rest := Dotted(path[1..]);
      assert key == first + "." + rest && key[|first|] == '.';
      assert key[..|first|] == first;
      PartLenIs(key, |first|);
      assert key[..n] == first && key[n + 1..] == rest;
      PartsOfDotted(path[1..]);
      assert [first] + path[1..] == path;
    }
  }

  /** Entry `i` is the first with that key. */
  ghost predicate FirstWith(kvs: seq<KeyVal>, key: string, i: nat) {
    i < |kvs| && kvs[i].key == key && forall j :: 0 <= j < i ==> kvs[j].key != key
  }

  ghost predicate NoneWith(kvs: seq<KeyVal>, key: string) {
    forall j :: 0 <= j < |kvs| ==> kvs[j].key != key
  }

  lemma {:induction false} LookupIs(kvs: seq<KeyVal>, key: string)
    ensures Lookup(kvs, key).None? <==> NoneWith(kvs, key)
    ensures forall i: nat {:trigger FirstWith(kvs, key, i)} :: FirstWith(kvs, key, i) ==> Lookup(kvs, key) == Some(kvs[i].val)
    ensures Lookup(kvs, key).Some? ==> exists i: nat :: FirstWith(kvs, key, i)
  {
    if kvs != [] {
      var rest := kvs[1..];
      assert forall j :: 0 < j < |kvs| ==> kvs[j] == rest[j - 1];
      LookupIs(rest, key);
      if kvs[0].key == key {
        assert FirstWith(kvs, key, 0);
      } else {
        if i: nat :| FirstWith(rest, key, i) {
          assert FirstWith(kvs, key, i + 1);
        }
        forall i: nat | FirstWith(kvs, key, i)
          ensures Lookup(kvs, key) == Some(kvs[i].val)
        {
          assert FirstWith(rest, key, i - 1);
        }
      }
    }
  }

  /** Going along `path`, each time to the first entry with that key, leads to `v`. */
  ghost predicate LeadsTo(kvs: seq<KeyVal>, path: seq<string>, v: Value)
    requires path != []
    decreases |path|
  {
    exists i: nat :: FirstWith(kvs, path[0], i) &&
      if |path| == 1 then kvs[i].val == v else kvs[i].val.Node? && LeadsTo(kvs[i].val.kvs, path[1..], v)
  }

  lemma {:induction false} PathLeads(kvs: seq<KeyVal>, path: seq<string>, v: Value)
    requires path != []
    ensures LookupPath(kvs, path) == Some(v) <==> LeadsTo(kvs, path, v)
    decreases |path|
  {
    LookupIs(kvs, path[0]);
    if i: nat :| FirstWith(kvs, path[0], i) {
      if |path| > 1 && kvs[i].val.Node? {
        PathLeads(kvs[i].val.kvs, path[1..], v);
      }
    }
  }

  ghost predicate DotFreeParts(path: seq<string>) {
    path != [] && forall i :: 0 <= i < |path| ==> DotFree(path[i])
  }

  lemma OneMorePart(first: string, rest: seq<string>)
    requires DotFree(first) && DotFreeParts(rest)
    ensures DotFreeParts([first] + rest) && Dotted([first] + rest) == first + "." + Dotted(rest)
  {
    assert ([first] + rest)[1..] == rest;
  }

  /** The parts of a key hold no dots, and make up the key. */
  lemma {:induction false} PartsMakeKey(key: string)
    ensures DotFreeParts(Parts(key)) && Dotted(Parts(key)) == key
    decreases |key|
  {
    var n := PartLen(key);
    if n == |key| {
      assert key[..n] == key;
    } else {
      var first, left := key[..n], key[n + 1..];
      PartsMakeKey(left);
      OneMorePart(first, Parts(left));
      assert key == first + "." + left;
    }
  }

  /** What a dotted key stands for: the value its dot-free parts lead to. */
  ghost predicate KeyLeadsTo(kvs: seq<KeyVal>, key: string, v: Value) {
    key != "" && exists path :: DotFreeParts(path) && Dotted(path) == key && LeadsTo(kvs, path, v)
  }

  lemma KeyLeads(kvs: seq<KeyVal>, key: string, v: Value)
    requires key != ""
    ensures LookupPath(kvs, Parts(key)) == Some(v) <==> KeyLeadsTo(kvs, key, v)
  {
    PartsMakeKey(key);
    PathLeads(kvs, Parts(key), v);
    if path :| DotFreeParts(path) && Dotted(path) == key && LeadsTo(kvs, path, v) {
      PartsOfDotted(path);
    }
  }

  method NodeGet(kvs: seq<KeyVal>, key: string) returns (r: Option<Value>)
    ensures r == Lookup(kvs, key)
    ensures r.None? <==> NoneWith(kvs, key)
    ensures forall i: nat {:trigger FirstWith(kvs, key, i)} :: FirstWith(kvs, key, i) ==> r == Some(kvs[i].val)
  {
    LookupIs(kvs, key);
    for n := 0 to |kvs|
      invariant Lookup(kvs, key) == Lookup(kvs[n..], key)
    {
      assert kvs[n..][1..] == kvs[n + 1..] && kvs[n..][0] == kvs[n];
      if kvs[n].key == key { return Some(kvs[n].val); }
    }
    r := None;
  }

  /** The end of the part that starts at `from`. */
  method PartEnd(key: string, from: nat) returns (end: nat)
    requires from <= |key|
    ensures end == from + PartLen(key[from..]) <= |key|
  {
    end := from;
    while end < |key| && key[end] != '.'
      invariant from <= end <= |key| && PartLen(key[from..]) == end - from + PartLen(key[end..])
    {
      assert key[end..][1..] == key[end + 1..] && key[end..][0] == key[end];
      end := end + 1;
    }
    assert end < |key| ==> key[end..][0] == key[end];
  }

  /** Looking up what is left of the key in `node` decides the lookup of the whole key. */
  ghost predicate Decides(goal: Option<Value>, node: seq<KeyVal>, left: string) {
    LookupPath(node, Parts(left)) == goal
  }

  /** What the first part of what is left decides. */
  lemma OnePart(goal: Option<Value>, node: seq<KeyVal>, left: string, v: Option<Value>)
    requires Decides(goal, node, left) && v == Lookup(node, left[..PartLen(left)])
    ensures var n := PartLen(left);
      if v.None? || n == |left| then goal == v
      else if v.value.Str? then goal.None?
      else Decides(goal, v.value.kvs, left[n + 1..])
  {
    var n := PartLen(left);
    if n < |left| {
      assert Parts(left)[1..] == Parts(left[n + 1..]);
    } else {
      assert left[..n] == left;
    }
  }

  method LookupPart(node: seq<KeyVal>, key: string, ptr: nat, end: nat, ghost goal: Option<Value>) returns (v: Option<Value>)
    requires ptr <= end <= |key| && end == ptr + PartLen(key[ptr..]) && Decides(goal, node, key[ptr..])
    ensures if v.None? || end == |key| then goal == v
            else if v.value.Str? then goal.None?
            else Decides(goal, v.value.kvs, key[end + 1..])
  {
    v := NodeGet(node, key[ptr..end]);
    assert key[ptr..][..end - ptr] == key[ptr..end];
    assert end < |key| ==> key[ptr..][end - ptr + 1..] == key[end + 1..];
    OnePart(goal, node, key[ptr..], v);
  }

  /** An empty key is nothing; otherwise the parts between dots are looked up one in the other. */
  method GetGeneric(kvs: seq<KeyVal>, key: string) returns (r: Option<Value>)
    ensures forall v :: r == Some(v) <==> KeyLeadsTo(kvs, key, v)
  {
    if key == "" { return None; }
    r := GetPath(kvs, key);
    forall v
      ensures r == Some(v) <==> KeyLeadsTo(kvs, key, v)
    {
      KeyLeads(kvs, key, v);
    }
  }

  method GetPath(kvs: seq<KeyVal>, key: string) returns (r: Option<Value>)
    requires key != ""
    ensures r == LookupPath(kvs, Parts(key))
  {
    ghost var goal := LookupPath(kvs, Parts(key));
    var node, ptr := kvs, 0;
    assert key[0..] == key;
    while true
      invariant 0 <= ptr <= |key| && Decides(goal, node, key[ptr..])
      decreases |key| - ptr
    {
      var end := PartEnd(key, ptr);
      var v := LookupPart(node, key, ptr, end, goal);
      if v.None? || end == |key| { return v; }
      if v.value.Str? { return None; }
      node, ptr := v.value.kvs, end + 1;
    }
  }
}
