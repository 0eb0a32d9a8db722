/** The configuration language (bsl/src/bsl/bsl.c): its tokens, its grammar, and every way to write a tree down. */
module BslSyntax {
  import opened Wrappers

  datatype Token = Open | Close | Word(s: string) | Bad

  /** A list of keys with values; a value is a string or another list. */
  datatype Value = Str(s: string) | Node(kvs: seq<KeyVal>)
  datatype KeyVal = KeyVal(key: string, val: Value)

  predicate IsWhite(c: char) { c == ' ' || c == '\t' || c == '\n' }

  predicate IsVisible(c: char) { '!' <= c <= '~' }

  // ------------------------------------------------------------------------
  // Tokens.

  function SkipWhite(s: string): (r: string)
    ensures |r| <= |s| && (r != "" ==> !IsWhite(r[0]))
  {
    if s != "" && IsWhite(s[0]) then SkipWhite(s[1..]) else s
  }

  /** The text up to the closing quote, and what comes after it. */
  function Quoted(s: string): (r: Option<(string, string)>)
    ensures r.Some? ==> |r.value.1| < |s|
  {
    if s == "" || s[0] == '\0' then None
    else if s[0] == '"' then Some(("", s[1..]))
    else
      var r := Quoted(s[1..]);
      if r.None? then None else Some(([s[0]] + r.value.0, r.value.1))
  }

  /** The longest run of visible characters, and what comes after it. */
  function Run(s: string): (r: (string, string))
    ensures |r.1| <= |s| && (s != "" && IsVisible(s[0]) ==> |r.1| < |s|)
  {
    if s == "" || !IsVisible(s[0]) then ("", s)
    else
      var r := Run(s[1..]);
      ([s[0]] + r.0, r.1)
  }

  /** The first token after white space, and what comes after it; `None` at the end. */
  function Lex(s: string): (r: Option<(Token, string)>)
    ensures r.Some? ==> |r.value.1| < |s| || r.value.0.Bad?
  {
    var t := SkipWhite(s);
    if t == "" then None
    else if t[0] == '{' then Some((Open, t[1..]))
    else if t[0] == '}' then Some((Close, t[1..]))
    else if t[0] == '"' then
      var q := Quoted(t[1..]);
      if q.None? then Some((Bad, "")) else Some((Word(q.value.0), q.value.1))
    else if IsVisible(t[0]) then Some((Word(Run(t).0), Run(t).1))
    else Some((Bad, ""))
  }

  function Tokens(s: string): seq<Token>
    decreases |s|
  {
    var t := Lex(s);
    if t.None? then [] else if t.value.0.Bad? then [Bad] else [t.value.0] + Tokens(t.value.1)
  }

  // ------------------------------------------------------------------------
  // The grammar. `None` where the source gives up.

  function ParseValue(ts: seq<Token>): (r: Option<(Value, seq<Token>)>)
    ensures r.Some? ==> |r.value.1| < |ts|
    decreases |ts|, 0
  {
    if ts == [] then None
    else match ts[0]
      case Word(s) => Some((Str(s), ts[1..]))
      case Open =>
        var n := ParseNode(ts[1..]);
        if n.None? || n.value.1 == [] || n.value.1[0] != Close then None
        else Some((Node(n.value.0), n.value.1[1..]))
      case _ => None
  }

  function ParseNode(ts: seq<Token>): (r: Option<(seq<KeyVal>, seq<Token>)>)
    ensures r.Some? ==> |r.value.1| <= |ts|
    decreases |ts|, 1
  {
    if ts == [] || !ts[0].Word? then Some(([], ts))
    else
      var v := ParseValue(ts[1..]);
      if v.None? then None
      else
        var rest := ParseNode(v.value.1);
        if rest.None? then None
        else Some(([KeyVal(ts[0].s, v.value.0)] + rest.value.0, rest.value.1))
  }

  function Parse(s: string): Option<seq<KeyVal>> {
    var n := ParseNode(Tokens(s));
    if n.None? || n.value.1 != [] then None else Some(n.value.0)
  }

  // ------------------------------------------------------------------------
  // Writing a tree down.

  ghost function TokensOf(v: Value): seq<Token> {
    match v
    case Str(s) => [Word(s)]
    case Node(kvs) => [Open] + TokensOfAll(kvs) + [Close]
  }

  ghost function TokensOfAll(kvs: seq<KeyVal>): seq<Token> {
    if kvs == [] then [] else [Word(kvs[0].key)] + TokensOf(kvs[0].val) + TokensOfAll(kvs[1..])
  }

  ghost predicate Blank(s: string) {
    forall i :: 0 <= i < |s| ==> s[i] in {' ', '\t', '\n'}
  }

  ghost predicate CanQuote(s: string) {
    forall i :: 0 <= i < |s| ==> s[i] != '"' && s[i] != '\0'
  }

  /** The characters with codes 33 to 126 can stand without quotes. */
  ghost predicate BareChar(c: char) {
    33 <= c as int <= 126
  }

  ghost predicate CanBeBare(s: string) {
    s != "" && s[0] !in {'{', '}', '"'} && forall i :: 0 <= i < |s| ==> BareChar(s[i])
  }

  /** The ways to write one token, when `next` is written right after it. */
  ghost predicate Spells(text: string, t: Token, next: string) {
    match t
    case Open => text == "{"
    case Close => text == "}"
    case Word(s) =>
      || (CanQuote(s) && text == "\"" + s + "\"")
      || (CanBeBare(s) && text == s && (next == "" || !BareChar(next[0])))
    case Bad => false
  }

  /** `parts[i]` is the blank before token `i` and its spelling; `last` the blank at the end. */
  ghost function Joined(parts: seq<(string, string)>, last: string): string {
    if parts == [] then last else parts[0].0 + parts[0].1 + Joined(parts[1..], last)
  }

  ghost predicate WrittenAs(ts: seq<Token>, parts: seq<(string, string)>, last: string) {
    if parts == [] then ts == [] && Blank(last)
    else ts != [] && Blank(parts[0].0) && Spells(parts[0].1, ts[0], Joined(parts[1..], last)) && WrittenAs(ts[1..], parts[1..], last)
  }

  /** `text` is one of the ways to write the tree. */
  ghost predicate Writes(kvs: seq<KeyVal>, text: string) {
    exists parts, last :: WrittenAs(TokensOfAll(kvs), parts, last) && text == Joined(parts, last)
  }

  // ------------------------------------------------------------------------
  // Reading it back.

  lemma {:induction false} SkipBlank(b: string, s: string)
    requires Blank(b)
    ensures SkipWhite(b + s) == SkipWhite(s)
  {
    if b != "" {
      assert (b + s)[1..] == b[1..] + s;
      SkipBlank(b[1..], s);
    } else {
      assert b + s == s;
    }
  }

  lemma {:induction false} QuotedReads(s: string, rest: string)
    requires CanQuote(s)
    ensures Quoted(s + "\"" + rest) == Some((s, rest))
  {
    var text := s + "\"" + rest;
    if s == "" {
      assert text[1..] == rest;
    } else {
      assert text[1..] == s[1..] + "\"" + rest;
      QuotedReads(s[1..], rest);
      assert [s[0]] + s[1..] == s;
    }
  }

  lemma {:induction false} RunReads(s: string, rest: string)
    requires (forall i :: 0 <= i < |s| ==> IsVisible(s[i])) && (rest == "" || !IsVisible(rest[0]))
    ensures Run(s + rest) == (s, rest)
  {
    if s == "" {
      assert s + rest == rest;
    } else {
      assert (s + rest)[1..] == s[1..] + rest;
      RunReads(s[1..], rest);
      assert [s[0]] + s[1..] == s;
    }
  }

  /** However it is spelled, a token is read back as itself. */
  lemma LexReads(blank: string, text: string, t: Token, rest: string)
    requires Blank(blank) && Spells(text, t, rest)
    ensures Lex(blank + text + rest) == Some((t, rest))
  {
    assert blank + text + rest == blank + (text + rest);
    SkipBlank(blank, text + rest);
    var s := text + rest;
    if t.Word? && CanQuote(t.s) && text == "\"" + t.s + "\"" {
      assert s[1..] == t.s + "\"" + rest;
      QuotedReads(t.s, rest);
    } else if t.Word? {
      RunReads(t.s, rest);
    } else {
      assert s[1..] == rest;
    }
  }

  lemma {:induction false} TokensRead(ts: seq<Token>, parts: seq<(string, string)>, last: string)
    requires WrittenAs(ts, parts, last)
    ensures Tokens(Joined(parts, last)) == ts
    decreases |parts|
  {
    if parts == [] {
      SkipBlank(last, "");
      assert last + "" == last;
    } else {
      var rest := Joined(parts[1..], last);
      LexReads(parts[0].0, parts[0].1, ts[0], rest);
      TokensRead(ts[1..], parts[1..], last);
      assert [ts[0]] + ts[1..] == ts;
    }
  }

  lemma {:induction false} ParseValueReads(v: Value, rest: seq<Token>)
    ensures ParseValue(TokensOf(v) + rest) == Some((v, rest))
    decreases v
  {
    var ts := TokensOf(v) + rest;
    match v {
      case Str(s) => assert ts[1..] == rest;
      case Node(kvs) =>
        assert ts[1..] == TokensOfAll(kvs) + ([Close] + rest);
        ParseNodeReads(kvs, [Close] + rest);
        assert ([Close] + rest)[1..] == rest;
    }
  }

  lemma {:induction false} ParseNodeReads(kvs: seq<KeyVal>, rest: seq<Token>)
    requires rest == [] || !rest[0].Word?
    ensures ParseNode(TokensOfAll(kvs) + rest) == Some((kvs, rest))
    decreases kvs
  {
    var ts := TokensOfAll(kvs) + rest;
    if kvs == [] {
      assert ts == rest;
    } else {
      var more := TokensOfAll(kvs[1..]) + rest;
      assert ts[1..] == TokensOf(kvs[0].val) + more;
      ParseValueReads(kvs[0].val, more);
      ParseNodeReads(kvs[1..], rest);
      assert [KeyVal(kvs[0].key, kvs[0].val)] + kvs[1..] == kvs;
    }
  }

  /** Any way of writing a tree down is parsed back to the tree. */
  lemma RoundTrip(kvs: seq<KeyVal>, text: string)
    requires Writes(kvs, text)
    ensures Parse(text) == Some(kvs)
  {
    var parts, last :| WrittenAs(TokensOfAll(kvs), parts, last) && text == Joined(parts, last);
    TokensRead(TokensOfAll(kvs), parts, last);
    assert TokensOfAll(kvs) + [] == TokensOfAll(kvs);
    ParseNodeReads(kvs, []);
  }

  // ------------------------------------------------------------------------
  // Every tree without quotes and NULs can be written down.

  ghost predicate Writable(ts: seq<Token>) {
    forall i :: 0 <= i < |ts| ==> !ts[i].Bad? && (ts[i].Word? ==> CanQuote(ts[i].s))
  }

  function Spell(t: Token): string {
    match t
    case Open => "{"
    case Close => "}"
    case Word(s) => "\"" + s + "\""
    case Bad => ""
  }

  ghost function Spelled(ts: seq<Token>): seq<(string, string)> {
    seq(|ts|, i requires 0 <= i < |ts| => (" ", Spell(ts[i])))
  }

  lemma {:induction false} SpelledWrites(ts: seq<Token>)
    requires Writable(ts)
    ensures WrittenAs(ts, Spelled(ts), "")
  {
    if ts != [] {
      SpelledWrites(ts[1..]);
      assert Spelled(ts)[1..] == Spelled(ts[1..]);
      assert Blank(" ");
    }
  }

  /** So printing and parsing is the identity on these trees, and loses nothing. */
  lemma EveryTreeCanBeWritten(kvs: seq<KeyVal>)
    requires Writable(TokensOfAll(kvs))
    ensures Writes(kvs, Joined(Spelled(TokensOfAll(kvs)), "")) && Parse(Joined(Spelled(TokensOfAll(kvs)), "")) == Some(kvs)
  {
    SpelledWrites(TokensOfAll(kvs));
    RoundTrip(kvs, Joined(Spelled(TokensOfAll(kvs)), ""));
  }

  // ------------------------------------------------------------------------
  // Nothing else is read.

  lemma {:induction false} SkippedBlank(s: string) returns (blank: string)
    ensures Blank(blank) && s == blank + SkipWhite(s)
  {
    if s != "" && IsWhite(s[0]) {
      var rest := SkippedBlank(s[1..]);
      blank := [s[0]] + rest;
      assert s == [s[0]] + s[1..];
    } else {
      blank := "";
    }
  }

  lemma {:induction false} QuotedWas(s: string)
    requires Quoted(s).Some?
    ensures CanQuote(Quoted(s).value.0) && s == Quoted(s).value.0 + "\"" + Quoted(s).value.1
  {
    if s[0] == '"' {
      assert s == "" + "\"" + s[1..];
    } else {
      QuotedWas(s[1..]);
      var r := Quoted(s[1..]).value;
      assert s == [s[0]] + s[1..] && [s[0]] + (r.0 + "\"" + r.1) == [s[0]] + r.0 + "\"" + r.1;
    }
  }

  lemma {:induction false} RunWas(s: string)
    ensures var r := Run(s);
      && s == r.0 + r.1 && (forall i :: 0 <= i < |r.0| ==> IsVisible(r.0[i])) && (r.1 == "" || !IsVisible(r.1[0]))
      && (s != "" && IsVisible(s[0]) ==> r.0 != "" && r.0[0] == s[0])
  {
    if s != "" && IsVisible(s[0]) {
      RunWas(s[1..]);
      assert s == [s[0]] + s[1..];
    }
  }

  /** What a token with no blank before it was read from. */
  lemma TokenWas(t: string) returns (text: string)
    requires t != "" && SkipWhite(t) == t && Lex(t).Some? && !Lex(t).value.0.Bad?
    ensures Spells(text, Lex(t).value.0, Lex(t).value.1) && t == text + Lex(t).value.1
  {
    assert t == [t[0]] + t[1..];
    if t[0] == '{' || t[0] == '}' {
      text := [t[0]];
    } else if t[0] == '"' {
      QuotedWas(t[1..]);
      text := "\"" + Quoted(t[1..]).value.0 + "\"";
      assert t == text + Quoted(t[1..]).value.1;
    } else {
      RunWas(t);
      text := Run(t).0;
    }
  }

  /** A token was read from one of its spellings. */
  lemma LexWas(s: string) returns (blank: string, text: string)
    requires Lex(s).Some? && !Lex(s).value.0.Bad?
    ensures Blank(blank) && Spells(text, Lex(s).value.0, Lex(s).value.1) && s == blank + text + Lex(s).value.1
  {
    blank := SkippedBlank(s);
    var t := SkipWhite(s);
    assert Lex(t) == Lex(s);
    text := TokenWas(t);
    assert blank + (text + Lex(s).value.1) == blank + text + Lex(s).value.1;
  }

  lemma {:induction false} TokensWere(s: string) returns (parts: seq<(string, string)>, last: string)
    requires Bad !in Tokens(s)
    ensures WrittenAs(Tokens(s), parts, last) && s == Joined(parts, last)
    decreases |s|
  {
    var t := Lex(s);
    if t.None? {
      last := SkippedBlank(s);
      parts := [];
      assert last + "" == last;
    } else {
      assert Tokens(s)[0] == t.value.0;
      var blank, text := LexWas(s);
      assert Tokens(s)[1..] == Tokens(t.value.1);
      var rest, end := TokensWere(t.value.1);
      parts, last := [(blank, text)] + rest, end;
      assert parts[1..] == rest;
    }
  }

  lemma Regrouped(a: seq<Token>, b: seq<Token>, c: seq<Token>, d: seq<Token>)
    ensures a + (b + (c + d)) == a + b + c + d
  {
  }

  lemma FirstAndRest(ts: seq<Token>)
    requires ts != []
    ensures ts == [ts[0]] + ts[1..]
  {
  }

  lemma OneMoreKey(key: string, v: Value, rest: seq<KeyVal>)
    ensures TokensOfAll([KeyVal(key, v)] + rest) == [Word(key)] + TokensOf(v) + TokensOfAll(rest)
  {
    assert ([KeyVal(key, v)] + rest)[1..] == rest;
  }

  lemma {:induction false} ParseValueWas(ts: seq<Token>)
    requires ParseValue(ts).Some?
    ensures ts == TokensOf(ParseValue(ts).value.0) + ParseValue(ts).value.1
    decreases |ts|, 0
  {
    FirstAndRest(ts);
    if ts[0].Open? {
      ParseNodeWas(ts[1..]);
      var n := ParseNode(ts[1..]).value;
      FirstAndRest(n.1);
      Regrouped([Open], TokensOfAll(n.0), [Close], n.1[1..]);
    }
  }

  lemma {:induction false} ParseNodeWas(ts: seq<Token>)
    requires ParseNode(ts).Some?
    ensures ts == TokensOfAll(ParseNode(ts).value.0) + ParseNode(ts).value.1
    decreases |ts|, 1
  {
    if ts != [] && ts[0].Word? {
      var v := ParseValue(ts[1..]).value;
      ParseValueWas(ts[1..]);
      ParseNodeWas(v.1);
      var rest := ParseNode(v.1).value;
      FirstAndRest(ts);
      OneMoreKey(ts[0].s, v.0, rest.0);
      Regrouped([ts[0]], TokensOf(v.0), TokensOfAll(rest.0), rest.1);
    }
  }

  lemma {:induction false} NoBadTokens(v: Value)
    ensures Bad !in TokensOf(v)
    decreases v
  {
    if v.Node? {
      NoBadInList(v.kvs);
    }
  }

  lemma {:induction false} NoBadInList(kvs: seq<KeyVal>)
    ensures Bad !in TokensOfAll(kvs)
    decreases kvs
  {
    if kvs != [] {
      NoBadTokens(kvs[0].val);
      NoBadInList(kvs[1..]);
    }
  }

  /** A text is parsed to a tree exactly when it is one of the ways to write the tree down. */
  lemma ParsesIff(text: string, kvs: seq<KeyVal>)
    ensures Parse(text) == Some(kvs) <==> Writes(kvs, text)
  {
    if Writes(kvs, text) {
      RoundTrip(kvs, text);
    }
    if Parse(text) == Some(kvs) {
      ParseNodeWas(Tokens(text));
      assert TokensOfAll(kvs) + [] == TokensOfAll(kvs);
      NoBadInList(kvs);
      var parts, last := TokensWere(text);
    }
  }
}
