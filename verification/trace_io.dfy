/** The trace sink as it is written to (hydra/src/trace.c), and the reader's loop (dis86/src/trace.rs). */
module TraceIo {
  import opened Wrappers
  import opened TraceText
  import opened TraceFormat

  class TraceSink {
    var buf: string
    var haveCodeLoad: bool
    var lastCodeLoad: u16
    ghost var sink: Sink

    ghost predicate Valid()
      reads this
    {
      buf == Text(sink.lines) && sink.last == if haveCodeLoad then Some(lastCodeLoad) else None
    }

    constructor Open()
      ensures Valid() && sink == Opened()
    {
      buf, haveCodeLoad, lastCodeLoad, sink := HEADER + "\n", false, 0, Opened();
      new;
      assert [HEADER][1..] == [] && HEADER + "\n" + "" == HEADER + "\n";
    }

    method WriteLine(line: string)
      requires Valid()
      modifies this`buf, this`sink
      ensures Valid() && sink == old(sink).(lines := old(sink).lines + [line])
    {
      TextConcat(sink.lines, [line]);
      assert [line][1..] == [] && line + "\n" + "" == line + "\n";
      buf := buf + line + "\n";
      sink := sink.(lines := sink.lines + [line]);
    }

    /** The load segment is written when it is configured and differs from the last one written. */
    method EmitCodeLoad(load: u16)
      requires Valid()
      modifies this
      ensures Valid()
      ensures sink == if load == 0xffff || old(sink).last == Some(load) then old(sink)
                      else Sink(old(sink).lines + [LoadLine(load)], Some(load))
    {
      if load == 0xffff { return; }
      if haveCodeLoad && lastCodeLoad == load { return; }
      WriteLine("# code_load=" + Hex4(load));
      lastCodeLoad, haveCodeLoad := load, true;
      sink := sink.(last := Some(load));
    }

    /** Write the event's line if it fits its buffer. */
    method Record(e: Event, load: u16)
      requires Valid()
      modifies this
      ensures Valid() && sink == Emit(old(sink), e, load)
    {
      var line := BuildLine(e);
      if |line| + 1 < Size(e) {
        EmitCodeLoad(load);
        WriteLine(line);
        TwoLines(old(sink).lines, LoadLine(load), line);
      }
    }
  }

  lemma TwoLines(a: seq<string>, b: string, c: string)
    ensures a + [b] + [c] == a + [b, c]
  {
  }

  lemma FieldWordsConcat(a: seq<(string, string)>, b: seq<(string, string)>)
    ensures FieldWords(a + b) == FieldWords(a) + FieldWords(b)
  {
  }

  lemma NameWord(name: string)
    ensures FieldWords([("name", name)]) == ["name=" + name]
  {
    assert "name" + "=" + name == "name=" + name;
  }

  lemma WordsAssoc(a: seq<string>, b: seq<string>, c: seq<string>, d: seq<string>)
    ensures a + b + c + d == a + (b + c + d)
  {
  }

  /** Put the line together, leaving out a name that does not fit its buffer. */
  method BuildLine(e: Event) returns (line: string)
    ensures line == LineOf(e)
  {
    var words := Heads(e) + FieldWords(Firsts(e));
    var name := NameOf(e);
    var mid: seq<string> := [];
    if name.Some? && NameIsToken(name.value) && |Line(words)| + |name.value| + 7 <= Size(e) {
      mid := ["name=" + name.value];
    }
    ghost var named := if KeepsName(e) then [("name", NameOf(e).value)] else [];
    assert FieldWords(named) == mid by {
      if KeepsName(e) { NameWord(name.value); }
    }
    FieldWordsConcat(Firsts(e), named);
    FieldWordsConcat(Firsts(e) + named, Lasts(e));
    WordsAssoc(Heads(e), FieldWords(Firsts(e)), mid, FieldWords(Lasts(e)));
    line := Line(words + mid + FieldWords(Lasts(e)));
  }

  /** Line by line; the first error ends it. */
  method Parse(text: string) returns (r: Option<seq<TraceEvent>>)
    ensures r == ParseTrace(text)
  {
    var lines := Lines(text, "");
    var reader := Reader([], None, false);
    assert lines[0..] == lines;
    for n := 0 to |lines|
      invariant ReadLines(Reader([], None, false), lines, 1) == ReadLines(reader, lines[n..], n + 1)
    {
      assert lines[n..][1..] == lines[n + 1..] && lines[n..][0] == lines[n];
      var next := ReadLine(reader, lines[n], n + 1);
      if next.None? { return None; }
      reader := next.value;
    }
    r := if reader.seen then Some(reader.events) else None;
  }
}
