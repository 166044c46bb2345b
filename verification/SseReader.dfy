/** The JavaScript SDK's reader of server-sent events: one event per line, whatever the chunks. */
module SseReader {
  import opened Wrappers
  import opened Text

  /** What `String.prototype.trim` strips: unlike Rust it keeps U+0085 and strips U+FEFF. */
  predicate IsJsSpace(c: char) {
    (IsSpace(c) && c != '\U{0085}') || c == '\U{FEFF}'
  }

  /** White space and line terminators of ECMAScript, character by character. */
  lemma JsSpaceExactly(c: char)
    ensures IsJsSpace(c) <==>
            || c in ['\U{0009}', '\U{000A}', '\U{000B}', '\U{000C}', '\U{000D}', ' ', '\U{00A0}', '\U{1680}', '\U{2028}',
                     '\U{2029}', '\U{202F}', '\U{205F}', '\U{3000}', '\U{FEFF}']
            || '\U{2000}' <= c <= '\U{200A}'
  {
  }

  datatype Event<J> = Parsed(json: J) | Raw(data: string)

  datatype Line = Ignored | Stop | Data(data: string)

  function Read(line: string): Line {
    var l := TrimBy(line, IsJsSpace);
    if !("data: " <= l) then Ignored
    else if l[6..] == "[DONE]" then Stop
    else Data(l[6..])
  }

  /** With space around it or not, a line is an event iff it is `data: `, then something that is
      not `[DONE]` and does not end in space; with `[DONE]` it ends the stream; and any other
      line is passed over. */
  lemma ReadExactly(line: string, data: string)
    ensures Read(line) == Data(data) <==>
            && data != "" && !IsJsSpace(data[|data| - 1]) && data != "[DONE]"
            && exists before, after :: SolidBetween(line, before, "data: " + data, after, IsJsSpace)
    ensures Read(line) == Stop <==>
            exists before, after :: SolidBetween(line, before, "data: [DONE]", after, IsJsSpace)
  {
    hide TrimBy;
    var before, after := TrimIsExact(line, IsJsSpace);
    var l := TrimBy(line, IsJsSpace);
    if "data: " <= l {
      assert l == "data: " + l[6..];
      assert |l| > 6 by {
        assert l[5] == ' ';
      }
    }
    assert "data: " + "[DONE]" == "data: [DONE]";
    if x, y :| SolidBetween(line, x, "data: " + data, y, IsJsSpace) {
      TrimIsUnique(line, x, "data: " + data, y, IsJsSpace);
      assert l[6..] == data;
    }
    if x, y :| SolidBetween(line, x, "data: [DONE]", y, IsJsSpace) {
      TrimIsUnique(line, x, "data: [DONE]", y, IsJsSpace);
      assert l[6..] == "[DONE]";
    }
  }

  function Decode<J>(parse: string -> Option<J>, data: string): Event<J> {
    match parse(data)
    case Some(j) => Parsed(j)
    case None => Raw(data)
  }

  // ---- The reference: lines of the whole text ----

  /** `split("\n")`. */
  function Split(s: string): (r: seq<string>)
    ensures r != []
  {
    if s == "" then [""]
    else
      var rest := Split(s[1..]);
      if s[0] == '\n' then [""] + rest else Prepend(s[0], rest)
  }

  /** `c` in front of the first line. */
  function Prepend(c: char, lines: seq<string>): (r: seq<string>)
    requires lines != []
    ensures |r| == |lines|
  {
    [[c] + lines[0]] + lines[1..]
  }

  function Join(lines: seq<string>): string
    requires lines != []
  {
    if |lines| == 1 then lines[0] else lines[0] + "\n" + Join(lines[1..])
  }

  /** The lines that a newline ends. */
  function Terminated(s: string): seq<string> {
    var lines := Split(s);
    lines[..|lines| - 1]
  }

  function Unfinished(s: string): string {
    var lines := Split(s);
    lines[|lines| - 1]
  }

  /** The events of some lines up to the first `[DONE]`. */
  function Events<J>(parse: string -> Option<J>, lines: seq<string>): seq<Event<J>> {
    if lines == [] then []
    else match Read(lines[0])
      case Ignored => Events(parse, lines[1..])
      case Stop => []
      case Data(d) => [Decode(parse, d)] + Events(parse, lines[1..])
  }

  predicate Stops(lines: seq<string>) {
    exists i :: 0 <= i < |lines| && Read(lines[i]).Stop?
  }

  function Concat(chunks: seq<string>): string {
    if chunks == [] then "" else Concat(chunks[..|chunks| - 1]) + chunks[|chunks| - 1]
  }

  /** Splitting is the inverse of joining with newlines, and no line holds one. */
  lemma {:induction false} SplitIsExact(s: string)
    ensures Join(Split(s)) == s
    ensures forall i :: 0 <= i < |Split(s)| ==> '\n' !in Split(s)[i]
  {
    if s != "" {
      SplitIsExact(s[1..]);
      var rest := Split(s[1..]);
      assert s == [s[0]] + s[1..];
      if s[0] == '\n' {
        assert Split(s)[1..] == rest;
      } else {
        assert Split(s)[1..] == rest[1..];
      }
    }
  }

  lemma SplitOne(s: string)
    ensures Split(s) == Terminated(s) + [Unfinished(s)]
  {
    hide Split;
  }

  lemma PrependAppend(c: char, a: seq<string>, b: seq<string>)
    requires a != []
    ensures Prepend(c, a + b) == Prepend(c, a) + b
  {
  }

  lemma SplitPrepend(c: char, s: string)
    requires c != '\n'
    ensures Split([c] + s) == Prepend(c, Split(s))
  {
    assert ([c] + s)[1..] == s;
  }

  lemma SplitNewline(s: string)
    ensures Split("\n" + s) == [""] + Split(s)
  {
    assert ("\n" + s)[1..] == s;
  }

  lemma {:induction false} SplitLong(s: string, t: string)
    ensures Split(s + t) == Terminated(s) + Split(Unfinished(s) + t)
  {
    if s == "" {
      assert s + t == t && Unfinished(s) + t == t;
    } else {
      hide Split, Prepend;
      var c, rest := s[0], s[1..];
      assert s == [c] + rest && s + t == [c] + (rest + t);
      SplitLong(rest, t);
      SplitOne(rest);
      if c == '\n' {
        SplitNewline(rest);
        SplitNewline(rest + t);
      } else {
        SplitPrepend(c, rest);
        SplitPrepend(c, rest + t);
        if |Split(rest)| == 1 {
          Alone(c, rest);
          assert Unfinished(s) + t == [c] + (Unfinished(rest) + t);
          SplitPrepend(c, Unfinished(rest) + t);
        } else {
          PrependAppend(c, Terminated(rest), [Unfinished(rest)]);
          PrependAppend(c, Terminated(rest), Split(Unfinished(rest) + t));
        }
      }
    }
  }

  lemma Alone(c: char, s: string)
    requires c != '\n' && |Split(s)| == 1
    ensures Terminated(s) == [] && Terminated([c] + s) == [] && Unfinished([c] + s) == [c] + Unfinished(s)
  {
    SplitPrepend(c, s);
  }

  /** More text leaves the terminated lines alone and continues the unfinished one. */
  lemma SplitAppend(s: string, t: string)
    ensures Terminated(s + t) == Terminated(s) + Terminated(Unfinished(s) + t)
    ensures Unfinished(s + t) == Unfinished(Unfinished(s) + t)
  {
    hide Split;
    SplitLong(s, t);
  }

  lemma {:induction false} EventsAppend<J>(parse: string -> Option<J>, a: seq<string>, b: seq<string>)
    ensures Events(parse, a + b) == if Stops(a) then Events(parse, a) else Events(parse, a) + Events(parse, b)
    ensures Stops(a + b) <==> Stops(a) || Stops(b)
  {
    hide Read, Stops;
    StopsAppend(a, b);
    if a == [] {
      assert a + b == b;
      NoneStops();
    } else {
      assert (a + b)[1..] == a[1..] + b;
      EventsAppend(parse, a[1..], b);
      StopsCons(a);
    }
  }

  lemma NoneStops()
    ensures !Stops([])
  {
  }

  lemma StopsCons(a: seq<string>)
    requires a != []
    ensures Stops(a) <==> Read(a[0]).Stop? || Stops(a[1..])
  {
    hide Read;
    assert a == [a[0]] + a[1..];
    StopsAppend([a[0]], a[1..]);
    assert [a[0]][0] == a[0];
  }

  lemma StopsAppend(a: seq<string>, b: seq<string>)
    ensures Stops(a + b) <==> Stops(a) || Stops(b)
  {
    hide Read;
    if i :| 0 <= i < |a| && Read(a[i]).Stop? {
      assert (a + b)[i] == a[i];
    }
    if i :| 0 <= i < |b| && Read(b[i]).Stop? {
      assert (a + b)[|a| + i] == b[i];
    }
  }

  // ---- The reader ----

  /** One batch of complete lines. */
  method ReadLines<J>(parse: string -> Option<J>, lines: seq<string>) returns (out: seq<Event<J>>, stopped: bool)
    ensures out == Events(parse, lines) && stopped == Stops(lines)
  {
    hide Read;
    out, stopped := [], false;
    for i := 0 to |lines|
      invariant out == Events(parse, lines[..i]) && !Stops(lines[..i])
    {
      assert lines[..i + 1] == lines[..i] + [lines[i]];
      EventsAppend(parse, lines[..i], [lines[i]]);
      EventsOne(parse, lines[i]);
      match Read(lines[i]) {
        case Stop =>
          EventsAppend(parse, lines[..i + 1], lines[i + 1..]);
          assert lines == lines[..i + 1] + lines[i + 1..];
          return out, true;
        case Data(d) => out := out + [Decode(parse, d)];
        case Ignored =>
      }
    }
    assert lines[..|lines|] == lines;
  }

  /** What a line adds in front of the events of the lines behind it: nothing after `[DONE]`, its
      own data, parsed where it parses, or nothing. */
  lemma EventsExactly<J>(parse: string -> Option<J>, line: string, rest: seq<string>, before: string, after: string, data: string)
    requires SolidBetween(line, before, data, after, IsJsSpace)
    ensures Events(parse, [line] + rest) ==
            if data == "data: [DONE]" then []
            else if |data| > 6 && data[..6] == "data: "
            then [if parse(data[6..]).Some? then Parsed(parse(data[6..]).value) else Raw(data[6..])] + Events(parse, rest)
            else Events(parse, rest)
    ensures Events(parse, []) == []
  {
    hide TrimBy;
    var lines := [line] + rest;
    assert lines[0] == line && lines[1..] == rest;
    TrimIsUnique(line, before, data, after, IsJsSpace);
    assert "data: " <= data <==> |data| >= 6 && data[..6] == "data: ";
    assert "data: " <= data ==> data[5] == ' ';
    assert "data: [DONE]"[6..] == "[DONE]";
    assert "data: " <= data ==> data == "data: " + data[6..];
  }

  lemma EventsOne<J>(parse: string -> Option<J>, line: string)
    ensures Stops([line]) <==> Read(line).Stop?
    ensures Events(parse, [line]) == if Read(line).Data? then [Decode(parse, Read(line).data)] else []
  {
    hide Read;
    assert [line][0] == line && [line][1..] == [];
    assert Events(parse, []) == [];
  }

  /** The buffering loop: exactly the events of the newline-terminated lines of everything
      received, up to the first `[DONE]`, for every way of cutting the text into chunks. */
  method Stream<J>(parse: string -> Option<J>, chunks: seq<string>) returns (out: seq<Event<J>>)
    ensures out == Events(parse, Terminated(Concat(chunks)))
  {
    hide Events, Stops, Split, Terminated, Unfinished;
    out := [];
    var buffer := "";
    NothingRead(parse, chunks);
    for i := 0 to |chunks|
      invariant out == Events(parse, Terminated(Concat(chunks[..i]))) && !Stops(Terminated(Concat(chunks[..i])))
      invariant buffer == Unfinished(Concat(chunks[..i]))
    {
      var received := Concat(chunks[..i]);
      assert Concat(chunks[..i + 1]) == received + chunks[i] by {
        assert chunks[..i + 1][..i] == chunks[..i];
      }
      SplitAppend(received, chunks[i]);
      buffer := buffer + chunks[i];
      var lines := Terminated(buffer);
      EventsAppend(parse, Terminated(received), lines);
      buffer := Unfinished(buffer);
      var more, stopped := ReadLines(parse, lines);
      out := out + more;
      if stopped {
        RestIsIgnored(parse, chunks, i + 1);
        return;
      }
    }
    assert chunks[..|chunks|] == chunks;
  }

  lemma NothingRead<J>(parse: string -> Option<J>, chunks: seq<string>)
    ensures Terminated(Concat(chunks[..0])) == [] && Unfinished(Concat(chunks[..0])) == ""
    ensures Events(parse, []) == [] && !Stops([])
  {
  }

  lemma {:induction false} ConcatSplit(chunks: seq<string>, k: nat)
    requires k <= |chunks|
    ensures Concat(chunks) == Concat(chunks[..k]) + Concat(chunks[k..])
  {
    if k == |chunks| {
      assert chunks[..k] == chunks;
      assert chunks[k..] == [];
    } else {
      var front := chunks[..|chunks| - 1];
      ConcatSplit(front, k);
      assert front[..k] == chunks[..k];
      assert chunks[k..][..|chunks[k..]| - 1] == front[k..];
    }
  }

  /** What follows a `[DONE]` adds no event. */
  lemma RestIsIgnored<J>(parse: string -> Option<J>, chunks: seq<string>, k: nat)
    requires k <= |chunks| && Stops(Terminated(Concat(chunks[..k])))
    ensures Events(parse, Terminated(Concat(chunks))) == Events(parse, Terminated(Concat(chunks[..k])))
  {
    hide Events, Stops, Terminated, Unfinished, Concat;
    var head, tail := Concat(chunks[..k]), Concat(chunks[k..]);
    ConcatSplit(chunks, k);
    SplitAppend(head, tail);
    EventsAppend(parse, Terminated(head), Terminated(Unfinished(head) + tail));
  }
}
