/** The incremental parser of server-sent events (web/src/kb-stream.ts:14-84). It follows
    the event stream rules of the WHATWG HTML Standard, sections 9.2.5 and 9.2.6, for LF
    and CRLF line ends. */
module Sse {

  /** A dispatched event: its name and its data. */
  datatype Event = Event(event: string, data: string)

  /** What has been read of the current frame. */
  datatype Frame = Frame(event: string, dataLines: seq<string>)

  const EMPTY := Frame("", [])

  /** A frame, the text not yet ended by a line feed, and the events so far. */
  datatype Step = Step(frame: Frame, rest: string, out: seq<Event>)

  /** Emitted events in order. */
  function Then(a: seq<Event>, b: seq<Event>): seq<Event> {
    if a == [] then b else if b == [] then a else a + b
  }

  lemma {:induction false} ThenAssociative(a: seq<Event>, b: seq<Event>, c: seq<Event>)
    ensures Then(a, Then(b, c)) == Then(Then(a, b), c)
  {
    if a != [] && b != [] && c != [] {
      assert a + (b + c) == (a + b) + c;
    }
  }

  // ---------- lines ----------

  predicate Free(s: string, c: char) {
    forall k :: 0 <= k < |s| ==> s[k] != c
  }

  /** `indexOf`, with the length for "not found". */
  function IndexOf(s: string, c: char): (i: nat)
    ensures i <= |s|
    ensures i < |s| ==> s[i] == c
  {
    if s == "" || s[0] == c then 0 else 1 + IndexOf(s[1..], c)
  }

  /** `replace(/\r$/, '')`. */
  function StripCr(s: string): string {
    if s != "" && s[|s| - 1] == '\r' then s[..|s| - 1] else s
  }

  /** `join('\n')`. */
  function Join(lines: seq<string>): string {
    if lines == [] then "" else if |lines| == 1 then lines[0] else lines[0] + "\n" + Join(lines[1..])
  }

  // ---------- one line at a time ----------

  /** The value after the colon, without one leading space. */
  function Value(line: string): string {
    var colon := IndexOf(line, ':');
    var value := if colon < |line| then line[colon + 1..] else "";
    if value != "" && value[0] == ' ' then value[1..] else value
  }

  function Name(line: string): string {
    line[..IndexOf(line, ':')]
  }

  predicate Comment(line: string) {
    line != "" && line[0] == ':'
  }

  /** `field`: what a non-empty line does. */
  function Field(f: Frame, line: string): Frame {
    if Comment(line) then f
    else if Name(line) == "event" then f.(event := Value(line))
    else if Name(line) == "data" then f.(dataLines := f.dataLines + [Value(line)])
    else f
  }

  /** `dispatch`: none or one event; the frame starts again. */
  function Dispatched(f: Frame): seq<Event> {
    if f.dataLines == [] then []
    else [Event(if f.event == "" then "message" else f.event, Join(f.dataLines))]
  }

  /** What a complete line, its line feed gone, leaves of the frame, and what it emits. */
  function AfterLine(f: Frame, line: string): Frame {
    if StripCr(line) == "" then EMPTY else Field(f, StripCr(line))
  }

  function Emitted(f: Frame, line: string): seq<Event> {
    if StripCr(line) == "" then Dispatched(f) else []
  }

  /** All complete lines of `text`, in front of which the buffer was put. */
  function Scan(f: Frame, text: string): Step
    decreases |text|
  {
    var i := IndexOf(text, '\n');
    if i == |text| then Step(f, text, [])
    else
      var s := Scan(AfterLine(f, text[..i]), text[i + 1..]);
      Step(s.frame, s.rest, Then(Emitted(f, text[..i]), s.out))
  }

  /** `end()`: the pending half line counts as a line, then the frame is dispatched. */
  function Closing(f: Frame, rest: string): seq<Event> {
    if rest == "" then Dispatched(f)
    else Then(Emitted(f, rest), Dispatched(AfterLine(f, rest)))
  }

  // ---------- the class ----------

  class SseParser {
    var buf: string
    var event: string
    var dataLines: seq<string>

    function Current(): Frame
      reads this
    {
      Frame(event, dataLines)
    }

    constructor ()
      ensures buf == "" && Current() == EMPTY
    {
      buf, event, dataLines := "", "", [];
    }

    method Feed(chunk: string) returns (out: seq<Event>)
      modifies this
      ensures Step(Current(), buf, out) == Scan(old(Current()), old(buf) + chunk)
    {
      buf := buf + chunk;
      out := [];
      ghost var whole := Scan(Current(), buf);
      var idx := IndexOf(buf, '\n');
      while idx < |buf|
        invariant idx == IndexOf(buf, '\n')
        invariant whole.frame == Scan(Current(), buf).frame && whole.rest == Scan(Current(), buf).rest
        invariant whole.out == Then(out, Scan(Current(), buf).out)
        decreases |buf|
      {
        var line := StripCr(buf[..idx]);
        ghost var before, text := Current(), buf;
        buf := buf[idx + 1..];
        if line == "" {
          var ev := Dispatch();
          ThenAssociative(out, ev, Scan(Current(), buf).out);
          out := Then(out, ev);
        } else {
          FieldLine(line);
        }
        assert Current() == AfterLine(before, text[..idx]);
        idx := IndexOf(buf, '\n');
      }
    }

    method End() returns (out: seq<Event>)
      modifies this
      ensures out == Closing(old(Current()), old(buf))
      ensures buf == "" && Current() == EMPTY
    {
      out := [];
      if buf != "" {
        var line := StripCr(buf);
        buf := "";
        if line == "" {
          out := Dispatch();
        } else {
          FieldLine(line);
        }
      }
      var ev := Dispatch();
      out := Then(out, ev);
    }

    /** A line that is not empty: the frame, which described the lines since the last blank
        one, describes them and this line too; `raw` is the line as sent, CR included. */
    method FieldLine(line: string)
      modifies this
      ensures buf == old(buf) && Current() == Field(old(Current()), line)
      ensures forall block, raw ::
        Holds(old(Current()), block) && StripCr(raw) == line && line != "" ==> Holds(Current(), block + [raw])
    {
      FieldHolds(Current(), line);
      if line != "" && line[0] == ':' { return; }
      var colon := IndexOf(line, ':');
      var name := if colon == |line| then line else line[..colon];
      var value := if colon == |line| then "" else line[colon + 1..];
      if value != "" && value[0] == ' ' {
        value := value[1..];
      }
      if name == "event" {
        event := value;
      } else if name == "data" {
        dataLines := dataLines + [value];
      }
    }

    /** The event that the lines since the last blank one describe, if they do; the frame
        starts again with no line. */
    method Dispatch() returns (ev: seq<Event>)
      modifies this
      ensures buf == old(buf) && ev == Dispatched(old(Current())) && Current() == EMPTY
      ensures forall block :: Holds(old(Current()), block) ==> ev == EventOf(block)
      ensures Holds(Current(), [])
    {
      if dataLines == [] {
        event := "";
        return [];
      }
      ev := [Event(if event == "" then "message" else event, Join(dataLines))];
      event := "";
      dataLines := [];
    }
  }

  // ---------- cutting the stream anywhere ----------

  lemma {:induction false} IndexFirst(s: string, c: char)
    ensures Free(s[..IndexOf(s, c)], c)
  {
    if s != "" && s[0] != c {
      IndexFirst(s[1..], c);
      var i := IndexOf(s[1..], c);
      assert s[..i + 1] == [s[0]] + s[1..][..i];
    }
  }

  lemma {:induction false} IndexAppend(s: string, t: string, c: char)
    ensures IndexOf(s + t, c) == if IndexOf(s, c) < |s| then IndexOf(s, c) else |s| + IndexOf(t, c)
  {
    if s == "" {
      assert s + t == t;
    } else if s[0] != c {
      assert (s + t)[1..] == s[1..] + t;
      IndexAppend(s[1..], t, c);
    }
  }

  lemma {:induction false} FreeIndex(s: string, c: char)
    requires Free(s, c)
    ensures IndexOf(s, c) == |s|
  {
    if s != "" {
      FreeIndex(s[1..], c);
    }
  }

  /** One step after another. */
  function Both(s: Step, t: Step): Step {
    Step(t.frame, t.rest, Then(s.out, t.out))
  }

  lemma {:induction false} ScanLine(f: Frame, line: string, text: string)
    requires Free(line, '\n')
    ensures Scan(f, line + "\n" + text)
         == Both(Step(f, "", Emitted(f, line)), Scan(AfterLine(f, line), text))
  {
    var t := line + "\n" + text;
    FreeIndex(line, '\n');
    assert t == line + ("\n" + text);
    IndexAppend(line, "\n" + text, '\n');
    assert t[..|line|] == line && t[|line| + 1..] == text;
  }

  /** Scanning the whole is scanning a part, then the rest with what was left over. */
  lemma {:induction false} ScanSplit(f: Frame, a: string, b: string)
    ensures Scan(f, a + b) == Both(Scan(f, a), Scan(Scan(f, a).frame, Scan(f, a).rest + b))
    decreases |a|
  {
    var i := IndexOf(a, '\n');
    if i < |a| {
      IndexFirst(a, '\n');
      var line, more := a[..i], a[i + 1..];
      assert a == line + "\n" + more;
      assert a + b == line + "\n" + (more + b);
      ScanLine(f, line, more);
      ScanLine(f, line, more + b);
      var f' := AfterLine(f, line);
      ScanSplit(f', more, b);
      ThenAssociative(Emitted(f, line), Scan(f', more).out, Scan(Scan(f', more).frame, Scan(f', more).rest + b).out);
    }
  }

  /** What one `feed` after another does. */
  function FeedAll(f: Frame, buf: string, chunks: seq<string>): Step
    decreases |chunks|
  {
    if chunks == [] then Step(f, buf, [])
    else
      var s := Scan(f, buf + chunks[0]);
      Both(s, FeedAll(s.frame, s.rest, chunks[1..]))
  }

  function Concat(chunks: seq<string>): string {
    if chunks == [] then "" else chunks[0] + Concat(chunks[1..])
  }

  lemma {:induction false} RestUnfinished(f: Frame, text: string)
    ensures Free(Scan(f, text).rest, '\n')
    decreases |text|
  {
    var i := IndexOf(text, '\n');
    if i < |text| {
      RestUnfinished(AfterLine(f, text[..i]), text[i + 1..]);
    } else {
      IndexFirst(text, '\n');
      assert text[..i] == text;
    }
  }

  lemma {:induction false} Regroup(a: string, b: string, c: string)
    ensures a + (b + c) == a + b + c
  {
  }

  /** Split independence: feeding a stream in any pieces yields the events, the frame and
      the leftover of feeding it whole. */
  lemma {:induction false} FeedAnyCut(f: Frame, buf: string, chunks: seq<string>)
    requires Free(buf, '\n')
    ensures FeedAll(f, buf, chunks) == Scan(f, buf + Concat(chunks))
    decreases |chunks|
  {
    if chunks == [] {
      FreeIndex(buf, '\n');
      assert buf + Concat(chunks) == buf;
    } else {
      var s := Scan(f, buf + chunks[0]);
      RestUnfinished(f, buf + chunks[0]);
      FeedAnyCut(s.frame, s.rest, chunks[1..]);
      ScanSplit(f, buf + chunks[0], Concat(chunks[1..]));
      Regroup(buf, chunks[0], Concat(chunks[1..]));
    }
  }

  lemma {:induction false} BlankLine(f: Frame, text: string)
    ensures Scan(f, "\n" + text) == Both(Step(f, "", Dispatched(f)), Scan(EMPTY, text))
  {
    assert "" + "\n" + text == "\n" + text;
    ScanLine(f, "", text);
  }

  /** `end()` does what feeding two line feeds does. */
  lemma {:induction false} EndIsTwoLineFeeds(f: Frame, rest: string)
    requires Free(rest, '\n')
    ensures Scan(f, rest + "\n\n") == Step(EMPTY, "", Closing(f, rest))
  {
    assert rest + "\n\n" == rest + "\n" + "\n";
    ScanLine(f, rest, "\n");
    assert "\n" == "\n" + "";
    BlankLine(AfterLine(f, rest), "");
  }

  // ---------- the meaning of a whole stream ----------

  /** All events of a complete stream. */
  function Parse(text: string): seq<Event> {
    var s := Scan(EMPTY, text);
    Then(s.out, Closing(s.frame, s.rest))
  }

  /** The lines of a text, the unterminated last one included. */
  function Lines(text: string): (r: seq<string>)
    ensures r != []
    decreases |text|
  {
    var i := IndexOf(text, '\n');
    if i == |text| then [text] else [text[..i]] + Lines(text[i + 1..])
  }

  /** The values of the `data` lines of a block of lines. */
  function DataOf(block: seq<string>): seq<string> {
    if block == [] then []
    else if !Comment(StripCr(block[0])) && Name(StripCr(block[0])) == "data" then
      [Value(StripCr(block[0]))] + DataOf(block[1..])
    else DataOf(block[1..])
  }

  /** The value of the last `event` line of a block, or `name`. */
  function NameOf(block: seq<string>, name: string): string {
    if block == [] then name
    else if !Comment(StripCr(block[0])) && Name(StripCr(block[0])) == "event" then
      NameOf(block[1..], Value(StripCr(block[0])))
    else NameOf(block[1..], name)
  }

  /** The event a block of lines describes: none without data. */
  function EventOf(block: seq<string>): seq<Event> {
    if DataOf(block) == [] then []
    else [Event(if NameOf(block, "") == "" then "message" else NameOf(block, ""), Join(DataOf(block)))]
  }

  /** The blocks between blank lines, each with its event. */
  function Blocks(block: seq<string>, lines: seq<string>): seq<Event>
    decreases |lines|
  {
    if lines == [] then EventOf(block)
    else if StripCr(lines[0]) == "" then Then(EventOf(block), Blocks([], lines[1..]))
    else Blocks(block + [lines[0]], lines[1..])
  }

  /** The frame is what the lines of the block describe. */
  ghost predicate Holds(f: Frame, block: seq<string>) {
    f == Frame(NameOf(block, ""), DataOf(block))
  }

  lemma {:induction false} DataMore(block: seq<string>, line: string)
    ensures DataOf(block + [line]) ==
      if !Comment(StripCr(line)) && Name(StripCr(line)) == "data"
      then DataOf(block) + [Value(StripCr(line))] else DataOf(block)
  {
    if block == [] {
      assert ([] + [line])[1..] == [];
    } else {
      assert (block + [line])[1..] == block[1..] + [line];
      DataMore(block[1..], line);
    }
  }

  lemma {:induction false} NameMore(block: seq<string>, line: string, name: string)
    ensures NameOf(block + [line], name) ==
      if !Comment(StripCr(line)) && Name(StripCr(line)) == "event"
      then Value(StripCr(line)) else NameOf(block, name)
  {
    if block == [] {
      assert ([] + [line])[1..] == [];
    } else {
      assert (block + [line])[1..] == block[1..] + [line];
      if !Comment(StripCr(block[0])) && Name(StripCr(block[0])) == "event" {
        NameMore(block[1..], line, Value(StripCr(block[0])));
      } else {
        NameMore(block[1..], line, name);
      }
    }
  }

  lemma {:induction false} HoldsMore(f: Frame, block: seq<string>, line: string)
    requires Holds(f, block) && StripCr(line) != ""
    ensures Holds(AfterLine(f, line), block + [line])
  {
    DataMore(block, line);
    NameMore(block, line, "");
  }

  lemma {:induction false} FieldHolds(f: Frame, line: string)
    ensures forall block, raw ::
      Holds(f, block) && StripCr(raw) == line && line != "" ==> Holds(Field(f, line), block + [raw])
  {
    forall block, raw | Holds(f, block) && StripCr(raw) == line && line != ""
      ensures Holds(Field(f, line), block + [raw])
    {
      HoldsMore(f, block, raw);
    }
  }

  /** The incremental parser computes, block by block, what the lines describe. */
  lemma {:induction false} ScanBlocks(f: Frame, text: string, block: seq<string>)
    requires Holds(f, block)
    ensures var s := Scan(f, text);
      Then(s.out, Closing(s.frame, s.rest)) == Blocks(block, Lines(text))
    decreases |text|
  {
    var i := IndexOf(text, '\n');
    if i == |text| {
      LastBlock(f, text, block);
    } else {
      var line, more := text[..i], text[i + 1..];
      var lines := Lines(more);
      assert Lines(text)[1..] == lines;
      var s := Scan(AfterLine(f, line), more);
      ThenAssociative(Emitted(f, line), s.out, Closing(s.frame, s.rest));
      if StripCr(line) == "" {
        ScanBlocks(EMPTY, more, []);
      } else {
        HoldsMore(f, block, line);
        ScanBlocks(AfterLine(f, line), more, block + [line]);
      }
    }
  }

  lemma {:induction false} LastBlock(f: Frame, text: string, block: seq<string>)
    requires Holds(f, block)
    ensures Closing(f, text) == Blocks(block, [text])
  {
    assert [text][1..] == [];
    if StripCr(text) != "" {
      HoldsMore(f, block, text);
    }
  }

  /** The parser agrees with the line-and-block reading of the event stream rules. */
  lemma {:induction false} ParseMeaning(text: string)
    ensures Parse(text) == Blocks([], Lines(text))
  {
    ScanBlocks(EMPTY, text, []);
  }

  // ---------- printing and parsing back ----------

  /** `data.split('\n')`. */
  function Split(data: string): (r: seq<string>)
    ensures r != []
    decreases |data|
  {
    var i := IndexOf(data, '\n');
    if i == |data| then [data] else [data[..i]] + Split(data[i + 1..])
  }

  function DataLines(lines: seq<string>): string {
    if lines == [] then "" else "data: " + lines[0] + "\n" + DataLines(lines[1..])
  }

  /** The wire form of an event. */
  function Print(e: Event): string {
    "event: " + e.event + "\n" + DataLines(Split(e.data)) + "\n"
  }

  function PrintAll(events: seq<Event>): string {
    if events == [] then "" else Print(events[0]) + PrintAll(events[1..])
  }

  function StripAll(lines: seq<string>): seq<string> {
    if lines == [] then [] else [StripCr(lines[0])] + StripAll(lines[1..])
  }

  /** What an event comes back as: one trailing CR is lost per line, and no name means
      `message`. */
  function Received(e: Event): Event {
    var name := StripCr(e.event);
    Event(if name == "" then "message" else name, Join(StripAll(Split(e.data))))
  }

  function ReceivedAll(events: seq<Event>): seq<Event> {
    if events == [] then [] else [Received(events[0])] + ReceivedAll(events[1..])
  }

  predicate EndsInCr(s: string) {
    s != "" && s[|s| - 1] == '\r'
  }

  /** The events that survive the wire unchanged. */
  predicate Printable(e: Event) {
    && e.event != "" && Free(e.event, '\n') && !EndsInCr(e.event)
    && forall i :: 0 <= i < |Split(e.data)| ==> !EndsInCr(Split(e.data)[i])
  }

  lemma {:induction false} FieldRead(key: string, value: string)
    requires Free(key, ':') && key != "" && key[|key| - 1] != '\r'
    ensures var line := StripCr(key + ": " + value);
      line != "" && !Comment(line) && Name(line) == key && Value(line) == StripCr(value)
  {
    var stripped := StripCr(value);
    assert StripCr(key + ": " + value) == key + (": " + stripped);
    FieldSplit(key, stripped);
  }

  lemma {:induction false} FieldSplit(key: string, value: string)
    requires Free(key, ':') && key != ""
    ensures var line := key + (": " + value);
      !Comment(line) && Name(line) == key && Value(line) == value
  {
    var line := key + (": " + value);
    FreeIndex(key, ':');
    IndexAppend(key, ": " + value, ':');
    assert line[|key| + 1..] == " " + value;
    assert (" " + value)[1..] == value;
  }

  lemma {:induction false} EventLine(f: Frame, name: string, text: string)
    requires Free(name, '\n')
    ensures Scan(f, "event: " + name + "\n" + text) == Scan(f.(event := StripCr(name)), text)
  {
    FieldRead("event", name);
    assert "event" + ": " + name == "event: " + name;
    ScanLine(f, "event: " + name, text);
  }

  lemma {:induction false} DataLine(f: Frame, value: string, text: string)
    requires Free(value, '\n')
    ensures Scan(f, "data: " + value + "\n" + text)
         == Scan(f.(dataLines := f.dataLines + [StripCr(value)]), text)
  {
    FieldRead("data", value);
    assert "data" + ": " + value == "data: " + value;
    ScanLine(f, "data: " + value, text);
  }

  function Gather(f: Frame, lines: seq<string>): Frame
    decreases |lines|
  {
    if lines == [] then f
    else Gather(f.(dataLines := f.dataLines + [StripCr(lines[0])]), lines[1..])
  }

  lemma {:induction false} GatherAll(f: Frame, lines: seq<string>)
    ensures Gather(f, lines) == f.(dataLines := f.dataLines + StripAll(lines))
    decreases |lines|
  {
    if lines == [] {
      assert f.dataLines + [] == f.dataLines;
    } else {
      var f' := f.(dataLines := f.dataLines + [StripCr(lines[0])]);
      GatherAll(f', lines[1..]);
      assert f'.dataLines + StripAll(lines[1..]) == f.dataLines + StripAll(lines);
    }
  }

  lemma {:induction false} DataLinesText(lines: seq<string>, text: string)
    requires lines != []
    ensures DataLines(lines) + text == "data: " + lines[0] + "\n" + (DataLines(lines[1..]) + text)
  {
  }

  lemma {:induction false} DataLinesRead(f: Frame, lines: seq<string>, text: string)
    requires forall i :: 0 <= i < |lines| ==> Free(lines[i], '\n')
    ensures Scan(f, DataLines(lines) + text) == Scan(Gather(f, lines), text)
    decreases |lines|
  {
    if lines == [] {
      assert DataLines(lines) + text == text;
    } else {
      DataLinesText(lines, text);
      DataLine(f, lines[0], DataLines(lines[1..]) + text);
      DataLinesRead(f.(dataLines := f.dataLines + [StripCr(lines[0])]), lines[1..], text);
    }
  }

  lemma {:induction false} SplitFree(data: string)
    ensures forall i :: 0 <= i < |Split(data)| ==> Free(Split(data)[i], '\n')
    decreases |data|
  {
    var i := IndexOf(data, '\n');
    IndexFirst(data, '\n');
    if i < |data| {
      SplitFree(data[i + 1..]);
    } else {
      assert data[..i] == data;
    }
  }

  lemma {:induction false} PrintText(e: Event, text: string)
    ensures Print(e) + text == "event: " + e.event + "\n" + (DataLines(Split(e.data)) + ("\n" + text))
  {
  }

  lemma {:induction false} PrintRead(e: Event, text: string)
    requires Free(e.event, '\n')
    ensures Scan(EMPTY, Print(e) + text) == Both(Step(EMPTY, "", [Received(e)]), Scan(EMPTY, text))
  {
    var lines, f := Split(e.data), EMPTY.(event := StripCr(e.event));
    PrintText(e, text);
    EventLine(EMPTY, e.event, DataLines(lines) + ("\n" + text));
    SplitFree(e.data);
    DataLinesRead(f, lines, "\n" + text);
    GatherAll(f, lines);
    assert [] + StripAll(lines) == StripAll(lines);
    BlankLine(Gather(f, lines), text);
  }

  /** Printed events come back one for one, as `Received` says. */
  lemma {:induction false} PrintAllRead(events: seq<Event>)
    requires forall i :: 0 <= i < |events| ==> Free(events[i].event, '\n')
    ensures Scan(EMPTY, PrintAll(events)) == Step(EMPTY, "", ReceivedAll(events))
    decreases |events|
  {
    if events != [] {
      PrintAllRead(events[1..]);
      PrintRead(events[0], PrintAll(events[1..]));
    }
  }

  // ---------- names never hold a line feed ----------

  predicate NamesFree(out: seq<Event>) {
    forall i :: 0 <= i < |out| ==> Free(out[i].event, '\n')
  }

  lemma {:induction false} LineNamesFree(f: Frame, line: string)
    requires Free(f.event, '\n') && Free(line, '\n')
    ensures Free(AfterLine(f, line).event, '\n') && NamesFree(Emitted(f, line))
  {
    assert Free("message", '\n');
    FreePart(line, 0, |StripCr(line)|);
    ValueFree(StripCr(line));
    assert Free(EMPTY.event, '\n');
  }

  lemma {:induction false} FreePart(s: string, i: nat, j: nat)
    requires Free(s, '\n') && i <= j <= |s|
    ensures Free(s[i..j], '\n')
    ensures i == 0 ==> Free(s[..j], '\n')
    ensures j == |s| ==> Free(s[i..], '\n')
  {
  }

  lemma {:induction false} ValueFree(line: string)
    requires Free(line, '\n')
    ensures Free(Value(line), '\n')
  {
    var colon := IndexOf(line, ':');
    var value := if colon < |line| then line[colon + 1..] else "";
    if colon < |line| {
      FreePart(line, colon + 1, |line|);
    }
    if value != "" {
      FreePart(value, 1, |value|);
    }
  }

  lemma {:induction false} ScanNamesFree(f: Frame, text: string)
    requires Free(f.event, '\n')
    ensures Free(Scan(f, text).frame.event, '\n') && NamesFree(Scan(f, text).out)
    decreases |text|
  {
    var i := IndexOf(text, '\n');
    if i < |text| {
      IndexFirst(text, '\n');
      var line, rest := text[..i], text[i + 1..];
      LineNamesFree(f, line);
      ScanNamesFree(AfterLine(f, line), rest);
      ThenNamesFree(Emitted(f, line), Scan(AfterLine(f, line), rest).out);
    }
  }

  lemma {:induction false} ThenNamesFree(a: seq<Event>, b: seq<Event>)
    requires NamesFree(a) && NamesFree(b)
    ensures NamesFree(Then(a, b))
  {
  }

  lemma {:induction false} ParseNamesFree(text: string)
    ensures NamesFree(Parse(text))
  {
    ScanNamesFree(EMPTY, text);
    RestUnfinished(EMPTY, text);
    var s := Scan(EMPTY, text);
    LineNamesFree(s.frame, s.rest);
    LineNamesFree(AfterLine(s.frame, s.rest), "");
    LineNamesFree(s.frame, "");
  }

  // ---------- exactly the printable events survive ----------

  lemma {:induction false} JoinCons(line: string, lines: seq<string>)
    requires lines != []
    ensures Join([line] + lines) == line + "\n" + Join(lines)
  {
    assert ([line] + lines)[1..] == lines;
  }

  lemma {:induction false} JoinSplit(data: string)
    ensures Join(Split(data)) == data
    decreases |data|
  {
    var i := IndexOf(data, '\n');
    if i < |data| {
      JoinSplit(data[i + 1..]);
      JoinCons(data[..i], Split(data[i + 1..]));
    }
  }

  lemma {:induction false} StripAllLength(lines: seq<string>)
    ensures |StripAll(lines)| == |lines|
    ensures |Join(StripAll(lines))| <= |Join(lines)|
    ensures |Join(StripAll(lines))| == |Join(lines)| ==> NoCrs(lines)
    ensures NoCrs(lines) ==> StripAll(lines) == lines
    decreases |lines|
  {
    if lines != [] {
      StripAllLength(lines[1..]);
      StripAllCons(lines[0], lines[1..]);
      assert lines == [lines[0]] + lines[1..];
    }
  }

  predicate NoCrs(lines: seq<string>) {
    lines == [] || (!EndsInCr(lines[0]) && NoCrs(lines[1..]))
  }

  lemma {:induction false} NoCrsMeans(lines: seq<string>)
    ensures NoCrs(lines) <==> forall i :: 0 <= i < |lines| ==> !EndsInCr(lines[i])
  {
    if lines != [] {
      NoCrsMeans(lines[1..]);
      assert forall i :: 0 < i < |lines| ==> lines[i] == lines[1..][i - 1];
    }
  }

  lemma {:induction false} StripAllCons(line: string, rest: seq<string>)
    requires |StripAll(rest)| == |rest|
    ensures StripAll([line] + rest) == [StripCr(line)] + StripAll(rest)
    ensures |Join([line] + rest)| == |line| + (if rest == [] then 0 else 1 + |Join(rest)|)
    ensures |Join([StripCr(line)] + StripAll(rest))| == |StripCr(line)| + (if rest == [] then 0 else 1 + |Join(StripAll(rest))|)
    ensures |StripCr(line)| == |line| - (if EndsInCr(line) then 1 else 0)
    ensures !EndsInCr(line) ==> StripCr(line) == line
  {
    assert ([line] + rest)[1..] == rest;
    assert ([StripCr(line)] + StripAll(rest))[1..] == StripAll(rest);
  }

  lemma {:induction false} ReceivedSame(e: Event)
    requires Free(e.event, '\n')
    ensures Received(e) == e <==> Printable(e)
  {
    JoinSplit(e.data);
    StripAllLength(Split(e.data));
    NoCrsMeans(Split(e.data));
  }

  lemma {:induction false} ConsSame(a: Event, s: seq<Event>, b: Event, t: seq<Event>)
    ensures [a] + s == [b] + t <==> a == b && s == t
  {
    assert ([a] + s)[0] == a && ([b] + t)[0] == b;
    assert ([a] + s)[1..] == s && ([b] + t)[1..] == t;
  }

  lemma {:induction false} ReceivedAllSame(events: seq<Event>)
    requires forall i :: 0 <= i < |events| ==> Free(events[i].event, '\n')
    ensures ReceivedAll(events) == events <==> forall i :: 0 <= i < |events| ==> Printable(events[i])
    decreases |events|
  {
    if events != [] {
      var first, rest := events[0], events[1..];
      ReceivedSame(first);
      ReceivedAllSame(rest);
      assert events == [first] + rest;
      ConsSame(Received(first), ReceivedAll(rest), first, rest);
      assert forall i :: 1 <= i < |events| ==> events[i] == rest[i - 1];
    }
  }

  /** Round trip: a list of events printed on the wire parses back to itself, under every
      cut, exactly if each of them is printable. */
  lemma {:induction false} RoundTrip(events: seq<Event>)
    ensures Parse(PrintAll(events)) == events <==> forall i :: 0 <= i < |events| ==> Printable(events[i])
  {
    if NamesFree(events) {
      PrintAllRead(events);
      ReceivedAllSame(events);
    } else {
      ParseNamesFree(PrintAll(events));
    }
  }

  /** A parser fed the chunks one by one, then ended. */
  function ParseChunks(chunks: seq<string>): seq<Event> {
    var s := FeedAll(EMPTY, "", chunks);
    Then(s.out, Closing(s.frame, s.rest))
  }

  lemma {:induction false} ChunksDoNotMatter(chunks: seq<string>)
    ensures ParseChunks(chunks) == Parse(Concat(chunks))
  {
    FeedAnyCut(EMPTY, "", chunks);
    assert "" + Concat(chunks) == Concat(chunks);
  }

  /** The round trip holds however the network cuts the printed stream. */
  lemma {:induction false} RoundTripAnyCut(events: seq<Event>, chunks: seq<string>)
    requires Concat(chunks) == PrintAll(events)
    ensures ParseChunks(chunks) == events <==> forall i :: 0 <= i < |events| ==> Printable(events[i])
  {
    ChunksDoNotMatter(chunks);
    RoundTrip(events);
  }
}
