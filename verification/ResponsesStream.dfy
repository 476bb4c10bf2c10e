/** Converting a Responses answer to the chat completions form: in one go, and as
    a stream that is cut into chunks anywhere. JSON parsing is a parameter. */
module ResponsesStream {
  import opened Basics

  // ----- what the server sends

  /** A function call; an absent call_id or id is the empty string. */
  datatype Call = Call(callId: string, id: string, name: string, arguments: string)
  datatype Part = OutputText(text: string) | OtherPart
  datatype Item = MessageItem(content: Option<seq<Part>>) | CallItem(call: Call) | OtherItem
  datatype Usage = Usage(input: int, output: int, total: int)

  /** Faulty stands for JSON, such as null, whose inspection throws before
      anything is emitted. */
  datatype Event =
    | TextDelta(delta: string)
    | ItemAdded(item: Item)
    | ArgumentsDelta(delta: string)
    | ItemDone(item: Item)
    | Completed(output: seq<Item>, usage: Option<Usage>)
    | OtherEvent
    | Faulty

  datatype Parsed = NotJson | Json(event: Event)

  // ----- what the client gets

  datatype Finish = ToolCalls | StopReason
  datatype ToolDelta = NewCall(index: nat, id: string, name: string) | MoreArguments(index: nat, arguments: string)
  datatype Frame =
    | Chunk(role: bool, content: Option<string>, tool: Option<ToolDelta>, finish: Option<Finish>)
    | UsageFrame(usage: Usage)
    | Done

  datatype ToolCall = ToolCall(id: string, name: string, arguments: string)
  datatype Completion = Completion(content: Option<string>, toolCalls: seq<ToolCall>, finish: Finish, usage: Option<Usage>)

  function CallIdentity(call: Call): string {
    if call.callId != "" then call.callId else call.id
  }

  // ----- the synchronous converter

  function PartsText(parts: seq<Part>): string {
    if parts == [] then ""
    else PartsText(parts[..|parts| - 1]) + match parts[|parts| - 1] case OutputText(t) => t case OtherPart => ""
  }

  function ItemText(item: Item): string {
    match item
    case MessageItem(Some(parts)) => PartsText(parts)
    case _ => ""
  }

  function ItemCalls(item: Item): seq<ToolCall> {
    match item
    case CallItem(call) => [ToolCall(CallIdentity(call), call.name, call.arguments)]
    case _ => []
  }

  function OutputTextOf(items: seq<Item>): string {
    if items == [] then "" else OutputTextOf(items[..|items| - 1]) + ItemText(items[|items| - 1])
  }

  function OutputCallsOf(items: seq<Item>): seq<ToolCall> {
    if items == [] then [] else OutputCallsOf(items[..|items| - 1]) + ItemCalls(items[|items| - 1])
  }

  predicate HasCall(items: seq<Item>) {
    exists i :: 0 <= i < |items| && items[i].CallItem?
  }

  lemma Assoc<T>(a: seq<T>, b: seq<T>, c: seq<T>)
    ensures (a + b) + c == a + (b + c)
  {
  }

  lemma Init<T>(a: seq<T>, b: seq<T>)
    requires b != []
    ensures (a + b)[..|a + b| - 1] == a + b[..|b| - 1] && (a + b)[|a + b| - 1] == b[|b| - 1]
  {
  }

  lemma {:induction false} PartsTextConcat(a: seq<Part>, b: seq<Part>)
    ensures PartsText(a + b) == PartsText(a) + PartsText(b)
    decreases |b|
  {
    if b == [] {
      assert a + b == a && PartsText(a) + "" == PartsText(a);
    } else {
      PartsTextConcat(a, b[..|b| - 1]);
      Init(a, b);
      Assoc(PartsText(a), PartsText(b[..|b| - 1]), match b[|b| - 1] case OutputText(t) => t case OtherPart => "");
    }
  }

  /** The text is the output_text parts in order, and nothing else. */
  lemma PartsTextLaw(a: seq<Part>, b: seq<Part>, t: string)
    ensures PartsText(a + b) == PartsText(a) + PartsText(b)
    ensures PartsText([]) == "" && PartsText([OutputText(t)]) == t && PartsText([OtherPart]) == ""
  {
    PartsTextConcat(a, b);
    assert [OutputText(t)][..0] == [] && [OtherPart][..0] == [];
  }

  lemma {:induction false} OutputTextConcat(a: seq<Item>, b: seq<Item>)
    ensures OutputTextOf(a + b) == OutputTextOf(a) + OutputTextOf(b)
    decreases |b|
  {
    if b == [] {
      assert a + b == a && OutputTextOf(a) + "" == OutputTextOf(a);
    } else {
      OutputTextConcat(a, b[..|b| - 1]);
      Init(a, b);
      Assoc(OutputTextOf(a), OutputTextOf(b[..|b| - 1]), ItemText(b[|b| - 1]));
    }
  }

  /** The text of an answer is that of the parts of its messages, in order. */
  lemma OutputTextLaw(a: seq<Item>, b: seq<Item>, parts: seq<Part>, item: Item)
    ensures OutputTextOf(a + b) == OutputTextOf(a) + OutputTextOf(b)
    ensures OutputTextOf([]) == "" && OutputTextOf([MessageItem(Some(parts))]) == PartsText(parts)
    ensures !item.MessageItem? || item.content == None ==> OutputTextOf([item]) == ""
  {
    OutputTextConcat(a, b);
    assert [MessageItem(Some(parts))][..0] == [] && [item][..0] == [];
    assert "" + PartsText(parts) == PartsText(parts);
  }

  lemma {:induction false} OutputCallsConcat(a: seq<Item>, b: seq<Item>)
    ensures OutputCallsOf(a + b) == OutputCallsOf(a) + OutputCallsOf(b)
    decreases |b|
  {
    if b == [] {
      assert a + b == a && OutputCallsOf(a) + [] == OutputCallsOf(a);
    } else {
      OutputCallsConcat(a, b[..|b| - 1]);
      Init(a, b);
      Assoc(OutputCallsOf(a), OutputCallsOf(b[..|b| - 1]), ItemCalls(b[|b| - 1]));
    }
  }

  /** The tool calls of an answer are its function calls in order, each under its
      call_id or, without one, its id. */
  lemma OutputCallsLaw(a: seq<Item>, b: seq<Item>, call: Call, item: Item)
    ensures OutputCallsOf(a + b) == OutputCallsOf(a) + OutputCallsOf(b)
    ensures OutputCallsOf([]) == []
    ensures call.callId != "" ==> OutputCallsOf([CallItem(call)]) == [ToolCall(call.callId, call.name, call.arguments)]
    ensures call.callId == "" ==> OutputCallsOf([CallItem(call)]) == [ToolCall(call.id, call.name, call.arguments)]
    ensures !item.CallItem? ==> OutputCallsOf([item]) == []
  {
    OutputCallsConcat(a, b);
    assert [CallItem(call)][..0] == [] && [item][..0] == [];
  }

  method JoinParts(parts: seq<Part>) returns (text: string)
    ensures text == PartsText(parts)
  {
    text := "";
    for k := 0 to |parts|
      invariant text == PartsText(parts[..k])
    {
      assert parts[..k + 1][..k] == parts[..k];
      if parts[k].OutputText? {
        text := text + parts[k].text;
      }
    }
    assert parts[..|parts|] == parts;
  }

  lemma {:induction false} CallsIffHasCall(items: seq<Item>)
    ensures OutputCallsOf(items) != [] <==> HasCall(items)
  {
    if items != [] {
      var before := items[..|items| - 1];
      CallsIffHasCall(before);
      assert HasCall(before) ==> HasCall(items);
    }
  }

  method ConvertSync(items: seq<Item>, usage: Option<Usage>) returns (c: Completion)
    ensures c.content == if OutputTextOf(items) == "" then None else Some(OutputTextOf(items))
    ensures c.toolCalls == OutputCallsOf(items)
    ensures c.finish == if HasCall(items) then ToolCalls else StopReason
    ensures c.usage == usage
  {
    var text := "";
    var calls: seq<ToolCall> := [];
    for i := 0 to |items|
      invariant text == OutputTextOf(items[..i])
      invariant calls == OutputCallsOf(items[..i])
    {
      var item := items[i];
      assert items[..i + 1][..i] == items[..i];
      if item.MessageItem? && item.content.Some? {
        var more := JoinParts(item.content.value);
        text := text + more;
      }
      if item.CallItem? {
        calls := calls + [ToolCall(CallIdentity(item.call), item.call.name, item.call.arguments)];
      }
    }
    assert items[..|items|] == items;
    CallsIffHasCall(items);
    c := Completion(if text == "" then None else Some(text), calls, if |calls| > 0 then ToolCalls else StopReason, usage);
  }

  // ----- one event of the stream

  datatype Conv = Conv(toolCallIndex: nat, sentRole: bool, chunkCount: nat)

  const FRESH := Conv(0, false, 0)

  function Emit(c: Conv, e: Event): (Conv, seq<Frame>) {
    match e
    case TextDelta(delta) =>
      (c.(sentRole := true, chunkCount := c.chunkCount + 1), [Chunk(!c.sentRole, Some(delta), None, None)])
    case ItemAdded(CallItem(call)) =>
      (Conv(c.toolCallIndex + 1, true, c.chunkCount + 1),
       [Chunk(!c.sentRole, None, Some(NewCall(c.toolCallIndex, CallIdentity(call), call.name)), None)])
    case ArgumentsDelta(delta) =>
      if c.toolCallIndex < 1 then (c, [])
      else (c.(chunkCount := c.chunkCount + 1), [Chunk(false, None, Some(MoreArguments(c.toolCallIndex - 1, delta)), None)])
    case Completed(output, usage) =>
      (c.(chunkCount := c.chunkCount + 1),
       [Chunk(false, None, None, Some(if HasCall(output) then ToolCalls else StopReason))]
       + if usage.Some? then [UsageFrame(usage.value)] else [])
    case _ => (c, [])
  }

  datatype Progress = Progress(conv: Conv, frames: seq<Frame>, threw: bool)

  const START := Progress(FRESH, [], false)

  /** The events in order, up to one that throws. */
  function Continue(p: Progress, events: seq<Event>): Progress
    decreases |events|
  {
    if events == [] || p.threw then p
    else if events[0].Faulty? then p.(threw := true)
    else
      var (conv, frames) := Emit(p.conv, events[0]);
      Continue(Progress(conv, p.frames + frames, false), events[1..])
  }

  lemma {:induction false} ContinueConcat(p: Progress, a: seq<Event>, b: seq<Event>)
    ensures Continue(p, a + b) == Continue(Continue(p, a), b)
    decreases |a|
  {
    if a == [] {
      assert a + b == b;
    } else if !p.threw && !a[0].Faulty? {
      assert (a + b)[1..] == a[1..] + b;
      var (conv, frames) := Emit(p.conv, a[0]);
      ContinueConcat(Progress(conv, p.frames + frames, false), a[1..], b);
    }
  }

  // ----- lines

  predicate IsSpace(c: char) {
    || '\t' <= c <= '\r' || c == ' ' || c == '\U{00A0}' || c == '\U{1680}' || '\U{2000}' <= c <= '\U{200A}'
    || c == '\U{2028}' || c == '\U{2029}' || c == '\U{202F}' || c == '\U{205F}' || c == '\U{3000}' || c == '\U{FEFF}'
  }

  function TrimStart(s: string): string {
    if s != "" && IsSpace(s[0]) then TrimStart(s[1..]) else s
  }

  function Trim(s: string): string {
    var t := TrimStart(s);
    TrimEnd(t)
  }

  function TrimEnd(s: string): string {
    if s != "" && IsSpace(s[|s| - 1]) then TrimEnd(s[..|s| - 1]) else s
  }

  /** The event of a line, if it has one. */
  function LineEvent(line: string, parse: string -> Parsed): seq<Event> {
    if !("data: " <= line) then []
    else
      var json := Trim(line[6..]);
      if json == "" || json == "[DONE]" then []
      else match parse(json)
        case NotJson => []
        case Json(event) => [event]
  }

  function LineEvents(lines: seq<string>, parse: string -> Parsed): seq<Event> {
    if lines == [] then [] else LineEvent(lines[0], parse) + LineEvents(lines[1..], parse)
  }

  function ContinueLines(p: Progress, lines: seq<string>, parse: string -> Parsed): Progress {
    Continue(p, LineEvents(lines, parse))
  }

  lemma {:induction false} ContinueLinesConcat(p: Progress, a: seq<string>, b: seq<string>, parse: string -> Parsed)
    ensures ContinueLines(p, a + b, parse) == ContinueLines(ContinueLines(p, a, parse), b, parse)
    decreases |a|
  {
    if a == [] {
      assert a + b == b;
    } else {
      assert (a + b)[1..] == a[1..] + b;
      var first := LineEvent(a[0], parse);
      ContinueConcat(p, first, LineEvents(a[1..] + b, parse));
      ContinueConcat(p, first, LineEvents(a[1..], parse));
      ContinueLinesConcat(Continue(p, first), a[1..], b, parse);
    }
  }

  function AllButLast<T>(s: seq<T>): seq<T>
    requires s != []
  {
    s[..|s| - 1]
  }

  function Last<T>(s: seq<T>): T
    requires s != []
  {
    s[|s| - 1]
  }

  /** Lines with one more character: a newline starts a line, any other one
      continues the last. */
  function AddChar(lines: seq<string>, c: char): (r: seq<string>)
    requires lines != []
    ensures r != []
  {
    if c == '\n' then lines + [""] else AllButLast(lines) + [Last(lines) + [c]]
  }

  /** The lines of the first n characters. */
  function SplitFirst(s: string, n: nat): (lines: seq<string>)
    requires n <= |s|
    ensures lines != []
  {
    if n == 0 then [""] else AddChar(SplitFirst(s, n - 1), s[n - 1])
  }

  /** Splitting at newlines: never empty, and only separators are lost. */
  function Split(s: string): (lines: seq<string>)
    ensures lines != []
  {
    SplitFirst(s, |s|)
  }

  function Join(lines: seq<string>): string
    requires lines != []
    decreases |lines|
  {
    if |lines| == 1 then lines[0] else Join(AllButLast(lines)) + "\n" + Last(lines)
  }

  lemma JoinAddChar(lines: seq<string>, c: char)
    requires lines != []
    ensures Join(AddChar(lines, c)) == Join(lines) + [c]
  {
    if c == '\n' {
      assert AllButLast(lines + [""]) == lines;
    } else {
      assert AllButLast(AllButLast(lines) + [Last(lines) + [c]]) == AllButLast(lines);
    }
  }

  lemma JoinNext(s: string, n: nat)
    requires n < |s| && Join(SplitFirst(s, n)) == s[..n]
    ensures Join(SplitFirst(s, n + 1)) == s[..n + 1]
  {
    JoinAddChar(SplitFirst(s, n), s[n]);
    assert s[..n + 1] == s[..n] + [s[n]];
  }

  lemma {:induction false} JoinFirst(s: string, n: nat)
    requires n <= |s|
    ensures Join(SplitFirst(s, n)) == s[..n]
  {
    if n > 0 {
      JoinFirst(s, n - 1);
      JoinNext(s, n - 1);
    }
  }

  predicate OneLine(s: string) {
    '\n' !in s
  }

  lemma {:induction false} LinesAreLines(s: string, n: nat)
    requires n <= |s|
    ensures forall i :: 0 <= i < |SplitFirst(s, n)| ==> OneLine(SplitFirst(s, n)[i])
  {
    if n > 0 {
      LinesAreLines(s, n - 1);
      var before := SplitFirst(s, n - 1);
      assert s[n - 1] != '\n' ==> OneLine(Last(before) + [s[n - 1]]);
    }
  }

  /** Joining the lines gives the text back, and no line contains a newline. */
  lemma SplitIsInverseOfJoin(s: string)
    ensures Join(Split(s)) == s
    ensures forall i :: 0 <= i < |Split(s)| ==> OneLine(Split(s)[i])
  {
    LinesAreLines(s, |s|);
    JoinFirst(s, |s|);
    assert s[..|s|] == s;
  }

  lemma {:induction false} SplitPrefix(a: string, b: string, n: nat)
    requires n <= |a|
    ensures SplitFirst(a + b, n) == SplitFirst(a, n)
  {
    if n > 0 {
      SplitPrefix(a, b, n - 1);
    }
  }

  lemma {:induction false} SplitOneLine(s: string, n: nat)
    requires n <= |s| && OneLine(s)
    ensures SplitFirst(s, n) == [s[..n]]
  {
    if n > 0 {
      SplitOneLine(s, n - 1);
      assert s[n - 1] in s;
      assert s[..n] == s[..n - 1] + [s[n - 1]];
      assert AddChar([s[..n - 1]], s[n - 1]) == [s[..n]];
    }
  }

  lemma SplitAtEnd(a: string, b: string)
    ensures var last := Last(Split(a));
            SplitFirst(a + b, |a|) == AllButLast(Split(a)) + SplitFirst(last + b, |last|)
  {
    var last := Last(Split(a));
    SplitPrefix(a, b, |a|);
    SplitPrefix(last, b, |last|);
    SplitIsInverseOfJoin(a);
    SplitOneLine(last, |last|);
    assert last[..|last|] == last;
  }

  lemma {:induction false} SplitBeyond(a: string, b: string, n: nat)
    requires n <= |b|
    ensures var last := Last(Split(a));
            SplitFirst(a + b, |a| + n) == AllButLast(Split(a)) + SplitFirst(last + b, |last| + n)
  {
    var last := Last(Split(a));
    if n == 0 {
      SplitAtEnd(a, b);
    } else {
      SplitBeyond(a, b, n - 1);
      assert (a + b)[|a| + n - 1] == b[n - 1] && (last + b)[|last| + n - 1] == b[n - 1];
      AddCharBehind(AllButLast(Split(a)), SplitFirst(last + b, |last| + n - 1), b[n - 1]);
    }
  }

  lemma AddCharBehind(x: seq<string>, y: seq<string>, c: char)
    requires y != []
    ensures AddChar(x + y, c) == x + AddChar(y, c)
  {
    assert c != '\n' ==> AllButLast(x + y) == x + AllButLast(y);
  }

  /** Splitting more text only continues the last line. */
  lemma SplitConcat(a: string, b: string)
    ensures Split(a + b) == AllButLast(Split(a)) + Split(Last(Split(a)) + b)
  {
    SplitBeyond(a, b, |b|);
  }

  lemma {:induction false} TrimBlank(s: string)
    ensures TrimStart(s) == "" ==> forall i :: 0 <= i < |s| ==> IsSpace(s[i])
    ensures TrimStart(s) != "" ==> !IsSpace(TrimStart(s)[0])
  {
    if s != "" && IsSpace(s[0]) {
      TrimBlank(s[1..]);
    }
  }

  lemma {:induction false} TrimEndBlank(s: string)
    ensures TrimEnd(s) == "" ==> forall i :: 0 <= i < |s| ==> IsSpace(s[i])
  {
    if s != "" && IsSpace(s[|s| - 1]) {
      TrimEndBlank(s[..|s| - 1]);
    }
  }

  /** Blank text has no events, so skipping it at the end loses nothing. */
  lemma BlankHasNoEvents(s: string, parse: string -> Parsed)
    requires Trim(s) == ""
    ensures LineEvents(Split(s), parse) == []
  {
    TrimBlank(s);
    TrimEndBlank(TrimStart(s));
    BlankSplit(s, |s|);
    BlankLines(Split(s), parse);
  }

  predicate Blank(s: string) {
    forall i :: 0 <= i < |s| ==> IsSpace(s[i])
  }

  lemma {:induction false} BlankSplit(s: string, n: nat)
    requires Blank(s) && n <= |s|
    ensures forall i :: 0 <= i < |SplitFirst(s, n)| ==> Blank(SplitFirst(s, n)[i])
  {
    if n > 0 {
      BlankSplit(s, n - 1);
    }
  }

  lemma {:induction false} BlankLines(lines: seq<string>, parse: string -> Parsed)
    requires forall i :: 0 <= i < |lines| ==> Blank(lines[i])
    ensures LineEvents(lines, parse) == []
  {
    if lines != [] {
      BlankLines(lines[1..], parse);
      assert lines[0] == "" || lines[0][0] != 'd';
    }
  }

  // ----- what a line carries

  /** The white space and the line terminators of ECMAScript. */
  const JS_SPACE: string :=
    "\t\n\U{0B}\U{0C}\r \U{A0}\U{1680}\U{2000}\U{2001}\U{2002}\U{2003}\U{2004}\U{2005}\U{2006}\U{2007}\U{2008}\U{2009}\U{200A}\U{2028}\U{2029}\U{202F}\U{205F}\U{3000}\U{FEFF}"

  lemma SpaceIff(c: char)
    ensures IsSpace(c) <==> c in JS_SPACE
  {
  }

  predicate Spaces(s: string) {
    forall i :: 0 <= i < |s| ==> s[i] in JS_SPACE
  }

  /** Neither empty nor with white space at either end. */
  predicate Solid(s: string) {
    s != "" && s[0] !in JS_SPACE && s[|s| - 1] !in JS_SPACE
  }

  lemma SpacesAreBlank(s: string)
    ensures Spaces(s) <==> Blank(s)
  {
    forall i | 0 <= i < |s|
      ensures s[i] in JS_SPACE <==> IsSpace(s[i])
    {
      SpaceIff(s[i]);
    }
  }

  lemma TrimStartStep(s: string)
    ensures s != "" && IsSpace(s[0]) ==> TrimStart(s) == TrimStart(s[1..])
    ensures s == "" || !IsSpace(s[0]) ==> TrimStart(s) == s
  {
  }

  lemma {:induction false} TrimStartOf(a: string, s: string)
    requires Blank(a) && (s == "" || !IsSpace(s[0]))
    ensures TrimStart(a + s) == s
  {
    TrimStartStep(a + s);
    if a == "" {
      assert a + s == s;
    } else {
      TrimStartOf(a[1..], s);
      assert (a + s)[1..] == a[1..] + s && (a + s)[0] == a[0];
    }
  }

  lemma TrimEndStep(s: string)
    ensures s != "" && IsSpace(s[|s| - 1]) ==> TrimEnd(s) == TrimEnd(s[..|s| - 1])
    ensures s == "" || !IsSpace(s[|s| - 1]) ==> TrimEnd(s) == s
  {
  }

  lemma {:induction false} TrimEndOf(s: string, b: string)
    requires Blank(b) && (s == "" || !IsSpace(s[|s| - 1]))
    ensures TrimEnd(s + b) == s
  {
    TrimEndStep(s + b);
    if b == "" {
      assert s + b == s;
    } else {
      TrimEndOf(s, b[..|b| - 1]);
      Init(s, b);
    }
  }

  lemma TrimOf(a: string, s: string, b: string)
    requires Spaces(a) && Spaces(b) && Solid(s)
    ensures Trim(a + s + b) == s
  {
    SpacesAreBlank(a);
    SpacesAreBlank(b);
    SpaceIff(s[0]);
    SpaceIff(s[|s| - 1]);
    Assoc(a, s, b);
    assert (s + b)[0] == s[0];
    TrimStartOf(a, s + b);
    TrimEndOf(s, b);
  }

  lemma TrimOfSpaces(a: string)
    requires Spaces(a)
    ensures Trim(a) == ""
  {
    SpacesAreBlank(a);
    TrimStartOf(a, "");
    assert a + "" == a;
  }

  /** A line with the prefix carries the event that its JSON text stands for, white
      space around it ignored. */
  lemma CarriesEvent(a: string, json: string, b: string, parse: string -> Parsed)
    requires Spaces(a) && Spaces(b) && Solid(json) && json != "[DONE]"
    ensures parse(json).Json? ==> LineEvent("data: " + (a + json + b), parse) == [parse(json).event]
    ensures parse(json).NotJson? ==> LineEvent("data: " + (a + json + b), parse) == []
  {
    TrimOf(a, json, b);
    assert ("data: " + (a + json + b))[6..] == a + json + b;
  }

  /** A line that is to be skipped: without the prefix, blank behind it, or with the
      server's end marker. */
  ghost predicate Skippable(line: string) {
    || |line| < 6 || line[..6] != "data: "
    || Spaces(line[6..])
    || exists a, b :: Spaces(a) && Spaces(b) && line[6..] == a + "[DONE]" + b
  }

  lemma DoneIsSolid()
    ensures Solid("[DONE]")
  {
    SpaceIff('[');
    SpaceIff(']');
  }

  lemma CarriesNothing(line: string, parse: string -> Parsed)
    requires Skippable(line)
    ensures LineEvent(line, parse) == []
  {
    if |line| >= 6 && line[..6] == "data: " {
      if Spaces(line[6..]) {
        TrimOfSpaces(line[6..]);
      } else {
        var a, b :| Spaces(a) && Spaces(b) && line[6..] == a + "[DONE]" + b;
        DoneIsSolid();
        TrimOf(a, "[DONE]", b);
      }
    }
  }

  /** Lines without newlines are what splitting their join gives back. */
  lemma {:induction false} SplitOfJoin(lines: seq<string>)
    requires lines != [] && forall i :: 0 <= i < |lines| ==> OneLine(lines[i])
    ensures Split(Join(lines)) == lines
    decreases |lines|
  {
    var last := Last(lines);
    if |lines| == 1 {
      SplitOneLine(last, |last|);
      assert last[..|last|] == last;
    } else {
      var front := AllButLast(lines);
      SplitOfJoin(front);
      SplitTwoLines(Last(front), last);
      SplitConcat(Join(front), "\n" + last);
      assert Join(lines) == Join(front) + ("\n" + last);
      assert lines == AllButLast(front) + [Last(front), last];
    }
  }

  lemma SplitTwoLines(first: string, last: string)
    requires OneLine(first) && OneLine(last)
    ensures Split(first + ("\n" + last)) == [first, last]
  {
    var n := |first|;
    SplitPrefix(first, "\n", n);
    SplitOneLine(first, n);
    assert first[..n] == first && (first + "\n")[n] == '\n';
    assert Split(first + "\n") == [first, ""];
    SplitConcat(first + "\n", last);
    SplitOneLine(last, |last|);
    assert last[..|last|] == last && "" + last == last;
    assert first + "\n" + last == first + ("\n" + last);
  }

  // ----- the stream

  function Concat(chunks: seq<string>): string {
    if chunks == [] then "" else Concat(chunks[..|chunks| - 1]) + chunks[|chunks| - 1]
  }

  /** The whole text translated once, then the end marker; an event that throws
      ends the output early and without the marker. */
  function Expected(text: string, parse: string -> Parsed): seq<Frame> {
    var p := ContinueLines(START, Split(text), parse);
    if p.threw then p.frames else p.frames + [Done]
  }

  class Converter {
    var buffer: string
    var toolCallIndex: nat
    var sentRole: bool
    var chunkCount: nat
    var out: seq<Frame>

    constructor ()
      ensures buffer == "" && Value() == START
    {
      buffer, toolCallIndex, sentRole, chunkCount, out := "", 0, false, 0, [];
    }

    function Value(): Progress
      reads this
    {
      Progress(Conv(toolCallIndex, sentRole, chunkCount), out, false)
    }

    method ProcessEvent(event: Event)
      requires !event.Faulty?
      modifies this
      ensures Value() == Continue(old(Value()), [event])
      ensures buffer == old(buffer)
    {
      assert [event][1..] == [] && out + [] == out;
      match event {
        case TextDelta(delta) =>
          var role := !sentRole;
          sentRole := true;
          out := out + [Chunk(role, Some(delta), None, None)];
          chunkCount := chunkCount + 1;
        case ItemAdded(item) =>
          if item.CallItem? {
            var index := toolCallIndex;
            toolCallIndex := toolCallIndex + 1;
            var role := !sentRole;
            sentRole := true;
            out := out + [Chunk(role, None, Some(NewCall(index, CallIdentity(item.call), item.call.name)), None)];
            chunkCount := chunkCount + 1;
          }
        case ArgumentsDelta(delta) =>
          if toolCallIndex >= 1 {
            out := out + [Chunk(false, None, Some(MoreArguments(toolCallIndex - 1, delta)), None)];
            chunkCount := chunkCount + 1;
          }
        case Completed(output, usage) =>
          ProcessCompleted(output, usage);
        case ItemDone(_) =>
        case OtherEvent =>
      }
    }

    method ProcessCompleted(output: seq<Item>, usage: Option<Usage>)
      modifies this
      ensures Value() == Continue(old(Value()), [Completed(output, usage)])
      ensures buffer == old(buffer)
    {
      assert [Completed(output, usage)][1..] == [];
      var hasToolCalls := exists i :: 0 <= i < |output| && output[i].CallItem?;
      out := out + [Chunk(false, None, None, Some(if hasToolCalls then ToolCalls else StopReason))];
      if usage.Some? {
        out := out + [UsageFrame(usage.value)];
      }
      chunkCount := chunkCount + 1;
    }

    method ProcessLines(lines: seq<string>, parse: string -> Parsed) returns (threw: bool)
      modifies this
      ensures Value().(threw := threw) == ContinueLines(old(Value()), lines, parse)
      ensures buffer == old(buffer)
    {
      var i := 0;
      assert lines[i..] == lines;
      while i < |lines|
        invariant 0 <= i <= |lines|
        invariant ContinueLines(Value(), lines[i..], parse) == ContinueLines(old(Value()), lines, parse)
        invariant buffer == old(buffer)
      {
        var found := LineEvent(lines[i], parse);
        assert lines[i..][1..] == lines[i + 1..];
        ContinueConcat(Value(), found, LineEvents(lines[i + 1..], parse));
        if found != [] {
          assert found == [found[0]];
          if found[0].Faulty? {
            return true;
          }
          ProcessEvent(found[0]);
        }
        i := i + 1;
      }
      threw := false;
    }

    /** One read: complete lines are processed, the last one is kept. */
    method Feed(chunk: string, parse: string -> Parsed) returns (threw: bool)
      modifies this
      ensures buffer == Last(Split(old(buffer) + chunk))
      ensures Value().(threw := threw) == ContinueLines(old(Value()), AllButLast(Split(old(buffer) + chunk)), parse)
    {
      buffer := buffer + chunk;
      var lines := Split(buffer);
      buffer := lines[|lines| - 1];
      threw := ProcessLines(lines[..|lines| - 1], parse);
    }

    /** The end of the input: what is left in the buffer, then the end marker. */
    method Finish(parse: string -> Parsed)
      modifies this
      ensures var p := ContinueLines(old(Value()), Split(old(buffer)), parse);
              out == if p.threw then p.frames else p.frames + [Done]
    {
      if Trim(buffer) != "" {
        var threw := ProcessLines(Split(buffer), parse);
        if threw {
          return;
        }
      } else {
        BlankHasNoEvents(buffer, parse);
      }
      out := out + [Done];
    }
  }

  /** However the text is cut into chunks, the output is that of the whole text. */
  method ConvertStream(chunks: seq<string>, parse: string -> Parsed) returns (frames: seq<Frame>)
    ensures frames == Expected(Concat(chunks), parse)
  {
    var converter := new Converter();
    var i := 0;
    assert AllButLast(Split("")) == [];
    while i < |chunks|
      invariant 0 <= i <= |chunks|
      invariant converter.buffer == Last(Split(Concat(chunks[..i])))
      invariant converter.Value() == ContinueLines(START, AllButLast(Split(Concat(chunks[..i]))), parse)
    {
      ghost var before := Concat(chunks[..i]);
      var threw := converter.Feed(chunks[i], parse);
      ConcatNext(chunks, i);
      FeedContinues(before, chunks[i], parse);
      i := i + 1;
      if threw {
        ThrowIsFinal(chunks, i, parse);
        return converter.out;
      }
    }
    assert chunks[..i] == chunks;
    LastLineContinues(Concat(chunks), parse);
    converter.Finish(parse);
    frames := converter.out;
  }

  lemma ConcatNext(chunks: seq<string>, i: nat)
    requires i < |chunks|
    ensures Concat(chunks[..i + 1]) == Concat(chunks[..i]) + chunks[i]
  {
    assert chunks[..i + 1][..i] == chunks[..i];
  }

  lemma FeedContinues(before: string, chunk: string, parse: string -> Parsed)
    ensures var lines := Split(Last(Split(before)) + chunk);
            && Last(Split(before + chunk)) == Last(lines)
            && ContinueLines(START, AllButLast(Split(before + chunk)), parse)
            == ContinueLines(ContinueLines(START, AllButLast(Split(before)), parse), AllButLast(lines), parse)
  {
    var lines := Split(Last(Split(before)) + chunk);
    SplitConcat(before, chunk);
    assert AllButLast(Split(before + chunk)) == AllButLast(Split(before)) + AllButLast(lines);
    ContinueLinesConcat(START, AllButLast(Split(before)), AllButLast(lines), parse);
  }

  lemma LastLineContinues(text: string, parse: string -> Parsed)
    ensures ContinueLines(START, Split(text), parse)
         == ContinueLines(ContinueLines(START, AllButLast(Split(text)), parse), Split(Last(Split(text))), parse)
  {
    SplitConcat(text, "");
    assert text + "" == text && Last(Split(text)) + "" == Last(Split(text));
    ContinueLinesConcat(START, AllButLast(Split(text)), Split(Last(Split(text))), parse);
  }

  lemma {:induction false} ConcatSuffix(chunks: seq<string>, i: nat) returns (rest: string)
    requires i <= |chunks|
    ensures Concat(chunks) == Concat(chunks[..i]) + rest
    decreases |chunks|
  {
    if i == |chunks| {
      assert chunks[..i] == chunks;
      rest := "";
      assert Concat(chunks) + "" == Concat(chunks);
    } else {
      var last := |chunks| - 1;
      var middle := ConcatSuffix(chunks[..last], i);
      assert chunks[..last][..i] == chunks[..i];
      rest := middle + chunks[last];
      assert Concat(chunks[..i]) + middle + chunks[last] == Concat(chunks[..i]) + rest;
    }
  }

  /** Once an event has thrown, later chunks change nothing. */
  lemma ThrowIsFinal(chunks: seq<string>, i: nat, parse: string -> Parsed)
    requires i <= |chunks|
    requires ContinueLines(START, AllButLast(Split(Concat(chunks[..i]))), parse).threw
    ensures Expected(Concat(chunks), parse) == ContinueLines(START, AllButLast(Split(Concat(chunks[..i]))), parse).frames
  {
    var a := Concat(chunks[..i]);
    var rest := ConcatSuffix(chunks, i);
    SplitConcat(a, rest);
    ContinueLinesConcat(START, AllButLast(Split(a)), Split(Last(Split(a)) + rest), parse);
  }
}
