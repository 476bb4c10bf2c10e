/** What the stream converter guarantees: a well-formed frame sequence over any
    events, and agreement with the synchronous converter. */
module ResponsesLaws {
  import opened Basics
  import opened ResponsesStream

  // ----- frames over any events

  predicate IsDelta(f: Frame) {
    f.Chunk? && (f.content.Some? || f.tool.Some?)
  }

  function Introduced(frames: seq<Frame>): seq<nat> {
    if frames == [] then []
    else
      Introduced(AllButLast(frames)) +
      match Last(frames)
      case Chunk(_, _, Some(NewCall(index, _, _)), _) => [index]
      case _ => []
  }

  function Deltas(frames: seq<Frame>): nat {
    if frames == [] then 0 else Deltas(AllButLast(frames)) + if IsDelta(Last(frames)) then 1 else 0
  }

  function Chunks(frames: seq<Frame>): nat {
    if frames == [] then 0 else Chunks(AllButLast(frames)) + if Last(frames).Chunk? then 1 else 0
  }

  /** A frame in its place: the first delta and no other frame carries the role;
      arguments go to the tool call introduced last. */
  predicate InPlace(before: seq<Frame>, f: Frame) {
    f.Chunk? ==>
      && (f.role <==> IsDelta(f) && Deltas(before) == 0)
      && (f.tool.Some? && f.tool.value.NewCall? ==> f.tool.value.index == |Introduced(before)|)
      && (f.tool.Some? && f.tool.value.MoreArguments? ==> f.tool.value.index == |Introduced(before)| - 1)
  }

  predicate Lawful(p: Progress) {
    && (forall k :: 0 <= k < |p.frames| ==> InPlace(p.frames[..k], p.frames[k]))
    && Introduced(p.frames) == seq(p.conv.toolCallIndex, i => i)
    && (p.conv.sentRole <==> Deltas(p.frames) > 0)
    && p.conv.chunkCount == Chunks(p.frames)
  }

  lemma AppendInPlace(frames: seq<Frame>, f: Frame)
    requires forall k :: 0 <= k < |frames| ==> InPlace(frames[..k], frames[k])
    requires InPlace(frames, f)
    ensures forall k :: 0 <= k < |frames + [f]| ==> InPlace((frames + [f])[..k], (frames + [f])[k])
    ensures AllButLast(frames + [f]) == frames && Last(frames + [f]) == f
  {
    forall k | 0 <= k < |frames + [f]|
      ensures InPlace((frames + [f])[..k], (frames + [f])[k])
    {
      assert (frames + [f])[..k] == frames[..k];
      assert k == |frames| ==> frames[..k] == frames;
    }
  }

  lemma {:induction false} IntroductionIsDelta(frames: seq<Frame>)
    ensures |Introduced(frames)| <= Deltas(frames)
  {
    if frames != [] {
      IntroductionIsDelta(AllButLast(frames));
    }
  }

  lemma LawfulAppend(p: Progress, conv: Conv, f: Frame)
    requires Lawful(p) && InPlace(p.frames, f)
    requires conv.toolCallIndex == p.conv.toolCallIndex + if f.Chunk? && f.tool.Some? && f.tool.value.NewCall? then 1 else 0
    requires conv.sentRole == (p.conv.sentRole || IsDelta(f))
    requires conv.chunkCount == p.conv.chunkCount + if f.Chunk? then 1 else 0
    ensures Lawful(Progress(conv, p.frames + [f], p.threw))
  {
    AppendInPlace(p.frames, f);
    assert seq(p.conv.toolCallIndex + 1, i => i) == seq(p.conv.toolCallIndex, i => i) + [p.conv.toolCallIndex];
  }

  /** What a lawful state says about the frame that comes next. */
  lemma LawfulCounters(p: Progress)
    requires Lawful(p)
    ensures |Introduced(p.frames)| == p.conv.toolCallIndex
    ensures p.conv.sentRole <==> Deltas(p.frames) > 0
    ensures p.conv.toolCallIndex > 0 ==> p.conv.sentRole
  {
    IntroductionIsDelta(p.frames);
  }

  lemma TextLawful(p: Progress, delta: string)
    requires Lawful(p) && !p.threw
    ensures var (conv, frames) := Emit(p.conv, TextDelta(delta)); Lawful(Progress(conv, p.frames + frames, false))
  {
    LawfulCounters(p);
    LawfulAppend(p, Emit(p.conv, TextDelta(delta)).0, Chunk(!p.conv.sentRole, Some(delta), None, None));
  }

  lemma CallLawful(p: Progress, call: Call)
    requires Lawful(p) && !p.threw
    ensures var (conv, frames) := Emit(p.conv, ItemAdded(CallItem(call))); Lawful(Progress(conv, p.frames + frames, false))
  {
    LawfulCounters(p);
    LawfulAppend(p, Emit(p.conv, ItemAdded(CallItem(call))).0,
                 Chunk(!p.conv.sentRole, None, Some(NewCall(p.conv.toolCallIndex, CallIdentity(call), call.name)), None));
  }

  lemma ArgumentsLawful(p: Progress, delta: string)
    requires Lawful(p) && !p.threw && p.conv.toolCallIndex >= 1
    ensures var (conv, frames) := Emit(p.conv, ArgumentsDelta(delta)); Lawful(Progress(conv, p.frames + frames, false))
  {
    LawfulCounters(p);
    LawfulAppend(p, Emit(p.conv, ArgumentsDelta(delta)).0,
                 Chunk(false, None, Some(MoreArguments(p.conv.toolCallIndex - 1, delta)), None));
  }

  lemma FinishLawful(p: Progress, finish: Finish)
    requires Lawful(p)
    ensures Lawful(Progress(p.conv.(chunkCount := p.conv.chunkCount + 1), p.frames + [Chunk(false, None, None, Some(finish))], p.threw))
  {
    LawfulAppend(p, p.conv.(chunkCount := p.conv.chunkCount + 1), Chunk(false, None, None, Some(finish)));
  }

  lemma UsageLawful(p: Progress, usage: Usage)
    requires Lawful(p)
    ensures Lawful(p.(frames := p.frames + [UsageFrame(usage)]))
  {
    LawfulAppend(p, p.conv, UsageFrame(usage));
  }

  lemma CompletedLawful(p: Progress, output: seq<Item>, usage: Option<Usage>)
    requires Lawful(p) && !p.threw
    ensures var (conv, frames) := Emit(p.conv, Completed(output, usage)); Lawful(Progress(conv, p.frames + frames, false))
  {
    var (conv, frames) := Emit(p.conv, Completed(output, usage));
    var finish := if HasCall(output) then ToolCalls else StopReason;
    FinishLawful(p, finish);
    var finished := Progress(conv, p.frames + [Chunk(false, None, None, Some(finish))], false);
    if usage.Some? {
      UsageLawful(finished, usage.value);
      assert p.frames + frames == finished.frames + [UsageFrame(usage.value)];
    } else {
      assert frames == [Chunk(false, None, None, Some(finish))];
    }
  }

  lemma EmitLawful(p: Progress, e: Event)
    requires Lawful(p) && !p.threw && !e.Faulty?
    ensures var (conv, frames) := Emit(p.conv, e); Lawful(Progress(conv, p.frames + frames, false))
  {
    assert p.frames + [] == p.frames;
    match e
    case TextDelta(delta) => TextLawful(p, delta);
    case ItemAdded(CallItem(call)) => CallLawful(p, call);
    case Completed(output, usage) => CompletedLawful(p, output, usage);
    case ArgumentsDelta(delta) =>
      if p.conv.toolCallIndex >= 1 {
        ArgumentsLawful(p, delta);
      }
    case _ =>
  }

  /** Over any events, tool indices are introduced as 0, 1, 2, ..., arguments name
      the last introduced index, the first delta and only it carries the role and
      the counter counts the chunks. */
  lemma {:induction false} StreamIsLawful(p: Progress, events: seq<Event>)
    requires Lawful(p)
    ensures Lawful(Continue(p, events))
    decreases |events|
  {
    if events != [] && !p.threw && !events[0].Faulty? {
      EmitLawful(p, events[0]);
      var (conv, frames) := Emit(p.conv, events[0]);
      StreamIsLawful(Progress(conv, p.frames + frames, false), events[1..]);
    }
  }

  lemma AtMostOneRole(events: seq<Event>, j: nat, k: nat)
    requires var frames := Continue(START, events).frames;
             j < k < |frames| && frames[j].Chunk? && frames[k].Chunk? && frames[j].role
    ensures !Continue(START, events).frames[k].role
  {
    StreamIsLawful(START, events);
    var frames := Continue(START, events).frames;
    assert InPlace(frames[..j], frames[j]) && InPlace(frames[..k], frames[k]);
    DeltaBefore(frames, j, k);
  }

  lemma {:induction false} DeltaBefore(frames: seq<Frame>, j: nat, k: nat)
    requires j < k <= |frames| && IsDelta(frames[j])
    ensures Deltas(frames[..k]) > 0
  {
    assert AllButLast(frames[..k]) == frames[..k - 1];
    if j < k - 1 {
      DeltaBefore(frames, j, k - 1);
    }
  }

  // ----- what a client makes of the frames

  datatype Client = Client(text: string, calls: seq<ToolCall>, finish: Option<Finish>, usage: Option<Usage>)

  function Receive(c: Client, f: Frame): Client {
    match f
    case Chunk(_, content, tool, finish) =>
      var text := if content.Some? then c.text + content.value else c.text;
      var calls :=
        match tool
        case None => c.calls
        case Some(NewCall(index, id, name)) => if index == |c.calls| then c.calls + [ToolCall(id, name, "")] else c.calls
        case Some(MoreArguments(index, more)) =>
          if index < |c.calls|
          then c.calls[index := c.calls[index].(arguments := c.calls[index].arguments + more)]
          else c.calls;
      Client(text, calls, if finish.Some? then finish else c.finish, c.usage)
    case UsageFrame(usage) => c.(usage := Some(usage))
    case Done => c
  }

  function Fold(frames: seq<Frame>): Client {
    if frames == [] then Client("", [], None, None) else Receive(Fold(AllButLast(frames)), Last(frames))
  }

  // ----- well-formed event sequences

  predicate Quiet(e: Event) {
    e.OtherEvent? || e.ItemDone? || (e.ItemAdded? && !e.item.CallItem?)
  }

  /** The events of one output item, in any number of pieces: text pieces for a
      message; for a call its announcement and then its argument pieces. */
  datatype Segment = Segment(before: seq<Event>, added: Option<Call>, body: seq<Event>)

  function SegmentEvents(s: Segment): seq<Event> {
    s.before + (match s.added case None => [] case Some(call) => [ItemAdded(CallItem(call))]) + s.body
  }

  /** The text in the first n events. */
  function TextFirst(events: seq<Event>, n: nat): string
    requires n <= |events|
  {
    if n == 0 then ""
    else if events[n - 1].TextDelta? then TextFirst(events, n - 1) + events[n - 1].delta
    else TextFirst(events, n - 1)
  }

  /** The arguments in the first n events. */
  function ArgumentsFirst(events: seq<Event>, n: nat): string
    requires n <= |events|
  {
    if n == 0 then ""
    else if events[n - 1].ArgumentsDelta? then ArgumentsFirst(events, n - 1) + events[n - 1].delta
    else ArgumentsFirst(events, n - 1)
  }

  predicate Matches(item: Item, s: Segment) {
    && (forall e :: e in s.before ==> Quiet(e))
    && match item
       case CallItem(call) =>
         && s.added.Some?
         && CallIdentity(s.added.value) == CallIdentity(call) && s.added.value.name == call.name
         && (forall e :: e in s.body ==> Quiet(e) || e.ArgumentsDelta?)
         && ArgumentsFirst(s.body, |s.body|) == call.arguments
       case _ =>
         && s.added.None?
         && (forall e :: e in s.body ==> Quiet(e) || e.TextDelta?)
         && TextFirst(s.body, |s.body|) == ItemText(item)
  }

  function AllEvents(segments: seq<Segment>): seq<Event> {
    if segments == [] then [] else AllEvents(segments[..|segments| - 1]) + SegmentEvents(segments[|segments| - 1])
  }

  // ----- streaming agrees with the synchronous conversion

  /** A running translation whose client has seen this text and these calls. */
  predicate Seen(p: Progress, text: string, calls: seq<ToolCall>) {
    !p.threw && Fold(p.frames) == Client(text, calls, None, None) && p.conv.toolCallIndex == |calls|
  }

  lemma FoldAppend(frames: seq<Frame>, f: Frame)
    ensures Fold(frames + [f]) == Receive(Fold(frames), f)
  {
    assert AllButLast(frames + [f]) == frames;
  }

  lemma {:induction false} QuietEvents(p: Progress, events: seq<Event>)
    requires !p.threw && forall e :: e in events ==> Quiet(e)
    ensures Continue(p, events) == p
    decreases |events|
  {
    if events != [] {
      assert Quiet(events[0]) && p.frames + [] == p.frames;
      QuietEvents(p, events[1..]);
    }
  }

  function AfterEvent(p: Progress, e: Event): Progress {
    var (conv, frames) := Emit(p.conv, e);
    Progress(conv, p.frames + frames, false)
  }

  lemma ContinueOne(p: Progress, events: seq<Event>, n: nat)
    requires n < |events| && !Continue(p, events[..n]).threw && !events[n].Faulty?
    ensures Continue(p, events[..n + 1]) == AfterEvent(Continue(p, events[..n]), events[n])
  {
    assert events[..n + 1] == events[..n] + [events[n]];
    ContinueConcat(p, events[..n], [events[n]]);
    assert [events[n]][1..] == [];
  }

  lemma QuietSeen(p: Progress, e: Event)
    requires Quiet(e) && !p.threw
    ensures AfterEvent(p, e) == p
  {
    assert p.frames + [] == p.frames;
  }

  lemma TextSeen(p: Progress, delta: string, text: string, calls: seq<ToolCall>)
    requires Seen(p, text, calls)
    ensures Seen(AfterEvent(p, TextDelta(delta)), text + delta, calls)
  {
    FoldAppend(p.frames, Chunk(!p.conv.sentRole, Some(delta), None, None));
  }

  lemma ArgumentSeen(p: Progress, delta: string, text: string, calls: seq<ToolCall>, call: ToolCall)
    requires Seen(p, text, calls + [call])
    ensures Seen(AfterEvent(p, ArgumentsDelta(delta)), text, calls + [call.(arguments := call.arguments + delta)])
  {
    FoldAppend(p.frames, Chunk(false, None, Some(MoreArguments(p.conv.toolCallIndex - 1, delta)), None));
    var longer := call.(arguments := call.arguments + delta);
    assert (calls + [call])[|calls| := longer] == calls + [longer];
  }

  lemma {:induction false} TextEvents(p: Progress, events: seq<Event>, n: nat, text: string, calls: seq<ToolCall>)
    requires n <= |events| && Seen(p, text, calls) && forall e :: e in events ==> Quiet(e) || e.TextDelta?
    ensures Seen(Continue(p, events[..n]), text + TextFirst(events, n), calls)
    decreases n
  {
    if n == 0 {
      assert text + "" == text;
    } else {
      TextEvents(p, events, n - 1, text, calls);
      var e, q, soFar := events[n - 1], Continue(p, events[..n - 1]), TextFirst(events, n - 1);
      assert e in events;
      ContinueOne(p, events, n - 1);
      if e.TextDelta? {
        TextSeen(q, e.delta, text + soFar, calls);
        assert text + soFar + e.delta == text + (soFar + e.delta);
      } else {
        QuietSeen(q, e);
      }
    }
  }

  lemma {:induction false} ArgumentEvents(p: Progress, events: seq<Event>, n: nat, text: string, calls: seq<ToolCall>, call: ToolCall)
    requires n <= |events| && Seen(p, text, calls + [call]) && forall e :: e in events ==> Quiet(e) || e.ArgumentsDelta?
    ensures Seen(Continue(p, events[..n]), text, calls + [call.(arguments := call.arguments + ArgumentsFirst(events, n))])
    decreases n
  {
    if n == 0 {
      assert call.arguments + "" == call.arguments;
    } else {
      ArgumentEvents(p, events, n - 1, text, calls, call);
      var e, q, soFar := events[n - 1], Continue(p, events[..n - 1]), ArgumentsFirst(events, n - 1);
      assert e in events;
      ContinueOne(p, events, n - 1);
      if e.ArgumentsDelta? {
        ArgumentSeen(q, e.delta, text, calls, call.(arguments := call.arguments + soFar));
        assert call.arguments + soFar + e.delta == call.arguments + (soFar + e.delta);
      } else {
        QuietSeen(q, e);
      }
    }
  }

  lemma SegmentSeen(p: Progress, item: Item, s: Segment, text: string, calls: seq<ToolCall>)
    requires Seen(p, text, calls) && Matches(item, s)
    ensures Seen(Continue(p, SegmentEvents(s)), text + ItemText(item), calls + ItemCalls(item))
  {
    QuietEvents(p, s.before);
    assert s.body[..|s.body|] == s.body;
    match item
    case CallItem(call) =>
      assert text + "" == text;
      CallSeen(p, call, s, text, calls);
    case _ =>
      assert SegmentEvents(s) == s.before + s.body;
      ContinueConcat(p, s.before, s.body);
      TextEvents(p, s.body, |s.body|, text, calls);
      assert calls + [] == calls;
  }

  lemma CallSeen(p: Progress, call: Call, s: Segment, text: string, calls: seq<ToolCall>)
    requires Seen(p, text, calls) && Matches(CallItem(call), s) && Continue(p, s.before) == p
    ensures Seen(Continue(p, SegmentEvents(s)), text, calls + ItemCalls(CallItem(call)))
  {
    var announced := ItemAdded(CallItem(s.added.value));
    assert SegmentEvents(s) == s.before + ([announced] + s.body);
    ContinueConcat(p, s.before, [announced] + s.body);
    ContinueConcat(p, [announced], s.body);
    var q := AfterEvent(p, announced);
    assert Continue(p, [announced]) == q by {
      assert [announced][1..] == [];
    }
    FoldAppend(p.frames, Chunk(!p.conv.sentRole, None, Some(NewCall(p.conv.toolCallIndex, CallIdentity(call), call.name)), None));
    ArgumentEvents(q, s.body, |s.body|, text, calls, ToolCall(CallIdentity(call), call.name, ""));
    assert s.body[..|s.body|] == s.body;
    assert "" + call.arguments == call.arguments;
  }

  lemma {:induction false} SegmentsSeen(items: seq<Item>, segments: seq<Segment>)
    requires |items| == |segments| && forall i :: 0 <= i < |items| ==> Matches(items[i], segments[i])
    ensures Seen(Continue(START, AllEvents(segments)), OutputTextOf(items), OutputCallsOf(items))
    decreases |items|
  {
    if items != [] {
      var n := |items| - 1;
      SegmentsSeen(items[..n], segments[..n]);
      ContinueConcat(START, AllEvents(segments[..n]), SegmentEvents(segments[n]));
      SegmentSeen(Continue(START, AllEvents(segments[..n])), items[n], segments[n], OutputTextOf(items[..n]), OutputCallsOf(items[..n]));
    }
  }

  /** Streaming refines the synchronous conversion: however the items of a response
      are cut into events, a client that folds the frames ends with the text, the
      tool calls, the finish reason and the usage that ConvertSync computes. */
  lemma StreamingRefinesSync(items: seq<Item>, segments: seq<Segment>, usage: Option<Usage>)
    requires |items| == |segments| && forall i :: 0 <= i < |items| ==> Matches(items[i], segments[i])
    ensures var p := Continue(START, AllEvents(segments) + [Completed(items, usage)]);
            !p.threw && Fold(p.frames)
            == Client(OutputTextOf(items), OutputCallsOf(items), Some(if HasCall(items) then ToolCalls else StopReason), usage)
  {
    SegmentsSeen(items, segments);
    ContinueConcat(START, AllEvents(segments), [Completed(items, usage)]);
    CompletedSeen(Continue(START, AllEvents(segments)), items, usage, OutputTextOf(items), OutputCallsOf(items));
  }

  lemma CompletedSeen(p: Progress, items: seq<Item>, usage: Option<Usage>, text: string, calls: seq<ToolCall>)
    requires Seen(p, text, calls)
    ensures var q := Continue(p, [Completed(items, usage)]);
            !q.threw && Fold(q.frames) == Client(text, calls, Some(if HasCall(items) then ToolCalls else StopReason), usage)
  {
    assert [Completed(items, usage)][1..] == [];
    var finish := Chunk(false, None, None, Some(if HasCall(items) then ToolCalls else StopReason));
    FoldAppend(p.frames, finish);
    if usage.Some? {
      FoldAppend(p.frames + [finish], UsageFrame(usage.value));
      assert p.frames + ([finish] + [UsageFrame(usage.value)]) == p.frames + [finish] + [UsageFrame(usage.value)];
    } else {
      assert p.frames + ([finish] + []) == p.frames + [finish];
    }
  }

  // ----- streams as texts

  /** A line of the stream: an event in the server's JSON, with white space around it,
      or a line that carries none. */
  datatype Line = Carrying(before: string, event: Event, after: string) | Skipped(text: string)

  /** The server prints an event as a JSON text in one line, which parses back. */
  ghost predicate LineOk(line: Line, show: Event -> string, parse: string -> Parsed) {
    match line
    case Carrying(a, e, b) =>
      && Spaces(a) && Spaces(b) && OneLine(a) && OneLine(b)
      && Solid(show(e)) && OneLine(show(e)) && show(e) != "[DONE]" && parse(show(e)) == Json(e)
    case Skipped(text) => OneLine(text) && Skippable(text)
  }

  function LineText(line: Line, show: Event -> string): string {
    match line
    case Carrying(a, e, b) => "data: " + (a + show(e) + b)
    case Skipped(text) => text
  }

  function LineTexts(lines: seq<Line>, show: Event -> string): seq<string> {
    seq(|lines|, i requires 0 <= i < |lines| => LineText(lines[i], show))
  }

  function Carried(lines: seq<Line>): seq<Event> {
    if lines == [] then []
    else (match lines[0] case Carrying(_, e, _) => [e] case Skipped(_) => []) + Carried(lines[1..])
  }

  lemma LineCarries(line: Line, show: Event -> string, parse: string -> Parsed)
    requires LineOk(line, show, parse)
    ensures LineEvent(LineText(line, show), parse) == (match line case Carrying(_, e, _) => [e] case Skipped(_) => [])
    ensures OneLine(LineText(line, show))
  {
    match line
    case Carrying(a, e, b) => CarriesEvent(a, show(e), b, parse);
    case Skipped(text) => CarriesNothing(text, parse);
  }

  lemma {:induction false} LinesCarry(lines: seq<Line>, show: Event -> string, parse: string -> Parsed)
    requires forall i :: 0 <= i < |lines| ==> LineOk(lines[i], show, parse)
    ensures LineEvents(LineTexts(lines, show), parse) == Carried(lines)
    ensures forall i :: 0 <= i < |lines| ==> OneLine(LineTexts(lines, show)[i])
  {
    if lines != [] {
      LineCarries(lines[0], show, parse);
      LinesCarry(lines[1..], show, parse);
      assert LineTexts(lines, show)[1..] == LineTexts(lines[1..], show);
    }
  }

  /** The same for a whole text: print the events as lines, with white space around
      them and lines that carry nothing between them. However ConvertStream receives
      that text, the client's fold is the synchronous answer. */
  lemma TextRefinesSync(lines: seq<Line>, show: Event -> string, parse: string -> Parsed,
                        items: seq<Item>, segments: seq<Segment>, usage: Option<Usage>)
    requires |items| == |segments| && forall i :: 0 <= i < |items| ==> Matches(items[i], segments[i])
    requires lines != [] && forall i :: 0 <= i < |lines| ==> LineOk(lines[i], show, parse)
    requires Carried(lines) == AllEvents(segments) + [Completed(items, usage)]
    ensures var frames := Expected(Join(LineTexts(lines, show)), parse);
            && frames != [] && Last(frames) == Done
            && Fold(frames)
            == Client(OutputTextOf(items), OutputCallsOf(items), Some(if HasCall(items) then ToolCalls else StopReason), usage)
  {
    LinesCarry(lines, show, parse);
    SplitOfJoin(LineTexts(lines, show));
    StreamingRefinesSync(items, segments, usage);
    FoldAppend(ContinueLines(START, LineTexts(lines, show), parse).frames, Done);
  }
}
