/** The log file that keeps only its last lines: incremental line counters, and
    trimming when a write would exceed the window. File operations succeed, but a
    write may be partial. */
module LogWindow {
  import opened Basics

  // ----- counting lines

  predicate IsOpen(s: seq<Byte>) {
    s != [] && s[|s| - 1] != LF
  }

  /** Lines of a text: one for each newline, and one for an unfinished last line. */
  function Lines(s: seq<Byte>): nat {
    Newlines(s) + if IsOpen(s) then 1 else 0
  }

  method CountByte(payload: seq<Byte>) returns (count: nat)
    ensures count == Newlines(payload)
  {
    count := 0;
    for i := 0 to |payload|
      invariant count == NewlinesFirst(payload, i)
    {
      if payload[i] == LF {
        count := count + 1;
      }
    }
  }

  method CountBytesLines(payload: seq<Byte>) returns (count: nat)
    ensures count == Lines(payload)
  {
    if |payload| == 0 {
      return 0;
    }
    count := CountByte(payload);
    if payload[|payload| - 1] != LF {
      count := count + 1;
    }
  }

  /** The line counts of two texts add up, except that a text joined to an open
      line does not start a line of its own. */
  lemma LinesConcat(a: seq<Byte>, b: seq<Byte>)
    ensures b != [] ==> Lines(a + b) == Lines(a) + Lines(b) - (if IsOpen(a) then 1 else 0)
    ensures b == [] ==> a + b == a
  {
    NewlinesConcat(a, b);
    if b != [] {
      assert (a + b)[|a + b| - 1] == b[|b| - 1];
    }
  }

  lemma LinesOfNonempty(s: seq<Byte>)
    requires s != []
    ensures Lines(s) >= 1
  {
    assert Newlines(s) == NewlinesFirst(s, |s| - 1) + if s[|s| - 1] == LF then 1 else 0;
  }

  lemma LinesMonotone(a: seq<Byte>, b: seq<Byte>)
    ensures Lines(a) <= Lines(a + b) && Lines(b) <= Lines(a + b)
  {
    LinesConcat(a, b);
    if b != [] {
      LinesOfNonempty(b);
    } else {
      assert a + b == a;
    }
    if a != [] {
      LinesOfNonempty(a);
    }
  }

  // ----- the last lines of a text

  /** A cut between lines: at the start, or just after a newline. */
  predicate LineStart(s: seq<Byte>, k: nat) {
    k <= |s| && (k == 0 || s[k - 1] == LF)
  }

  method IndexOfNewline(s: seq<Byte>, from: nat) returns (next: int)
    requires from <= |s|
    ensures next < 0 ==> Newlines(s[from..]) == 0
    ensures next >= 0 ==> from + next < |s| && s[from + next] == LF && Newlines(s[from..from + next]) == 0
  {
    next := 0;
    while from + next < |s|
      invariant 0 <= next && from + next <= |s|
      invariant Newlines(s[from..from + next]) == 0
    {
      if s[from + next] == LF {
        return;
      }
      NewlinesAppend(s[from..from + next], s[from + next]);
      assert s[from..from + next + 1] == s[from..from + next] + [s[from + next]];
      next := next + 1;
    }
    assert s[from..from + next] == s[from..];
    next := -1;
  }

  function AtMost(n: nat, limit: int): nat {
    if limit <= 0 then 0 else if n <= limit then n else limit
  }

  /** Cutting just after the next newline drops exactly one line. */
  lemma DropLine(s: seq<Byte>, from: nat, next: nat)
    requires from + next < |s| && s[from + next] == LF && Newlines(s[from..from + next]) == 0
    ensures Lines(s[from + next + 1..]) == Lines(s[from..]) - 1
  {
    var line := s[from..from + next + 1];
    NewlinesAppend(s[from..from + next], LF);
    assert line == s[from..from + next] + [LF];
    assert s[from..] == line + s[from + next + 1..];
    LinesConcat(line, s[from + next + 1..]);
  }

  /** Drops whole lines from the front until the target is met. The branch for a
      missing newline cannot be reached. */
  method LastLinesBytes(payload: seq<Byte>, targetLines: int) returns (trimmed: seq<Byte>, count: nat, ghost cut: nat)
    ensures cut <= |payload| && trimmed == payload[cut..]
    ensures count == Lines(trimmed) == AtMost(Lines(payload), targetLines)
    ensures if targetLines <= 0 then cut == |payload| else LineStart(payload, cut)
  {
    if |payload| == 0 || targetLines <= 0 {
      return [], 0, |payload|;
    }
    var lineCount := CountBytesLines(payload);
    if lineCount <= targetLines {
      return payload, lineCount, 0;
    }
    var dropLines := lineCount - targetLines;
    var offset: nat := 0;
    var i := 0;
    assert payload[offset..] == payload;
    while i < dropLines
      invariant 0 <= i <= dropLines
      invariant LineStart(payload, offset)
      invariant Lines(payload[offset..]) == lineCount - i
    {
      var next := IndexOfNewline(payload, offset);
      if next < 0 {
        assert false;
      }
      DropLine(payload, offset, next);
      offset := offset + next + 1;
      i := i + 1;
    }
    trimmed := payload[offset..];
    cut := offset;
    count := CountBytesLines(trimmed);
  }

  // ----- what a write does to the file

  predicate IsSuffix(s: seq<Byte>, whole: seq<Byte>) {
    |s| <= |whole| && s == whole[|whole| - |s|..]
  }

  /** A window is set, the payload adds lines and they do not fit. */
  predicate Overflows(file: seq<Byte>, payload: seq<Byte>, maxLines: int) {
    maxLines > 0 && Lines(file + payload) > Lines(file) && Lines(file + payload) > maxLines
  }

  /** The number of lines to keep before a payload that adds newLines. */
  function Target(maxLines: int, trimReserve: int, newLines: int): int {
    var target := maxLines - newLines - trimReserve;
    var target' := if target < 0 then maxLines - newLines else target;
    if target' < 0 then 0 else target'
  }

  /** The rest of a text after a cut between lines, or nothing of it. */
  predicate CutBetweenLines(s: seq<Byte>, kept: seq<Byte>) {
    IsSuffix(kept, s) && (kept == [] || LineStart(s, |s| - |kept|))
  }

  lemma NothingCut(none: seq<Byte>, s: seq<Byte>)
    requires none == []
    ensures CutBetweenLines(s, s) && none + s == s
  {
  }

  /** What is left of the file when there is room for the payload. */
  predicate Trimmed(file: seq<Byte>, payload: seq<Byte>, maxLines: int, trimReserve: int, kept: seq<Byte>) {
    && CutBetweenLines(file, kept)
    && if Overflows(file, payload, maxLines)
       then Lines(kept) == AtMost(Lines(file), Target(maxLines, trimReserve, Lines(file + payload) - Lines(file)))
       else kept == file
  }

  /** The whole effect of a write of which the file accepts so many bytes. */
  predicate Rewrites(before: seq<Byte>, payload: seq<Byte>, accepted: nat, maxLines: int, trimReserve: int, after: seq<Byte>) {
    && accepted <= |payload| && accepted <= |after|
    && after[|after| - accepted..] == payload[..accepted]
    && Trimmed(before, payload, maxLines, trimReserve, after[..|after| - accepted])
  }

  /** Trimming to the target makes room for the whole payload, even when emptying
      the file turns the payload's first line into a line of its own. */
  lemma TrimmingMakesRoom(file: seq<Byte>, payload: seq<Byte>, maxLines: int, trimReserve: int, kept: seq<Byte>)
    requires maxLines > 0 && trimReserve >= 0 && Lines(file) <= maxLines && Lines(payload) <= maxLines
    requires Trimmed(file, payload, maxLines, trimReserve, kept)
    ensures Lines(kept + payload) <= maxLines
  {
    LinesConcat(file, payload);
    LinesConcat(kept, payload);
    if payload == [] {
      assert file + payload == file && kept + payload == kept;
    }
    if Overflows(file, payload, maxLines) {
      if kept == [] {
        assert kept + payload == payload;
      } else {
        LinesOfNonempty(kept);
        assert kept[|kept| - 1] == file[|file| - 1];
      }
    }
  }

  lemma PartialWrite(file: seq<Byte>, payload: seq<Byte>, accepted: nat)
    requires accepted <= |payload|
    ensures Lines(file + payload[..accepted]) <= Lines(file + payload)
    ensures accepted == |payload| ==> Lines(payload) <= Lines(file + payload[..accepted])
  {
    assert file + payload == (file + payload[..accepted]) + payload[accepted..];
    LinesMonotone(file + payload[..accepted], payload[accepted..]);
    LinesMonotone(file, payload[..accepted]);
    assert accepted == |payload| ==> payload[..accepted] == payload;
  }

  /** A file within the window stays within it when the payload fits the window,
      and after a complete write only then. */
  lemma WindowIsKept(before: seq<Byte>, payload: seq<Byte>, accepted: nat, maxLines: int, trimReserve: int, after: seq<Byte>)
    requires maxLines > 0 && trimReserve >= 0 && Lines(before) <= maxLines
    requires Rewrites(before, payload, accepted, maxLines, trimReserve, after)
    ensures Lines(payload) <= maxLines ==> Lines(after) <= maxLines
    ensures accepted == |payload| && Lines(after) <= maxLines ==> Lines(payload) <= maxLines
  {
    var kept := after[..|after| - accepted];
    assert after == kept + payload[..accepted];
    PartialWrite(kept, payload, accepted);
    if Lines(payload) <= maxLines {
      TrimmingMakesRoom(before, payload, maxLines, trimReserve, kept);
    }
  }

  /** How many lines survive a write, by the lines that the whole payload would add:
      all of them if nothing overflows; otherwise as many as leave room for those and
      the reserve, or for those alone if the reserve is too much, or none. */
  lemma SurvivingLines(before: seq<Byte>, payload: seq<Byte>, accepted: nat, maxLines: int, trimReserve: int, after: seq<Byte>)
    requires Rewrites(before, payload, accepted, maxLines, trimReserve, after)
    ensures var kept := after[..|after| - accepted];
            var added := Lines(before + payload) - Lines(before);
            var room := maxLines - added;
            if maxLines <= 0 || added == 0 || Lines(before) + added <= maxLines then kept == before
            else if room >= trimReserve then Lines(kept) == (if Lines(before) <= room - trimReserve then Lines(before) else room - trimReserve)
            else if room >= 0 then Lines(kept) == (if Lines(before) <= room then Lines(before) else room)
            else kept == []
  {
    var kept := after[..|after| - accepted];
    LinesMonotone(before, payload);
    if kept != [] {
      LinesOfNonempty(kept);
    }
  }

  /** Of two cuts between lines the later one keeps fewer lines, so the last n
      lines of a text are one particular suffix. */
  lemma LastLinesAreUnique(s: seq<Byte>, j: nat, k: nat)
    requires LineStart(s, j) && LineStart(s, k) && Lines(s[j..]) == Lines(s[k..])
    ensures j == k
  {
    if j < k {
      FewerLines(s, j, k);
    } else if k < j {
      FewerLines(s, k, j);
    }
  }

  lemma FewerLines(s: seq<Byte>, j: nat, k: nat)
    requires j < k && LineStart(s, k)
    ensures Lines(s[j..]) > Lines(s[k..])
  {
    assert s[j..] == s[j..k] + s[k..];
    NewlinesAppend(s[j..k - 1], LF);
    assert s[j..k] == s[j..k - 1] + [LF];
    LinesConcat(s[j..k], s[k..]);
  }

  // ----- the writer

  predicate EndsLine(s: seq<Byte>) {
    s != [] && s[|s| - 1] == LF
  }

  /** What was dropped ends between lines or where a payload started. */
  predicate CutOk(dropped: seq<Byte>, starts: set<nat>) {
    dropped == [] || EndsLine(dropped) || |dropped| in starts
  }

  class LineWindowWriter {
    var file: seq<Byte>
    var lineCount: int
    var openLine: bool
    const maxLines: int
    const trimReserve: int

    /** What trimming has dropped so far, and where payloads started. */
    ghost var dropped: seq<Byte>
    ghost var starts: set<nat>

    /** Everything ever written: the file is a suffix of it. */
    ghost function Log(): seq<Byte>
      reads this
    {
      dropped + file
    }

    /** The counters agree with recounting the file, and the file starts between
        lines or where a payload started. */
    ghost predicate Valid()
      reads this
    {
      lineCount == Lines(file) && openLine == IsOpen(file) && CutOk(dropped, starts)
    }

    constructor (contents: seq<Byte>, maxLines: int, trimReserve: int)
      ensures Valid() && Log() == contents && starts == {}
      ensures this.maxLines == maxLines && this.trimReserve == trimReserve
      ensures CutBetweenLines(contents, file) && (maxLines > 0 ==> Lines(file) == AtMost(Lines(contents), maxLines))
      ensures maxLines <= 0 || Lines(contents) <= maxLines ==> file == contents
    {
      file := contents;
      this.maxLines := maxLines;
      this.trimReserve := trimReserve;
      dropped, starts := [], {};
      openLine := |contents| > 0 && contents[|contents| - 1] != LF;
      new;
      NothingCut(dropped, contents);
      lineCount := CountBytesLines(contents);
      if maxLines > 0 && lineCount > maxLines {
        TrimToLastLines(maxLines);
      }
    }

    /** The lines that a payload adds to the file as it is. The guard against a
        negative count never fires. */
    method CountIncomingLines(payload: seq<Byte>) returns (delta: int)
      requires openLine == IsOpen(file)
      ensures delta == Lines(file + payload) - Lines(file) >= 0
    {
      LinesConcat(file, payload);
      if |payload| == 0 {
        return 0;
      }
      var newlineCount := CountByte(payload);
      var endsWithNewline := payload[|payload| - 1] == LF;
      LinesOfNonempty(payload);
      delta := newlineCount;
      if openLine && endsWithNewline {
        delta := delta - 1;
      } else if !openLine && !endsWithNewline {
        delta := delta + 1;
      }
      if delta < 0 {
        assert false;
      }
    }

    method TrimToLastLines(targetLines: int)
      requires Valid()
      modifies this`file, this`lineCount, this`openLine, this`dropped, this`starts
      ensures Valid() && Log() == old(Log()) && CutBetweenLines(old(file), file)
      ensures Lines(file) == AtMost(Lines(old(file)), targetLines)
      ensures starts == if targetLines <= 0 then old(starts) + {|Log()|} else old(starts)
      ensures dropped == old(dropped) || EndsLine(dropped) || file == []
    {
      var trimmed, count, at := LastLinesBytes(file, targetLines);
      MoveCut(dropped, file, at);
      dropped := dropped + file[..at];
      file := trimmed;
      lineCount := count;
      openLine := |trimmed| > 0 && trimmed[|trimmed| - 1] != LF;
      starts := if targetLines <= 0 then starts + {|dropped|} else starts;
    }

    /** Trims the file when the whole payload would overflow the window. */
    method MakeRoom(payload: seq<Byte>)
      requires Valid()
      modifies this`file, this`lineCount, this`openLine, this`dropped, this`starts
      ensures Valid() && Log() == old(Log())
      ensures old(starts) <= starts <= old(starts) + {|Log()|}
      ensures dropped == old(dropped) || EndsLine(dropped) || file == []
      ensures Trimmed(old(file), payload, maxLines, trimReserve, file)
    {
      var newLines := CountIncomingLines(payload);
      if maxLines > 0 && newLines > 0 && lineCount + newLines > maxLines {
        var target := maxLines - newLines - trimReserve;
        if target < 0 {
          target := maxLines - newLines;
        }
        if target < 0 {
          target := 0;
        }
        TrimToLastLines(target);
      }
    }

    /** The append itself, of as many bytes as the file took. */
    method Append(taken: seq<Byte>)
      requires Valid()
      modifies this`file, this`lineCount, this`openLine
      ensures Valid() && file == old(file) + taken
    {
      var added := CountIncomingLines(taken);
      OpenAfter(file, taken);
      file := file + taken;
      lineCount := lineCount + added;
      if |taken| > 0 {
        openLine := taken[|taken| - 1] != LF;
      }
    }

    /** Appends the first `accepted` bytes of the payload, trimming first when the
        whole payload would overflow the window. What is dropped ends with a newline
        or is everything before this payload. */
    method Write(payload: seq<Byte>, accepted: nat) returns (written: nat)
      requires Valid() && accepted <= |payload|
      modifies this`file, this`lineCount, this`openLine, this`dropped, this`starts
      ensures Valid() && written == accepted
      ensures Log() == old(Log()) + payload[..accepted]
      ensures old(starts) <= starts <= old(starts) + {|old(Log())|}
      ensures dropped == old(dropped) || EndsLine(dropped) || dropped == old(Log())
      ensures Rewrites(old(file), payload, accepted, maxLines, trimReserve, file)
    {
      MakeRoom(payload);
      WriteTakes(old(file), payload, accepted, maxLines, trimReserve, dropped, file);
      Append(payload[..accepted]);
      written := accepted;
    }
  }

  lemma WriteTakes(before: seq<Byte>, payload: seq<Byte>, accepted: nat, maxLines: int, trimReserve: int,
                   dropped: seq<Byte>, kept: seq<Byte>)
    requires accepted <= |payload| && Trimmed(before, payload, maxLines, trimReserve, kept)
    ensures Rewrites(before, payload, accepted, maxLines, trimReserve, kept + payload[..accepted])
    ensures dropped + (kept + payload[..accepted]) == (dropped + kept) + payload[..accepted]
    ensures kept == [] ==> dropped + kept == dropped
  {
    assert (kept + payload[..accepted])[..|kept|] == kept;
  }

  lemma MoveCut(dropped: seq<Byte>, file: seq<Byte>, at: nat)
    requires at <= |file|
    ensures (dropped + file[..at]) + file[at..] == dropped + file
    ensures at == 0 ==> dropped + file[..at] == dropped
    ensures at > 0 ==> (dropped + file[..at])[|dropped| + at - 1] == file[at - 1]
    ensures IsSuffix(file[at..], file)
  {
  }

  lemma OpenAfter(file: seq<Byte>, taken: seq<Byte>)
    ensures IsOpen(file + taken) == if taken == [] then IsOpen(file) else taken[|taken| - 1] != LF
  {
    if taken == [] {
      assert file + taken == file;
    } else {
      assert (file + taken)[|file + taken| - 1] == taken[|taken| - 1];
    }
  }

  // ----- whole runs

  /** A write of a payload of which the file takes so many bytes. */
  datatype Attempt = Attempt(payload: seq<Byte>, accepted: nat)

  predicate StepOk(files: seq<seq<Byte>>, attempts: seq<Attempt>, maxLines: int, trimReserve: int, i: nat)
    requires |files| == |attempts| + 1 && i < |attempts|
  {
    Rewrites(files[i], attempts[i].payload, attempts[i].accepted, maxLines, trimReserve, files[i + 1])
  }

  /** The file over any writes, from its contents on opening. */
  ghost predicate IsRun(files: seq<seq<Byte>>, contents: seq<Byte>, attempts: seq<Attempt>, maxLines: int, trimReserve: int) {
    && |files| == |attempts| + 1
    && CutBetweenLines(contents, files[0]) && (maxLines > 0 ==> Lines(files[0]) == AtMost(Lines(contents), maxLines))
    && forall i :: 0 <= i < |attempts| ==> StepOk(files, attempts, maxLines, trimReserve, i)
  }

  /** Everything that was in the log after n writes, were nothing ever trimmed. */
  function Everything(contents: seq<Byte>, attempts: seq<Attempt>, n: nat): seq<Byte>
    requires n <= |attempts| && forall i :: 0 <= i < n ==> attempts[i].accepted <= |attempts[i].payload|
  {
    if n == 0 then contents
    else Everything(contents, attempts, n - 1) + attempts[n - 1].payload[..attempts[n - 1].accepted]
  }

  /** Position d of everything is between lines or at the start of a payload. */
  ghost predicate CutOfRun(contents: seq<Byte>, attempts: seq<Attempt>, n: nat, d: nat)
    requires n <= |attempts| && forall i :: 0 <= i < n ==> attempts[i].accepted <= |attempts[i].payload|
  {
    || LineStart(Everything(contents, attempts, n), d)
    || exists i :: 0 <= i <= n && d == |Everything(contents, attempts, i)|
  }

  /** The file is a suffix of everything written, cut between lines or where a payload
      starts. */
  ghost predicate KeptOf(contents: seq<Byte>, attempts: seq<Attempt>, n: nat, file: seq<Byte>)
    requires n <= |attempts| && forall i :: 0 <= i < n ==> attempts[i].accepted <= |attempts[i].payload|
  {
    && IsSuffix(file, Everything(contents, attempts, n))
    && CutOfRun(contents, attempts, n, |Everything(contents, attempts, n)| - |file|)
  }

  lemma KeptOnOpening(contents: seq<Byte>, attempts: seq<Attempt>, file: seq<Byte>)
    requires CutBetweenLines(contents, file)
    ensures KeptOf(contents, attempts, 0, file)
  {
    assert Everything(contents, attempts, 0) == contents;
  }

  lemma KeptByWrite(contents: seq<Byte>, attempts: seq<Attempt>, n: nat, before: seq<Byte>, kept: seq<Byte>)
    requires n < |attempts| && forall i :: 0 <= i <= n ==> attempts[i].accepted <= |attempts[i].payload|
    requires KeptOf(contents, attempts, n, before) && CutBetweenLines(before, kept)
    ensures KeptOf(contents, attempts, n + 1, kept + attempts[n].payload[..attempts[n].accepted])
  {
    SuffixGrows(before, Everything(contents, attempts, n), kept, attempts[n].payload[..attempts[n].accepted]);
    CutMoves(before, contents, attempts, n + 1, kept);
  }

  lemma KeptByStep(files: seq<seq<Byte>>, contents: seq<Byte>, attempts: seq<Attempt>, maxLines: int, trimReserve: int, n: nat)
    requires |files| == |attempts| + 1 && n < |attempts| && StepOk(files, attempts, maxLines, trimReserve, n)
    requires forall i :: 0 <= i < n ==> attempts[i].accepted <= |attempts[i].payload|
    requires KeptOf(contents, attempts, n, files[n])
    ensures attempts[n].accepted <= |attempts[n].payload|
    ensures KeptOf(contents, attempts, n + 1, files[n + 1])
  {
    var a, after := attempts[n], files[n + 1];
    var kept := after[..|after| - a.accepted];
    assert after == kept + a.payload[..a.accepted];
    KeptByWrite(contents, attempts, n, files[n], kept);
  }

  lemma {:induction false} RunKeepsSuffix(files: seq<seq<Byte>>, contents: seq<Byte>, attempts: seq<Attempt>,
                                          maxLines: int, trimReserve: int, n: nat)
    requires IsRun(files, contents, attempts, maxLines, trimReserve) && n <= |attempts|
    ensures forall i :: 0 <= i < n ==> attempts[i].accepted <= |attempts[i].payload|
    ensures KeptOf(contents, attempts, n, files[n])
  {
    if n == 0 {
      KeptOnOpening(contents, attempts, files[0]);
    } else {
      RunKeepsSuffix(files, contents, attempts, maxLines, trimReserve, n - 1);
      KeptByStep(files, contents, attempts, maxLines, trimReserve, n - 1);
    }
  }

  lemma StartStays(log: seq<Byte>, all: seq<Byte>, d: nat)
    requires LineStart(log, d) && log <= all
    ensures LineStart(all, d)
  {
  }

  /** A line start within a suffix is one of the whole. */
  lemma CutOfSuffix(file: seq<Byte>, log: seq<Byte>, kept: seq<Byte>)
    requires IsSuffix(file, log) && CutBetweenLines(file, kept) && 0 < |kept| < |file|
    ensures LineStart(log, |log| - |kept|)
  {
    assert file[|file| - |kept| - 1] == log[|log| - |kept| - 1];
  }

  lemma CutMoves(file: seq<Byte>, contents: seq<Byte>, attempts: seq<Attempt>, n: nat, kept: seq<Byte>)
    requires 0 < n <= |attempts| && forall i :: 0 <= i < n ==> attempts[i].accepted <= |attempts[i].payload|
    requires var log := Everything(contents, attempts, n - 1);
             IsSuffix(file, log) && CutBetweenLines(file, kept) && CutOfRun(contents, attempts, n - 1, |log| - |file|)
    ensures CutOfRun(contents, attempts, n, |Everything(contents, attempts, n - 1)| - |kept|)
  {
    var log, all := Everything(contents, attempts, n - 1), Everything(contents, attempts, n);
    assert log <= all;
    var d := |log| - |kept|;
    if kept == [] {
      assert d == |Everything(contents, attempts, n - 1)|;
    } else if |kept| < |file| {
      CutOfSuffix(file, log, kept);
      StartStays(log, all, d);
    } else if LineStart(log, d) {
      StartStays(log, all, d);
    }
  }

  lemma SuffixGrows(file: seq<Byte>, log: seq<Byte>, kept: seq<Byte>, taken: seq<Byte>)
    requires IsSuffix(file, log) && IsSuffix(kept, file)
    ensures IsSuffix(kept + taken, log + taken)
  {
    assert kept == log[|log| - |kept|..];
    assert (log + taken)[|log| - |kept|..] == log[|log| - |kept|..] + taken;
  }

  lemma StepStaysInWindow(files: seq<seq<Byte>>, attempts: seq<Attempt>, maxLines: int, trimReserve: int, i: nat)
    requires |files| == |attempts| + 1 && i < |attempts| && StepOk(files, attempts, maxLines, trimReserve, i)
    requires maxLines > 0 && trimReserve >= 0 && Lines(files[i]) <= maxLines && Lines(attempts[i].payload) <= maxLines
    ensures Lines(files[i + 1]) <= maxLines
  {
    WindowIsKept(files[i], attempts[i].payload, attempts[i].accepted, maxLines, trimReserve, files[i + 1]);
  }

  /** Over whole runs in which every payload fits the window, the file never
      outgrows it. */
  lemma {:induction false} RunStaysInWindow(files: seq<seq<Byte>>, contents: seq<Byte>, attempts: seq<Attempt>,
                                            maxLines: int, trimReserve: int, n: nat)
    requires IsRun(files, contents, attempts, maxLines, trimReserve) && n <= |attempts|
    requires maxLines > 0 && trimReserve >= 0
    requires forall i :: 0 <= i < |attempts| ==> Lines(attempts[i].payload) <= maxLines
    ensures Lines(files[n]) <= maxLines
  {
    if n > 0 {
      RunStaysInWindow(files, contents, attempts, maxLines, trimReserve, n - 1);
      StepStaysInWindow(files, attempts, maxLines, trimReserve, n - 1);
    }
  }
}
