/** Keeping a conversation within a model's input budget: summarise the old part,
    then drop the oldest messages. The summariser may answer anything or fail. */
module Compaction {
  import opened Basics

  /** Text is a sequence of UTF-16 code units. */
  type CodeUnit = u: int | 0 <= u < 0x1_0000
  type Text = seq<CodeUnit>

  datatype Part = TextPart(text: Text) | OtherPart(json: Text)
  datatype Content = Plain(text: Text) | Parts(parts: seq<Part>) | NoContent
  datatype Role = System | User | Assistant | OtherRole

  /** Tool calls are given by their JSON text. */
  datatype Message = Message(role: Role, content: Content, toolCalls: Option<Text>)

  // ----- token estimates

  /** The ASCII units among the first n. */
  function AsciiFirst(text: Text, n: nat): nat
    requires n <= |text|
  {
    if n == 0 then 0 else AsciiFirst(text, n - 1) + if text[n - 1] < 128 then 1 else 0
  }

  function AsciiCount(text: Text): nat {
    AsciiFirst(text, |text|)
  }

  function Ceiling(x: real): int {
    -((-x).Floor)
  }

  /** Four ASCII units make a token, and one and a half others do; rounded up. */
  function Tokens(text: Text): int {
    Ceiling(AsciiCount(text) as real / 4.0 + (|text| - AsciiCount(text)) as real / 1.5)
  }

  /** The positions of the units below 128, among the first n. */
  function AsciiPositions(text: Text, n: nat): set<nat>
    requires n <= |text|
  {
    set i: nat | i < n && text[i] < 128
  }

  lemma {:induction false} AsciiCountIs(text: Text, n: nat)
    requires n <= |text|
    ensures AsciiFirst(text, n) == |AsciiPositions(text, n)| <= n
  {
    if n == 0 {
      assert AsciiPositions(text, 0) == {};
    } else {
      AsciiCountIs(text, n - 1);
      var before, k := AsciiPositions(text, n - 1), n - 1;
      assert AsciiPositions(text, n) == if text[k] < 128 then before + {k} else before;
    }
  }

  lemma CeilingIs(x: real)
    ensures (Ceiling(x) - 1) as real < x <= Ceiling(x) as real
  {
  }

  /** The estimate in whole numbers: the least one that is at least a quarter for each
      unit below 128 and two thirds for each other unit. */
  lemma TokensAreLeast(text: Text)
    ensures var ascii := |set i: nat | i < |text| && text[i] < 128|;
            12 * (Tokens(text) - 1) < 3 * ascii + 8 * (|text| - ascii) <= 12 * Tokens(text)
  {
    AsciiCountIs(text, |text|);
    assert AsciiPositions(text, |text|) == set i: nat | i < |text| && text[i] < 128;
    var x := AsciiCount(text) as real / 4.0 + (|text| - AsciiCount(text)) as real / 1.5;
    CeilingIs(x);
    assert 12.0 * x == 3.0 * AsciiCount(text) as real + 8.0 * (|text| - AsciiCount(text)) as real;
  }

  method EstimateTokens(text: Text) returns (tokens: int)
    ensures tokens == Tokens(text)
  {
    if |text| == 0 {
      return 0;
    }
    var ascii, nonAscii := 0, 0;
    for i := 0 to |text|
      invariant ascii == AsciiFirst(text, i) && ascii + nonAscii == i
    {
      if text[i] < 128 {
        ascii := ascii + 1;
      } else {
        nonAscii := nonAscii + 1;
      }
    }
    tokens := Ceiling(ascii as real / 4.0 + nonAscii as real / 1.5);
  }

  function PartTokens(p: Part): int {
    match p
    case TextPart(text) => Tokens(text)
    case OtherPart(json) => Tokens(json)
  }

  function PartsFirst(parts: seq<Part>, n: nat): int
    requires n <= |parts|
  {
    if n == 0 then 0 else PartsFirst(parts, n - 1) + PartTokens(parts[n - 1])
  }

  function MessageTokens(m: Message): int {
    4
    + (match m.content case Plain(text) => Tokens(text) case Parts(parts) => PartsFirst(parts, |parts|) case NoContent => 0)
    + (match m.toolCalls case None => 0 case Some(json) => Tokens(json))
  }

  /** The estimate of the first n messages. */
  function EstimateFirst(messages: seq<Message>, n: nat): int
    requires n <= |messages|
  {
    if n == 0 then 0 else EstimateFirst(messages, n - 1) + MessageTokens(messages[n - 1])
  }

  function Estimate(messages: seq<Message>): int {
    EstimateFirst(messages, |messages|)
  }

  method EstimateParts(parts: seq<Part>) returns (total: int)
    ensures total == PartsFirst(parts, |parts|)
  {
    total := 0;
    for k := 0 to |parts|
      invariant total == PartsFirst(parts, k)
    {
      var more := EstimateTokens(if parts[k].TextPart? then parts[k].text else parts[k].json);
      total := total + more;
    }
  }

  method EstimateMessages(messages: seq<Message>) returns (total: int)
    ensures total == Estimate(messages)
  {
    total := 0;
    for i := 0 to |messages|
      invariant total == EstimateFirst(messages, i)
    {
      var msg := messages[i];
      total := total + 4;
      match msg.content {
        case Plain(text) =>
          var more := EstimateTokens(text);
          total := total + more;
        case Parts(parts) =>
          var more := EstimateParts(parts);
          total := total + more;
        case NoContent =>
      }
      if msg.toolCalls.Some? {
        var more := EstimateTokens(msg.toolCalls.value);
        total := total + more;
      }
    }
  }

  lemma {:induction false} EstimatePrefix(a: seq<Message>, b: seq<Message>, n: nat)
    requires n <= |a|
    ensures EstimateFirst(a + b, n) == EstimateFirst(a, n)
  {
    if n > 0 {
      EstimatePrefix(a, b, n - 1);
    }
  }

  lemma {:induction false} EstimateBeyond(a: seq<Message>, b: seq<Message>, n: nat)
    requires n <= |b|
    ensures EstimateFirst(a + b, |a| + n) == Estimate(a) + EstimateFirst(b, n)
  {
    if n == 0 {
      EstimatePrefix(a, b, |a|);
    } else {
      EstimateBeyond(a, b, n - 1);
      assert (a + b)[|a| + n - 1] == b[n - 1];
    }
  }

  lemma EstimateConcat(a: seq<Message>, b: seq<Message>)
    ensures Estimate(a + b) == Estimate(a) + Estimate(b)
  {
    EstimateBeyond(a, b, |b|);
  }

  lemma EstimateAppend(a: seq<Message>, m: Message)
    ensures Estimate(a + [m]) == Estimate(a) + MessageTokens(m)
  {
    EstimatePrefix(a, [m], |a|);
  }

  lemma {:induction false} PartsPrefix(a: seq<Part>, b: seq<Part>, n: nat)
    requires n <= |a|
    ensures PartsFirst(a + b, n) == PartsFirst(a, n)
  {
    if n > 0 {
      PartsPrefix(a, b, n - 1);
    }
  }

  /** What a message counts: four, its text or the sum over its parts, and its tool
      calls; a list counts the sum of its messages. */
  lemma MessageCounts(role: Role, text: Text, parts: seq<Part>, part: Part, json: Text, a: seq<Message>, b: seq<Message>)
    ensures Estimate(a + b) == Estimate(a) + Estimate(b) && Estimate([]) == 0
    ensures Estimate([Message(role, NoContent, None)]) == 4
    ensures Estimate([Message(role, Plain(text), None)]) == 4 + Tokens(text)
    ensures Estimate([Message(role, Parts([]), None)]) == 4
    ensures Estimate([Message(role, Parts(parts + [TextPart(text)]), None)]) == Estimate([Message(role, Parts(parts), None)]) + Tokens(text)
    ensures Estimate([Message(role, Parts(parts + [OtherPart(json)]), None)]) == Estimate([Message(role, Parts(parts), None)]) + Tokens(json)
    ensures forall content :: Estimate([Message(role, content, Some(json))]) == Estimate([Message(role, content, None)]) + Tokens(json)
  {
    EstimateConcat(a, b);
    PartsPrefix(parts, [TextPart(text)], |parts|);
    PartsPrefix(parts, [OtherPart(json)], |parts|);
    forall m
      ensures Estimate([m]) == MessageTokens(m)
    {
      assert EstimateFirst([m], 1) == EstimateFirst([m], 0) + MessageTokens([m][0]);
    }
  }

  // ----- system messages and the rest

  /** The system messages among the first n. */
  function SystemsFirst(messages: seq<Message>, n: nat): seq<Message>
    requires n <= |messages|
  {
    if n == 0 then []
    else if messages[n - 1].role == System then SystemsFirst(messages, n - 1) + [messages[n - 1]]
    else SystemsFirst(messages, n - 1)
  }

  /** The other messages among the first n. */
  function OthersFirst(messages: seq<Message>, n: nat): seq<Message>
    requires n <= |messages|
  {
    if n == 0 then []
    else if messages[n - 1].role != System then OthersFirst(messages, n - 1) + [messages[n - 1]]
    else OthersFirst(messages, n - 1)
  }

  function Systems(messages: seq<Message>): seq<Message> {
    SystemsFirst(messages, |messages|)
  }

  function Others(messages: seq<Message>): seq<Message> {
    OthersFirst(messages, |messages|)
  }

  predicate NoSystem(messages: seq<Message>) {
    forall i :: 0 <= i < |messages| ==> messages[i].role != System
  }

  predicate AllSystem(messages: seq<Message>) {
    forall i :: 0 <= i < |messages| ==> messages[i].role == System
  }

  lemma {:induction false} SplitFirst(messages: seq<Message>, n: nat)
    requires n <= |messages|
    ensures AllSystem(SystemsFirst(messages, n)) && NoSystem(OthersFirst(messages, n))
    ensures |SystemsFirst(messages, n)| + |OthersFirst(messages, n)| == n
    ensures Estimate(SystemsFirst(messages, n)) + Estimate(OthersFirst(messages, n)) == EstimateFirst(messages, n)
  {
    if n > 0 {
      SplitFirst(messages, n - 1);
      EstimateAppend(SystemsFirst(messages, n - 1), messages[n - 1]);
      EstimateAppend(OthersFirst(messages, n - 1), messages[n - 1]);
    }
  }

  lemma {:induction false} SplitPrefix(a: seq<Message>, b: seq<Message>, n: nat)
    requires n <= |a|
    ensures SystemsFirst(a + b, n) == SystemsFirst(a, n) && OthersFirst(a + b, n) == OthersFirst(a, n)
  {
    if n > 0 {
      SplitPrefix(a, b, n - 1);
    }
  }

  /** Splitting keeps the order within each part. */
  lemma SplitInOrder(messages: seq<Message>, m: Message)
    ensures Systems([]) == [] && Others([]) == []
    ensures m.role == System ==> Systems(messages + [m]) == Systems(messages) + [m] && Others(messages + [m]) == Others(messages)
    ensures m.role != System ==> Systems(messages + [m]) == Systems(messages) && Others(messages + [m]) == Others(messages) + [m]
  {
    SplitPrefix(messages, [m], |messages|);
  }

  predicate Together(a: seq<Message>, b: seq<Message>, all: seq<Message>) {
    multiset(a) + multiset(b) == multiset(all)
  }

  lemma OneMoreTogether(a: seq<Message>, b: seq<Message>, all: seq<Message>, m: Message)
    requires Together(a, b, all)
    ensures Together(a + [m], b, all + [m]) && Together(a, b + [m], all + [m])
  {
  }

  lemma NoneTogether(none: seq<Message>)
    requires none == []
    ensures Together([], [], none)
  {
  }

  lemma SplitNext(messages: seq<Message>, n: nat)
    requires n < |messages| && Together(SystemsFirst(messages, n), OthersFirst(messages, n), messages[..n])
    ensures Together(SystemsFirst(messages, n + 1), OthersFirst(messages, n + 1), messages[..n + 1])
  {
    OneMoreTogether(SystemsFirst(messages, n), OthersFirst(messages, n), messages[..n], messages[n]);
    assert messages[..n + 1] == messages[..n] + [messages[n]];
  }

  /** Nothing is lost or added by splitting. */
  lemma {:induction false} SplitIsPermutation(messages: seq<Message>, n: nat)
    requires n <= |messages|
    ensures Together(SystemsFirst(messages, n), OthersFirst(messages, n), messages[..n])
  {
    if n == 0 {
      NoneTogether(messages[..0]);
    } else {
      SplitIsPermutation(messages, n - 1);
      SplitNext(messages, n - 1);
    }
  }

  lemma SplitRoles(messages: seq<Message>)
    ensures AllSystem(Systems(messages)) && NoSystem(Others(messages))
    ensures |Systems(messages)| + |Others(messages)| == |messages|
    ensures Estimate(Systems(messages) + Others(messages)) == Estimate(messages)
  {
    SplitFirst(messages, |messages|);
    EstimateConcat(Systems(messages), Others(messages));
  }

  /** Splitting by role loses no message, and moving the system messages to the front
      does not change the estimate. */
  lemma SplitByRole(messages: seq<Message>)
    ensures AllSystem(Systems(messages)) && NoSystem(Others(messages))
    ensures multiset(Systems(messages) + Others(messages)) == multiset(messages)
    ensures Estimate(Systems(messages) + Others(messages)) == Estimate(messages)
  {
    SplitRoles(messages);
    SplitIsPermutation(messages, |messages|);
    assert messages[..|messages|] == messages;
  }

  lemma {:induction false} SplitSystemPart(system: seq<Message>, rest: seq<Message>, n: nat)
    requires AllSystem(system) && n <= |system|
    ensures SystemsFirst(system + rest, n) == system[..n] && OthersFirst(system + rest, n) == []
  {
    if n > 0 {
      SplitSystemPart(system, rest, n - 1);
      assert (system + rest)[n - 1] == system[n - 1];
    }
  }

  lemma {:induction false} SplitOtherPart(system: seq<Message>, rest: seq<Message>, n: nat)
    requires AllSystem(system) && NoSystem(rest) && n <= |rest|
    ensures SystemsFirst(system + rest, |system| + n) == system && OthersFirst(system + rest, |system| + n) == rest[..n]
  {
    if n == 0 {
      SplitSystemPart(system, rest, |system|);
    } else {
      SplitOtherPart(system, rest, n - 1);
      assert (system + rest)[|system| + n - 1] == rest[n - 1];
    }
  }

  /** Splitting a list that is already split. */
  lemma SplitOfSplit(system: seq<Message>, rest: seq<Message>)
    requires AllSystem(system) && NoSystem(rest)
    ensures Systems(system + rest) == system && Others(system + rest) == rest
  {
    SplitOtherPart(system, rest, |rest|);
  }

  // ----- hard truncation

  /** Dropping only d messages leaves more than two of them and is over the target. */
  predicate TooFew(system: seq<Message>, rest: seq<Message>, target: int, d: nat)
    requires d <= |rest|
  {
    |rest| - d > 2 && Estimate(system + rest[d..]) > target
  }

  /** The number of messages that truncation drops: the fewest that bring the
      estimate to the target, but never so many that fewer than two remain. */
  predicate FewestDropped(system: seq<Message>, rest: seq<Message>, target: int, dropped: nat) {
    && dropped <= |rest|
    && !TooFew(system, rest, target, dropped)
    && forall d :: 0 <= d < dropped ==> TooFew(system, rest, target, d)
  }

  method HardTruncateMessages(messages: seq<Message>, target: int) returns (r: seq<Message>, ghost dropped: nat)
    ensures FewestDropped(Systems(messages), Others(messages), target, dropped)
    ensures r == Systems(messages) + Others(messages)[dropped..]
  {
    var system := Systems(messages);
    var rest := Others(messages);
    ghost var others := rest;
    dropped := 0;
    assert rest == others[dropped..];
    var estimate := EstimateMessages(system + rest);
    while |rest| > 2 && estimate > target
      invariant dropped <= |others| && rest == others[dropped..]
      invariant estimate == Estimate(system + rest)
      invariant forall d :: 0 <= d < dropped ==> TooFew(system, others, target, d)
      decreases |rest|
    {
      assert TooFew(system, others, target, dropped);
      rest := rest[1..];
      dropped := dropped + 1;
      estimate := EstimateMessages(system + rest);
    }
    r := system + rest;
  }

  // ----- compaction

  const KEEP_RECENT: nat := 10
  const MIN_MESSAGES: nat := 15
  const MIN_TO_SUMMARIZE: nat := 3

  /** Four fifths and nineteen twentieths of the input limit, rounded down. */
  function SoftThreshold(limit: nat): nat {
    limit * 80 / 100
  }

  function HardCeiling(limit: nat): nat {
    limit * 95 / 100
  }

  /** JavaScript's slice from a negated count: a count of zero takes everything. */
  function TakeLast(s: seq<Message>, count: nat): seq<Message> {
    if count == 0 || count > |s| then s else s[|s| - count..]
  }

  /** And slice up to a negated count: a count of zero takes nothing. */
  function DropLast(s: seq<Message>, count: nat): seq<Message> {
    if count == 0 || count > |s| then [] else s[..|s| - count]
  }

  function KeepCount(n: nat): nat {
    if n / 2 < KEEP_RECENT then n / 2 else KEEP_RECENT
  }

  /** Old and recent messages together are the whole list, also when nothing is to
      be kept. */
  lemma OldAndRecent(s: seq<Message>)
    ensures DropLast(s, KeepCount(|s|)) + TakeLast(s, KeepCount(|s|)) == s
  {
  }

  /** What became of the summary request: a text (possibly empty), or a failure. */
  datatype Outcome = Summary(text: Text) | Failed

  function Units(s: string): (t: Text)
    ensures |t| == |s| && forall i :: 0 <= i < |s| && s[i] as int < 0x1_0000 ==> t[i] == s[i] as int
  {
    seq(|s|, i requires 0 <= i < |s| => if s[i] as int < 0x1_0000 then s[i] as int else 0xFFFD)
  }

  function SummaryMessage(text: Text): Message {
    Message(User, Plain(Units("[Conversation Summary]\n") + text), None)
  }

  const ACKNOWLEDGMENT: Message :=
    Message(Assistant, Plain(Units("Understood. I have the full context from the conversation summary. Let me continue.")), None)

  class Request {
    var messages: seq<Message>

    constructor (messages: seq<Message>)
      ensures this.messages == messages
    {
      this.messages := messages;
    }

    method HardTruncateIfOver(system: seq<Message>, rest: seq<Message>, limit: nat)
      requires system == Systems(messages) && rest == Others(messages)
      modifies this
      ensures Truncated(old(messages), Systems(old(messages)), Others(old(messages)), HardCeiling(limit), messages)
    {
      SplitRoles(messages);
      var est := EstimateMessages(system + rest);
      if est <= HardCeiling(limit) {
        return;
      }
      SplitOfSplit(system, rest);
      ghost var dropped;
      messages, dropped := HardTruncateMessages(system + rest, HardCeiling(limit));
    }

    method CompactIfNeeded(limit: nat, maxMode: bool, outcome: Outcome)
      modifies this
      ensures Compacted(old(messages), limit, maxMode, outcome, messages)
    {
      if |messages| < MIN_MESSAGES {
        return;
      }
      var estimated := EstimateMessages(messages);
      var threshold := if maxMode then SoftThreshold(limit) else HardCeiling(limit);
      if estimated <= threshold {
        return;
      }
      var systemMsgs := Systems(messages);
      var nonSystemMsgs := Others(messages);
      var keepCount := KeepCount(|nonSystemMsgs|);
      var recentMsgs := TakeLast(nonSystemMsgs, keepCount);
      var oldMsgs := DropLast(nonSystemMsgs, keepCount);
      if |oldMsgs| < MIN_TO_SUMMARIZE {
        HardTruncateIfOver(systemMsgs, nonSystemMsgs, limit);
        return;
      }
      if outcome.Failed? || outcome.text == [] {
        HardTruncateIfOver(systemMsgs, nonSystemMsgs, limit);
        return;
      }
      var rest := [SummaryMessage(outcome.text), ACKNOWLEDGMENT] + recentMsgs;
      messages := systemMsgs + rest;
      var postEst := EstimateMessages(messages);
      SplitRoles(old(messages));
      SplitOfSplit(systemMsgs, rest);
      if postEst > HardCeiling(limit) {
        ghost var dropped;
        messages, dropped := HardTruncateMessages(messages, HardCeiling(limit));
      }
    }
  }

  /** The result of truncating a list if its estimate is over the ceiling: as it
      was, or the system messages and a suffix of the rest with the fewest dropped. */
  ghost predicate Truncated(original: seq<Message>, system: seq<Message>, rest: seq<Message>, ceiling: int, result: seq<Message>) {
    if Estimate(system + rest) <= ceiling then result == original
    else exists dropped: nat :: FewestDropped(system, rest, ceiling, dropped) && result == system + rest[dropped..]
  }

  /** Whether the old messages are to be replaced by a summary. */
  predicate Summarised(messages: seq<Message>, outcome: Outcome) {
    var others := Others(messages);
    |DropLast(others, KeepCount(|others|))| >= MIN_TO_SUMMARIZE && outcome.Summary? && outcome.text != []
  }

  function WithSummary(messages: seq<Message>, outcome: Outcome): seq<Message>
    requires outcome.Summary?
  {
    [SummaryMessage(outcome.text), ACKNOWLEDGMENT] + TakeLast(Others(messages), KeepCount(|Others(messages)|))
  }

  ghost predicate Compacted(messages: seq<Message>, limit: nat, maxMode: bool, outcome: Outcome, result: seq<Message>) {
    var threshold := if maxMode then SoftThreshold(limit) else HardCeiling(limit);
    if |messages| < MIN_MESSAGES || Estimate(messages) <= threshold then result == messages
    else if Summarised(messages, outcome) then
      var rest := WithSummary(messages, outcome);
      Truncated(Systems(messages) + rest, Systems(messages), rest, HardCeiling(limit), result)
    else Truncated(messages, Systems(messages), Others(messages), HardCeiling(limit), result)
  }

  // ----- what compaction guarantees

  predicate IsSuffix(s: seq<Message>, whole: seq<Message>) {
    |s| <= |whole| && s == whole[|whole| - |s|..]
  }

  /** These are the last of the other messages, and dropping any fewer would leave
      more than two and put the list over the ceiling. */
  predicate LongestSuffix(system: seq<Message>, rest: seq<Message>, ceiling: int, kept: seq<Message>) {
    && IsSuffix(kept, rest)
    && forall d :: 0 <= d < |rest| - |kept| ==> TooFew(system, rest, ceiling, d)
  }

  /** The number of recent messages that stay beside a summary of n messages. */
  function Recent(n: nat): nat {
    if n < 20 then n / 2 else 10
  }

  /** A summary is made of a conversation of 15 or more messages that is over its
      threshold, in hundredths of the limit, if three or more messages are old and the
      summariser answers. */
  predicate Replaced(messages: seq<Message>, limit: nat, maxMode: bool, outcome: Outcome) {
    var n := |Others(messages)|;
    && |messages| >= 15 && 100 * Estimate(messages) > (if maxMode then 80 else 95) * limit
    && n - Recent(n) >= 3 && outcome.Summary? && outcome.text != []
  }

  lemma ThresholdIff(limit: nat, estimate: int)
    ensures estimate <= SoftThreshold(limit) <==> 100 * estimate <= 80 * limit
    ensures estimate <= HardCeiling(limit) <==> 100 * estimate <= 95 * limit
  {
  }

  lemma ReplacedIff(messages: seq<Message>, limit: nat, maxMode: bool, outcome: Outcome)
    ensures Replaced(messages, limit, maxMode, outcome) <==>
              && |messages| >= MIN_MESSAGES && Estimate(messages) > (if maxMode then SoftThreshold(limit) else HardCeiling(limit))
              && Summarised(messages, outcome)
  {
    ThresholdIff(limit, Estimate(messages));
  }

  /** A summary, an acknowledgment and the recent messages. */
  predicate IsSummarised(others: seq<Message>, text: Text, rest: seq<Message>) {
    && |rest| == 2 + Recent(|others|)
    && rest[0] == Message(User, Plain(Units("[Conversation Summary]\n") + text), None)
    && rest[1] == Message(Assistant, Plain(Units(
         "Understood. I have the full context from the conversation summary. Let me continue.")), None)
    && rest[2..] == others[|others| - Recent(|others|)..]
  }

  lemma SummaryIs(messages: seq<Message>, limit: nat, maxMode: bool, outcome: Outcome)
    requires Replaced(messages, limit, maxMode, outcome)
    ensures IsSummarised(Others(messages), outcome.text, WithSummary(messages, outcome)) && NoSystem(WithSummary(messages, outcome))
  {
    SplitRoles(messages);
  }

  /** For every conversation and whatever the summariser does. A short one, or one
      within its threshold, stays as it is. Otherwise the result is within 95 hundredths
      of the limit or down to two other messages; the system messages all survive in
      order; the other messages are the longest suffix allowed of a list: the original
      other messages, or a summary, an acknowledgment and the last ten or half of them,
      so that nothing is dropped that need not be. */
  lemma CompactionContract(messages: seq<Message>, limit: nat, maxMode: bool, outcome: Outcome, result: seq<Message>)
    returns (rest: seq<Message>)
    requires Compacted(messages, limit, maxMode, outcome, result)
    ensures |messages| < 15 || 100 * Estimate(messages) <= (if maxMode then 80 else 95) * limit ==> result == messages
    ensures |messages| >= 15 ==> 100 * Estimate(result) <= 95 * limit || |Others(result)| <= 2
    ensures Systems(result) == Systems(messages)
    ensures if Replaced(messages, limit, maxMode, outcome) then IsSummarised(Others(messages), outcome.text, rest)
            else rest == Others(messages)
    ensures LongestSuffix(Systems(messages), rest, limit * 95 / 100, Others(result))
  {
    var system, others := Systems(messages), Others(messages);
    SplitRoles(messages);
    ReplacedIff(messages, limit, maxMode, outcome);
    ThresholdIff(limit, Estimate(messages));
    ThresholdIff(limit, Estimate(result));
    rest := others;
    if Replaced(messages, limit, maxMode, outcome) {
      SummaryIs(messages, limit, maxMode, outcome);
      rest := WithSummary(messages, outcome);
      TruncationKeeps(system + rest, system, rest, HardCeiling(limit), result);
    } else if |messages| >= MIN_MESSAGES && Estimate(messages) > (if maxMode then SoftThreshold(limit) else HardCeiling(limit))
              && Estimate(system + others) > HardCeiling(limit) {
      TruncationKeeps(system + others, system, others, HardCeiling(limit), result);
    }
  }

  lemma TruncationKeeps(original: seq<Message>, system: seq<Message>, rest: seq<Message>, ceiling: int, result: seq<Message>)
    requires AllSystem(system) && NoSystem(rest) && original == system + rest
    requires Truncated(original, system, rest, ceiling, result)
    ensures Systems(result) == system && LongestSuffix(system, rest, ceiling, Others(result))
    ensures Estimate(result) <= ceiling || |Others(result)| <= 2
  {
    SplitOfSplit(system, rest);
    if Estimate(system + rest) > ceiling {
      var dropped: nat :| FewestDropped(system, rest, ceiling, dropped) && result == system + rest[dropped..];
      SplitOfSplit(system, rest[dropped..]);
    }
  }

  /** Dropping one message fewer would have left the list over the ceiling, and the
      count is the only one with this property. */
  lemma DroppedIsUnique(system: seq<Message>, rest: seq<Message>, target: int, d: nat, e: nat)
    requires FewestDropped(system, rest, target, d) && FewestDropped(system, rest, target, e)
    ensures d == e
  {
  }
}
