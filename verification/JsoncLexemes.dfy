/** What JSONC bytes are: a list of lexemes. Every byte string has exactly one
    reading as lexemes, and the two stripping machines are explained on it. */
module JsoncLexemes {
  import opened Basics
  import opened Jsonc

  /** The inside of a string literal: characters, and backslashes each with the
      byte it escapes. */
  datatype Units = Empty | Char(b: Byte, tail: Units) | Escape(b: Byte, tail: Units)

  datatype Piece =
    | Plain(b: Byte)
    | Quoted(units: Units)
    | LineComment(text: seq<Byte>)
    | BlockComment(text: seq<Byte>)

  /** A document ends cleanly or inside a string, a line comment or a block
      comment. An open string may end in a backslash that escapes nothing. */
  datatype Doc =
    | End
    | OpenQuoted(units: Units, dangling: bool)
    | OpenLine(text: seq<Byte>)
    | OpenBlock(text: seq<Byte>)
    | More(head: Piece, rest: Doc)

  // ----- printing

  function UnitsBytes(units: Units): seq<Byte> {
    match units
    case Empty => []
    case Char(b, tail) => [b] + UnitsBytes(tail)
    case Escape(b, tail) => [0x5C, b] + UnitsBytes(tail)
  }

  function PieceBytes(p: Piece): seq<Byte> {
    match p
    case Plain(b) => [b]
    case Quoted(units) => [0x22] + UnitsBytes(units) + [0x22]
    case LineComment(text) => [0x2F, 0x2F] + text + [0x0A]
    case BlockComment(text) => [0x2F, 0x2A] + text + [0x2A, 0x2F]
  }

  function Bytes(doc: Doc): seq<Byte> {
    match doc
    case End => []
    case OpenQuoted(units, dangling) => [0x22] + UnitsBytes(units) + (if dangling then [0x5C] else [])
    case OpenLine(text) => [0x2F, 0x2F] + text
    case OpenBlock(text) => [0x2F, 0x2A] + text
    case More(head, rest) => PieceBytes(head) + Bytes(rest)
  }

  // ----- well-formed documents

  predicate UnitsOk(units: Units) {
    match units
    case Empty => true
    case Char(b, tail) => b != 0x22 && b != 0x5C && UnitsOk(tail)
    case Escape(_, tail) => UnitsOk(tail)
  }

  predicate BlockEnd(data: seq<Byte>) {
    |data| >= 2 && data[0] == 0x2A && data[1] == 0x2F
  }

  predicate NoBlockEnd(text: seq<Byte>) {
    forall k :: 0 <= k < |text| ==> !BlockEnd(text[k..])
  }

  predicate PieceOk(p: Piece) {
    match p
    case Plain(b) => b != 0x22
    case Quoted(units) => UnitsOk(units)
    case LineComment(text) => 0x0A !in text
    case BlockComment(text) => NoBlockEnd(text)
  }

  /** A lone slash must not run into what follows it to open a comment. */
  predicate WellFormed(doc: Doc) {
    match doc
    case End => true
    case OpenQuoted(units, _) => UnitsOk(units)
    case OpenLine(text) => 0x0A !in text
    case OpenBlock(text) => NoBlockEnd(text)
    case More(head, rest) =>
      && PieceOk(head)
      && (head == Plain(0x2F) && Bytes(rest) != [] ==> Bytes(rest)[0] != 0x2F && Bytes(rest)[0] != 0x2A)
      && WellFormed(rest)
  }

  // ----- reading

  datatype Scan<T> = Scan(item: T, closed: bool, rest: seq<Byte>)

  /** Reads string units up to the closing quote. Not closed: rest holds a
      dangling backslash or nothing. */
  function ScanUnits(data: seq<Byte>): (s: Scan<Units>)
    ensures |s.rest| <= |data|
    decreases |data|
  {
    if data == [] then Scan(Empty, false, [])
    else if data[0] == QUOTE then Scan(Empty, true, data[1..])
    else if data[0] == BACKSLASH then
      if |data| == 1 then Scan(Empty, false, data)
      else
        var s := ScanUnits(data[2..]);
        Scan(Escape(data[1], s.item), s.closed, s.rest)
    else
      var s := ScanUnits(data[1..]);
      Scan(Char(data[0], s.item), s.closed, s.rest)
  }

  /** What a scan of string units has read of the data. */
  predicate ReadsUnits(data: seq<Byte>, s: Scan<Units>) {
    && UnitsOk(s.item)
    && (s.closed ==> data == UnitsBytes(s.item) + ([QUOTE] + s.rest))
    && (!s.closed ==> data == UnitsBytes(s.item) + s.rest && (s.rest == [] || s.rest == [BACKSLASH]))
  }

  lemma {:induction false} ScanUnitsReads(data: seq<Byte>)
    ensures ReadsUnits(data, ScanUnits(data))
    decreases |data|
  {
    if data == [] || data[0] == QUOTE || data == [BACKSLASH] {
      assert data != [] ==> data == [data[0]] + data[1..];
    } else if data[0] == BACKSLASH {
      ScanUnitsReads(data[2..]);
      assert data == [BACKSLASH, data[1]] + data[2..];
      UnitsInFront([BACKSLASH, data[1]], data[2..], ScanUnits(data[2..]));
    } else {
      ScanUnitsReads(data[1..]);
      assert data == [data[0]] + data[1..];
      UnitsInFront([data[0]], data[1..], ScanUnits(data[1..]));
    }
  }

  lemma UnitsInFront(front: seq<Byte>, data: seq<Byte>, s: Scan<Units>)
    requires ReadsUnits(data, s)
    ensures s.closed ==> front + data == (front + UnitsBytes(s.item)) + ([QUOTE] + s.rest)
    ensures !s.closed ==> front + data == (front + UnitsBytes(s.item)) + s.rest
  {
  }

  function ScanLine(data: seq<Byte>): (s: Scan<seq<Byte>>)
    ensures |s.rest| <= |data|
    ensures LF !in s.item
    ensures s.closed ==> data == s.item + [LF] + s.rest
    ensures !s.closed ==> data == s.item
    decreases |data|
  {
    if data == [] then Scan([], false, [])
    else if data[0] == LF then Scan([], true, data[1..])
    else
      var s := ScanLine(data[1..]);
      Scan([data[0]] + s.item, s.closed, s.rest)
  }

  function ScanBlock(data: seq<Byte>): (s: Scan<seq<Byte>>)
    ensures |s.rest| <= |data|
    ensures NoBlockEnd(s.item)
    ensures s.closed ==> data == s.item + [STAR, SLASH] + s.rest
    ensures !s.closed ==> data == s.item
    decreases |data|
  {
    if data == [] then Scan([], false, [])
    else if ClosesBlock(data) then Scan([], true, data[2..])
    else
      var s := ScanBlock(data[1..]);
      var text := [data[0]] + s.item;
      assert forall k :: 1 <= k < |text| ==> text[k..] == s.item[k - 1..];
      assert ClosesBlock(text[0..]) ==> ClosesBlock(data);
      Scan(text, s.closed, s.rest)
  }

  function Lex(data: seq<Byte>): Doc
    decreases |data|
  {
    if data == [] then End
    else if data[0] == QUOTE then
      var s := ScanUnits(data[1..]);
      if s.closed then More(Quoted(s.item), Lex(s.rest)) else OpenQuoted(s.item, s.rest != [])
    else if OpensComment(data) && data[1] == SLASH then
      var s := ScanLine(data[2..]);
      if s.closed then More(LineComment(s.item), Lex(s.rest)) else OpenLine(s.item)
    else if OpensComment(data) then
      var s := ScanBlock(data[2..]);
      if s.closed then More(BlockComment(s.item), Lex(s.rest)) else OpenBlock(s.item)
    else More(Plain(data[0]), Lex(data[1..]))
  }

  /** Every byte string has a reading. */
  lemma {:induction false} LexReads(data: seq<Byte>)
    ensures WellFormed(Lex(data)) && Bytes(Lex(data)) == data
    decreases |data|
  {
    if data == [] {
    } else if data[0] == QUOTE {
      var s := ScanUnits(data[1..]);
      if s.closed {
        LexReads(s.rest);
      }
      LexReadsQuoted(data);
    } else if OpensComment(data) {
      var s := if data[1] == SLASH then ScanLine(data[2..]) else ScanBlock(data[2..]);
      if s.closed {
        LexReads(s.rest);
      }
      LexReadsComment(data);
    } else {
      LexReads(data[1..]);
      assert data == [data[0]] + data[1..];
    }
  }

  predicate Reads(data: seq<Byte>) {
    WellFormed(Lex(data)) && Bytes(Lex(data)) == data
  }

  lemma LexReadsQuoted(data: seq<Byte>)
    requires data != [] && data[0] == QUOTE
    requires ScanUnits(data[1..]).closed ==> Reads(ScanUnits(data[1..]).rest)
    ensures Reads(data)
  {
    var s := ScanUnits(data[1..]);
    var body := UnitsBytes(s.item);
    ScanUnitsReads(data[1..]);
    assert data == [QUOTE] + data[1..];
    if s.closed {
      Assoc([QUOTE], body, [QUOTE] + s.rest);
      Assoc([QUOTE] + body, [QUOTE], s.rest);
    } else {
      Assoc([QUOTE], body, s.rest);
    }
  }

  lemma LexReadsComment(data: seq<Byte>)
    requires OpensComment(data)
    requires var s := if data[1] == SLASH then ScanLine(data[2..]) else ScanBlock(data[2..]); s.closed ==> Reads(s.rest)
    ensures Reads(data)
  {
    assert data == [SLASH, data[1]] + data[2..];
    var front := [SLASH, data[1]];
    if data[1] == SLASH {
      var s := ScanLine(data[2..]);
      Assoc(front, s.item + [LF], s.rest);
      Assoc(front, s.item, [LF]);
    } else {
      var s := ScanBlock(data[2..]);
      Assoc(front, s.item + [STAR, SLASH], s.rest);
      Assoc(front, s.item, [STAR, SLASH]);
    }
  }

  // ----- the reading is unique

  /** Reading one unit off the front. */
  lemma ScanUnit(b: Byte, after: seq<Byte>)
    ensures var s := ScanUnits(after); ScanUnits([BACKSLASH, b] + after) == Scan(Escape(b, s.item), s.closed, s.rest)
    ensures b != QUOTE && b != BACKSLASH ==> var s := ScanUnits(after); ScanUnits([b] + after) == Scan(Char(b, s.item), s.closed, s.rest)
  {
    assert ([BACKSLASH, b] + after)[2..] == after;
    assert ([b] + after)[1..] == after;
  }

  lemma {:induction false} ScanUnitsOf(units: Units, after: seq<Byte>, r: Scan<Units>)
    requires UnitsOk(units) && ScanUnits(after) == r && r.item == Empty
    ensures ScanUnits(UnitsBytes(units) + after) == r.(item := units)
  {
    match units
    case Empty => assert UnitsBytes(units) + after == after;
    case Char(b, tail) =>
      ScanUnitsOf(tail, after, r);
      ScanUnit(b, UnitsBytes(tail) + after);
      Assoc([b], UnitsBytes(tail), after);
    case Escape(b, tail) =>
      ScanUnitsOf(tail, after, r);
      ScanUnit(b, UnitsBytes(tail) + after);
      Assoc([BACKSLASH, b], UnitsBytes(tail), after);
  }

  lemma ScanEnd(rest: seq<Byte>)
    ensures ScanUnits([QUOTE] + rest) == Scan(Empty, true, rest)
    ensures ScanUnits([]) == Scan(Empty, false, [])
    ensures ScanUnits([BACKSLASH]) == Scan(Empty, false, [BACKSLASH])
  {
    assert ([QUOTE] + rest)[1..] == rest;
  }

  lemma {:induction false} ScanLineOf(text: seq<Byte>, rest: seq<Byte>)
    requires LF !in text
    ensures ScanLine(text + [LF] + rest) == Scan(text, true, rest)
    ensures ScanLine(text) == Scan(text, false, [])
  {
    if text != [] {
      ScanLineOf(text[1..], rest);
      assert (text + [LF] + rest)[1..] == text[1..] + [LF] + rest;
      assert [text[0]] + text[1..] == text;
    } else {
      assert text + [LF] + rest == [LF] + rest;
    }
  }

  lemma NoBlockEndTail(text: seq<Byte>)
    requires NoBlockEnd(text) && text != []
    ensures NoBlockEnd(text[1..]) && !ClosesBlock(text)
  {
    assert text[0..] == text;
    assert forall k :: 0 <= k < |text| - 1 ==> text[1..][k..] == text[k + 1..];
  }

  lemma {:induction false} ScanBlockOf(text: seq<Byte>, rest: seq<Byte>)
    requires NoBlockEnd(text)
    ensures ScanBlock(text + [STAR, SLASH] + rest) == Scan(text, true, rest)
    ensures ScanBlock(text) == Scan(text, false, [])
  {
    var data := text + [STAR, SLASH] + rest;
    if text != [] {
      NoBlockEndTail(text);
      ScanBlockOf(text[1..], rest);
      assert data[1..] == text[1..] + [STAR, SLASH] + rest;
      assert !ClosesBlock(data);
      assert [text[0]] + text[1..] == text;
    } else {
      assert data == [STAR, SLASH] + rest;
    }
  }

  /** Reading at an opening quote, and at the two openings of comments. */
  lemma LexAtQuote(body: seq<Byte>)
    ensures var s := ScanUnits(body);
            Lex([QUOTE] + body) == if s.closed then More(Quoted(s.item), Lex(s.rest)) else OpenQuoted(s.item, s.rest != [])
  {
    assert ([QUOTE] + body)[1..] == body;
  }

  lemma LexAtLine(body: seq<Byte>)
    ensures var s := ScanLine(body);
            Lex([SLASH, SLASH] + body) == if s.closed then More(LineComment(s.item), Lex(s.rest)) else OpenLine(s.item)
  {
    assert ([SLASH, SLASH] + body)[2..] == body;
  }

  lemma LexAtBlock(body: seq<Byte>)
    ensures var s := ScanBlock(body);
            Lex([SLASH, STAR] + body) == if s.closed then More(BlockComment(s.item), Lex(s.rest)) else OpenBlock(s.item)
  {
    assert ([SLASH, STAR] + body)[2..] == body;
  }

  /** Printing a well-formed document and reading it back gives that document. */
  lemma {:induction false} LexIsUnique(doc: Doc)
    requires WellFormed(doc)
    ensures Lex(Bytes(doc)) == doc
  {
    match doc
    case End =>
    case OpenQuoted(units, dangling) => LexOpenQuoted(units, dangling);
    case OpenLine(text) =>
      ScanLineOf(text, []);
      LexAtLine(text);
    case OpenBlock(text) =>
      ScanBlockOf(text, []);
      LexAtBlock(text);
    case More(head, rest) =>
      LexIsUnique(rest);
      LexHead(head, rest);
  }

  lemma LexOpenQuoted(units: Units, dangling: bool)
    requires UnitsOk(units)
    ensures Lex(Bytes(OpenQuoted(units, dangling))) == OpenQuoted(units, dangling)
  {
    var last := if dangling then [BACKSLASH] else [];
    ScanEnd([]);
    ScanUnitsOf(units, last, Scan(Empty, false, last));
    LexAtQuote(UnitsBytes(units) + last);
    Assoc([QUOTE], UnitsBytes(units), last);
  }

  lemma LexHead(head: Piece, rest: Doc)
    requires WellFormed(More(head, rest))
    ensures Lex(Bytes(More(head, rest))) == More(head, Lex(Bytes(rest)))
  {
    match head
    case Plain(b) =>
      var data := [b] + Bytes(rest);
      assert data[1..] == Bytes(rest);
      assert Lex(data) == More(Plain(b), Lex(data[1..]));
    case Quoted(units) => LexQuoted(units, Bytes(rest));
    case LineComment(text) => LexLineComment(text, Bytes(rest));
    case BlockComment(text) => LexBlockComment(text, Bytes(rest));
  }

  lemma LexQuoted(units: Units, after: seq<Byte>)
    requires UnitsOk(units)
    ensures Lex(PieceBytes(Quoted(units)) + after) == More(Quoted(units), Lex(after))
  {
    var body := UnitsBytes(units);
    ScanEnd(after);
    ScanUnitsOf(units, [QUOTE] + after, Scan(Empty, true, after));
    LexAtQuote(body + ([QUOTE] + after));
    Assoc([QUOTE] + body, [QUOTE], after);
    Assoc([QUOTE], body, [QUOTE] + after);
  }

  lemma LexLineComment(text: seq<Byte>, after: seq<Byte>)
    requires LF !in text
    ensures Lex(PieceBytes(LineComment(text)) + after) == More(LineComment(text), Lex(after))
  {
    ScanLineOf(text, after);
    LexAtLine(text + [LF] + after);
    Assoc([SLASH, SLASH], text, [LF]);
    Assoc([SLASH, SLASH], text + [LF], after);
  }

  lemma LexBlockComment(text: seq<Byte>, after: seq<Byte>)
    requires NoBlockEnd(text)
    ensures Lex(PieceBytes(BlockComment(text)) + after) == More(BlockComment(text), Lex(after))
  {
    ScanBlockOf(text, after);
    LexAtBlock(text + [STAR, SLASH] + after);
    Assoc([SLASH, STAR], text, [STAR, SLASH]);
    Assoc([SLASH, STAR], text + [STAR, SLASH], after);
  }

  // ----- comment stripping

  predicate Unclosed(doc: Doc) {
    match doc
    case OpenBlock(_) => true
    case More(_, rest) => Unclosed(rest)
    case _ => false
  }

  predicate CommentFree(doc: Doc) {
    match doc
    case End => true
    case OpenQuoted(_, _) => true
    case More(head, rest) => (head.Plain? || head.Quoted?) && CommentFree(rest)
    case _ => false
  }

  function Padded(n: nat, doc: Doc): Doc {
    if n == 0 then doc else More(Plain(0x0A), Padded(n - 1, doc))
  }

  function LineFeeds(n: nat): seq<Byte> {
    seq(n, _ => LF)
  }

  /** The document with every comment replaced by its newlines. */
  function Clean(doc: Doc): Doc {
    match doc
    case End => End
    case OpenQuoted(_, _) => doc
    case OpenLine(_) => End
    case OpenBlock(_) => End
    case More(LineComment(_), rest) => More(Plain(0x0A), Clean(rest))
    case More(BlockComment(text), rest) => Padded(Newlines(text), Clean(rest))
    case More(head, rest) => More(head, Clean(rest))
  }

  /** One unit of a string is kept. */
  lemma StripUnit(b: Byte, after: seq<Byte>)
    ensures Strip([BACKSLASH, b] + after, InString(false)) == Prefixed([BACKSLASH, b], Strip(after, InString(false)))
    ensures b != QUOTE && b != BACKSLASH ==> Strip([b] + after, InString(false)) == Prefixed([b], Strip(after, InString(false)))
  {
    assert ([b] + after)[1..] == after;
    assert ([BACKSLASH, b] + after)[1..] == [b] + after;
    assert Strip([b] + after, InString(true)) == Prefixed([b], Strip(after, InString(false)));
    PrefixedTwice([BACKSLASH], [b], Strip(after, InString(false)));
    assert [BACKSLASH] + [b] == [BACKSLASH, b];
  }

  lemma {:induction false} StripUnits(units: Units, rest: seq<Byte>)
    requires UnitsOk(units)
    ensures Strip(UnitsBytes(units) + rest, InString(false)) == Prefixed(UnitsBytes(units), Strip(rest, InString(false)))
  {
    match units
    case Empty =>
      assert UnitsBytes(units) + rest == rest;
      PrefixedTwice([], [], Strip(rest, InString(false)));
    case Char(b, tail) =>
      StripUnits(tail, rest);
      StripUnit(b, UnitsBytes(tail) + rest);
      Assoc([b], UnitsBytes(tail), rest);
      PrefixedTwice([b], UnitsBytes(tail), Strip(rest, InString(false)));
    case Escape(b, tail) =>
      StripUnits(tail, rest);
      StripUnit(b, UnitsBytes(tail) + rest);
      Assoc([BACKSLASH, b], UnitsBytes(tail), rest);
      PrefixedTwice([BACKSLASH, b], UnitsBytes(tail), Strip(rest, InString(false)));
  }

  lemma {:induction false} StripLine(text: seq<Byte>, rest: seq<Byte>)
    requires LF !in text
    ensures Strip(text + rest, InLine) == Strip(rest, InLine)
  {
    if text == [] {
      assert text + rest == rest;
    } else {
      StripLine(text[1..], rest);
      assert (text + rest)[1..] == text[1..] + rest;
    }
  }

  lemma NewlinesOfOne(b: Byte)
    ensures Newlines([b]) == if b == LF then 1 else 0
  {
    assert NewlinesFirst([b], 1) == NewlinesFirst([b], 0) + if [b][0] == LF then 1 else 0;
  }

  lemma PaddedBytes(n: nat, doc: Doc)
    ensures Bytes(Padded(n, doc)) == LineFeeds(n) + Bytes(doc)
  {
    if n > 0 {
      PaddedBytes(n - 1, doc);
      assert LineFeeds(n) == [LF] + LineFeeds(n - 1);
    }
  }

  lemma StripBlockEnd(rest: seq<Byte>)
    ensures Strip([STAR, SLASH] + rest, InBlock) == Prefixed([], Strip(rest, Normal))
  {
    assert ([STAR, SLASH] + rest)[2..] == rest;
    PrefixedTwice([], [], Strip(rest, Normal));
  }

  lemma StripBlockByte(data: seq<Byte>)
    requires data != [] && !ClosesBlock(data)
    ensures Strip(data, InBlock) == Prefixed(LineFeeds(if data[0] == LF then 1 else 0), Strip(data[1..], InBlock))
  {
    assert LineFeeds(1) == [LF] && LineFeeds(0) == [];
    PrefixedTwice([], [], Strip(data[1..], InBlock));
  }

  lemma LineFeedsOfTail(text: seq<Byte>)
    requires text != []
    ensures LineFeeds(Newlines(text)) == LineFeeds(if text[0] == LF then 1 else 0) + LineFeeds(Newlines(text[1..]))
  {
    assert text == [text[0]] + text[1..];
    NewlinesConcat([text[0]], text[1..]);
    NewlinesOfOne(text[0]);
  }

  lemma {:induction false} StripBlock(text: seq<Byte>, rest: seq<Byte>)
    requires NoBlockEnd(text)
    ensures Strip(text + [STAR, SLASH] + rest, InBlock) == Prefixed(LineFeeds(Newlines(text)), Strip(rest, Normal))
  {
    var data := text + [STAR, SLASH] + rest;
    if text == [] {
      assert data == [STAR, SLASH] + rest;
      StripBlockEnd(rest);
      assert LineFeeds(Newlines(text)) == [];
    } else {
      NoBlockEndTail(text);
      StripBlock(text[1..], rest);
      assert data[1..] == text[1..] + [STAR, SLASH] + rest;
      StripBlockByte(data);
      LineFeedsOfTail(text);
      PrefixedTwice(LineFeeds(if text[0] == LF then 1 else 0), LineFeeds(Newlines(text[1..])), Strip(rest, Normal));
    }
  }

  lemma {:induction false} StripOpenBlock(text: seq<Byte>)
    requires NoBlockEnd(text)
    ensures Strip(text, InBlock) == None
  {
    if text != [] {
      NoBlockEndTail(text);
      StripOpenBlock(text[1..]);
      StripBlockByte(text);
    }
  }

  /** Stripping fails exactly on a document that ends inside a block comment, and
      otherwise prints the document without its comments. */
  lemma {:induction false} StripDoc(doc: Doc)
    requires WellFormed(doc)
    ensures Strip(Bytes(doc), Normal) == if Unclosed(doc) then None else Some(Bytes(Clean(doc)))
  {
    match doc
    case End =>
    case OpenQuoted(units, dangling) => StripOpenQuoted(units, dangling);
    case OpenLine(text) =>
      assert ([SLASH, SLASH] + text)[2..] == text + [];
      StripLine(text, []);
    case OpenBlock(text) =>
      assert ([SLASH, STAR] + text)[2..] == text;
      StripOpenBlock(text);
    case More(head, rest) =>
      StripDoc(rest);
      StripHead(head, rest);
  }

  lemma StripAtQuote(body: seq<Byte>)
    ensures Strip([QUOTE] + body, Normal) == Prefixed([QUOTE], Strip(body, InString(false)))
    ensures Strip([QUOTE] + body, InString(false)) == Prefixed([QUOTE], Strip(body, Normal))
  {
    assert ([QUOTE] + body)[1..] == body;
  }

  lemma StripOpenQuoted(units: Units, dangling: bool)
    requires UnitsOk(units)
    ensures Strip(Bytes(OpenQuoted(units, dangling)), Normal) == Some(Bytes(OpenQuoted(units, dangling)))
  {
    var body := UnitsBytes(units);
    var last := if dangling then [BACKSLASH] else [];
    assert Strip(last, InString(false)) == Some(last) by {
      assert dangling ==> last[1..] == [] && [BACKSLASH] + [] == last;
    }
    StripUnits(units, last);
    StripAtQuote(body + last);
    Assoc([QUOTE], body, last);
  }

  lemma StripHead(head: Piece, rest: Doc)
    requires WellFormed(More(head, rest))
    requires Strip(Bytes(rest), Normal) == if Unclosed(rest) then None else Some(Bytes(Clean(rest)))
    ensures Strip(Bytes(More(head, rest)), Normal)
         == if Unclosed(rest) then None else Some(Bytes(Clean(More(head, rest))))
  {
    var after := Bytes(rest);
    match head
    case Plain(b) =>
      var data := [b] + after;
      assert data[1..] == after;
      assert Strip(data, Normal) == Prefixed([b], Strip(after, Normal));
    case Quoted(units) => StripQuoted(units, after);
    case LineComment(text) =>
      StripLineComment(text, after);
    case BlockComment(text) =>
      StripBlockComment(text, after);
      PaddedBytes(Newlines(text), Clean(rest));
  }

  lemma StripQuoted(units: Units, after: seq<Byte>)
    requires UnitsOk(units)
    ensures Strip(PieceBytes(Quoted(units)) + after, Normal) == Prefixed(PieceBytes(Quoted(units)), Strip(after, Normal))
  {
    var body := UnitsBytes(units);
    var left := Strip(after, Normal);
    Assoc([QUOTE] + body, [QUOTE], after);
    Assoc([QUOTE], body, [QUOTE] + after);
    StripAtQuote(body + ([QUOTE] + after));
    StripUnits(units, [QUOTE] + after);
    StripAtQuote(after);
    PrefixedTwice(body, [QUOTE], left);
    PrefixedTwice([QUOTE], body + [QUOTE], left);
    Assoc([QUOTE], body, [QUOTE]);
  }

  lemma StripLineComment(text: seq<Byte>, after: seq<Byte>)
    requires LF !in text
    ensures Strip(PieceBytes(LineComment(text)) + after, Normal) == Prefixed([LF], Strip(after, Normal))
  {
    var data := PieceBytes(LineComment(text)) + after;
    assert data[2..] == text + ([LF] + after);
    StripLine(text, [LF] + after);
    assert ([LF] + after)[1..] == after;
  }

  lemma StripBlockComment(text: seq<Byte>, after: seq<Byte>)
    requires NoBlockEnd(text)
    ensures Strip(PieceBytes(BlockComment(text)) + after, Normal)
         == Prefixed(LineFeeds(Newlines(text)), Strip(after, Normal))
  {
    var data := PieceBytes(BlockComment(text)) + after;
    assert data[2..] == text + [STAR, SLASH] + after;
    StripBlock(text, after);
  }

  lemma PaddedOk(n: nat, doc: Doc)
    requires WellFormed(doc) && CommentFree(doc)
    ensures WellFormed(Padded(n, doc)) && CommentFree(Padded(n, doc))
  {
  }

  lemma {:induction false} CleanOk(doc: Doc)
    requires WellFormed(doc)
    ensures WellFormed(Clean(doc)) && CommentFree(Clean(doc))
  {
    if doc.More? {
      CleanOk(doc.rest);
      if doc.head.BlockComment? {
        PaddedOk(Newlines(doc.head.text), Clean(doc.rest));
      }
      if doc.head == Plain(SLASH) {
        SlashStaysAlone(doc.rest);
      }
    }
  }

  /** A slash that opens no comment is followed by a lexeme that stripping keeps. */
  lemma SlashStaysAlone(rest: Doc)
    requires WellFormed(rest) && !OpensComment([SLASH] + Bytes(rest))
    ensures !OpensComment([SLASH] + Bytes(Clean(rest)))
  {
    var data := [SLASH] + Bytes(rest);
    match rest
    case OpenLine(_) => assert false;
    case OpenBlock(_) => assert false;
    case More(LineComment(_), _) => assert false;
    case More(BlockComment(_), _) => assert false;
    case More(head, next) =>
      assert data[1] == PieceBytes(head)[0];
      assert ([SLASH] + Bytes(Clean(rest)))[1] == PieceBytes(head)[0];
    case _ =>
  }

  lemma {:induction false} CleanKeepsCommentFree(doc: Doc)
    requires CommentFree(doc)
    ensures Clean(doc) == doc && !Unclosed(doc)
  {
    if doc.More? {
      CleanKeepsCommentFree(doc.rest);
    }
  }

  lemma CommentNewlines(text: seq<Byte>)
    ensures Newlines(PieceBytes(BlockComment(text))) == Newlines(text)
    ensures LF !in text ==> Newlines(PieceBytes(LineComment(text))) == 1
  {
    NewlinesConcat([SLASH, STAR] + text, [STAR, SLASH]);
    NewlinesConcat([SLASH, STAR], text);
    NewlinesConcat([SLASH, SLASH] + text, [LF]);
    NewlinesConcat([SLASH, SLASH], text);
    NewlinesOfOne(LF);
    NoNewlines([SLASH, STAR], 2);
    NoNewlines([STAR, SLASH], 2);
    NoNewlines([SLASH, SLASH], 2);
    if LF !in text {
      NoNewlines(text, |text|);
    }
  }

  lemma {:induction false} CleanKeepsNewlines(doc: Doc)
    requires WellFormed(doc) && !Unclosed(doc)
    ensures Newlines(Bytes(Clean(doc))) == Newlines(Bytes(doc))
  {
    match doc
    case More(head, rest) =>
      CleanKeepsNewlines(rest);
      HeadKeepsNewlines(head, rest);
    case OpenLine(text) => NoNewlines([SLASH, SLASH] + text, 2 + |text|);
    case _ =>
  }

  lemma HeadKeepsNewlines(head: Piece, rest: Doc)
    requires PieceOk(head) && Newlines(Bytes(Clean(rest))) == Newlines(Bytes(rest))
    ensures Newlines(Bytes(Clean(More(head, rest)))) == Newlines(Bytes(More(head, rest)))
  {
    match head
    case BlockComment(text) => BlockKeepsNewlines(text, Clean(rest), Bytes(rest));
    case LineComment(text) => LineKeepsNewlines(text, Bytes(Clean(rest)), Bytes(rest));
    case _ => SameNewlines(PieceBytes(head), Bytes(Clean(rest)), Bytes(rest));
  }

  lemma SameNewlines(front: seq<Byte>, a: seq<Byte>, b: seq<Byte>)
    requires Newlines(a) == Newlines(b)
    ensures Newlines(front + a) == Newlines(front + b)
  {
    NewlinesConcat(front, a);
    NewlinesConcat(front, b);
  }

  lemma LineKeepsNewlines(text: seq<Byte>, a: seq<Byte>, b: seq<Byte>)
    requires LF !in text && Newlines(a) == Newlines(b)
    ensures Newlines([LF] + a) == Newlines(PieceBytes(LineComment(text)) + b)
  {
    CommentNewlines(text);
    NewlinesOfOne(LF);
    NewlinesConcat([LF], a);
    NewlinesConcat(PieceBytes(LineComment(text)), b);
  }

  lemma BlockKeepsNewlines(text: seq<Byte>, doc: Doc, b: seq<Byte>)
    requires Newlines(Bytes(doc)) == Newlines(b)
    ensures Newlines(Bytes(Padded(Newlines(text), doc))) == Newlines(PieceBytes(BlockComment(text)) + b)
  {
    CommentNewlines(text);
    PaddedBytes(Newlines(text), doc);
    AllNewlines(Newlines(text));
    NewlinesConcat(LineFeeds(Newlines(text)), Bytes(doc));
    NewlinesConcat(PieceBytes(BlockComment(text)), b);
  }

  lemma {:induction false} AllNewlines(n: nat)
    ensures Newlines(LineFeeds(n)) == n
  {
    if n > 0 {
      AllNewlines(n - 1);
      assert LineFeeds(n) == LineFeeds(n - 1) + [LF];
      NewlinesAppend(LineFeeds(n - 1), LF);
    }
  }

  // ----- what holds for all bytes

  /** It fails if and only if the input ends inside a block comment. */
  lemma StripFailsIff(data: seq<Byte>)
    ensures Strip(data, Normal) == None <==> exists doc :: WellFormed(doc) && Unclosed(doc) && Bytes(doc) == data
  {
    LexReads(data);
    StripDoc(Lex(data));
    forall doc | WellFormed(doc) && Bytes(doc) == data
      ensures doc == Lex(data)
    {
      LexIsUnique(doc);
    }
  }

  /** A successful output conserves the newlines, has no comment outside a string
      and is left alone by another pass. */
  lemma StripOutput(data: seq<Byte>)
    requires Strip(data, Normal).Some?
    ensures var out := Strip(data, Normal).value;
            && Newlines(out) == Newlines(data)
            && CommentFree(Lex(out))
            && Strip(out, Normal) == Some(out)
  {
    var doc := Lex(data);
    LexReads(data);
    StripDoc(doc);
    CleanKeepsNewlines(doc);
    CleanOk(doc);
    LexIsUnique(Clean(doc));
    CleanKeepsCommentFree(Clean(doc));
    StripDoc(Clean(doc));
  }

  // ----- trailing commas

  /** The whitespace of section 2 of RFC 8259: space, tab, line feed and carriage
      return. */
  predicate JsonSpace(b: Byte) {
    b in [0x20, 0x09, 0x0A, 0x0D]
  }

  /** A closing bracket or brace, after any whitespace. */
  predicate NextIsCloser(doc: Doc) {
    match doc
    case More(Plain(b), rest) => b == 0x5D || b == 0x7D || (JsonSpace(b) && NextIsCloser(rest))
    case _ => false
  }

  function TrimCommas(doc: Doc): Doc {
    match doc
    case More(Plain(b), rest) =>
      if b == 0x2C && NextIsCloser(rest) then TrimCommas(rest) else More(Plain(b), TrimCommas(rest))
    case More(head, rest) => More(head, TrimCommas(rest))
    case _ => doc
  }

  lemma {:induction false} CloserAhead(doc: Doc)
    requires WellFormed(doc) && CommentFree(doc)
    ensures LeadsToCloser(Bytes(doc)) == NextIsCloser(doc)
  {
    match doc
    case More(Plain(b), rest) =>
      CloserAhead(rest);
      assert Bytes(doc)[1..] == Bytes(rest);
    case _ =>
  }

  /** One unit of a string is kept. */
  lemma DropInUnit(b: Byte, after: seq<Byte>)
    ensures DropCommas([BACKSLASH, b] + after, InString(false)) == [BACKSLASH, b] + DropCommas(after, InString(false))
    ensures b != QUOTE && b != BACKSLASH ==>
              DropCommas([b] + after, InString(false)) == [b] + DropCommas(after, InString(false))
  {
    assert ([b] + after)[1..] == after;
    assert ([BACKSLASH, b] + after)[1..] == [b] + after;
    assert DropCommas([b] + after, InString(true)) == [b] + DropCommas(after, InString(false));
  }

  lemma {:induction false} DropInUnits(units: Units, rest: seq<Byte>)
    requires UnitsOk(units)
    ensures DropCommas(UnitsBytes(units) + rest, InString(false)) == UnitsBytes(units) + DropCommas(rest, InString(false))
  {
    var left := DropCommas(rest, InString(false));
    match units
    case Empty => assert UnitsBytes(units) + rest == rest;
    case Char(b, tail) =>
      DropInUnits(tail, rest);
      DropInUnit(b, UnitsBytes(tail) + rest);
      Assoc([b], UnitsBytes(tail), rest);
      Assoc([b], UnitsBytes(tail), left);
    case Escape(b, tail) =>
      DropInUnits(tail, rest);
      DropInUnit(b, UnitsBytes(tail) + rest);
      Assoc([BACKSLASH, b], UnitsBytes(tail), rest);
      Assoc([BACKSLASH, b], UnitsBytes(tail), left);
  }

  lemma DropAtQuote(after: seq<Byte>)
    ensures DropCommas([QUOTE] + after, Normal) == [QUOTE] + DropCommas(after, InString(false))
    ensures DropCommas([QUOTE] + after, InString(false)) == [QUOTE] + DropCommas(after, Normal)
  {
    assert ([QUOTE] + after)[1..] == after;
  }

  lemma DropInQuoted(units: Units, after: seq<Byte>)
    requires UnitsOk(units)
    ensures DropCommas(PieceBytes(Quoted(units)) + after, Normal) == PieceBytes(Quoted(units)) + DropCommas(after, Normal)
  {
    var body := UnitsBytes(units);
    var left := DropCommas(after, Normal);
    Assoc([QUOTE] + body, [QUOTE], after);
    Assoc([QUOTE], body, [QUOTE] + after);
    DropAtQuote(body + ([QUOTE] + after));
    DropInUnits(units, [QUOTE] + after);
    DropAtQuote(after);
    Assoc([QUOTE], body, [QUOTE] + left);
    Assoc([QUOTE] + body, [QUOTE], left);
  }

  /** On a comment-free document the second machine removes the commas that only
      whitespace separates from a closing bracket, and nothing else. */
  lemma {:induction false} DropCommasDoc(doc: Doc)
    requires WellFormed(doc) && CommentFree(doc)
    ensures DropCommas(Bytes(doc), Normal) == Bytes(TrimCommas(doc))
  {
    match doc
    case End =>
    case OpenQuoted(units, dangling) =>
      var last := if dangling then [BACKSLASH] else [];
      assert Bytes(doc)[1..] == UnitsBytes(units) + last;
      DropInUnits(units, last);
      assert DropCommas(last, InString(false)) == last;
    case More(Plain(b), rest) =>
      DropCommasDoc(rest);
      CloserAhead(rest);
      var data := [b] + Bytes(rest);
      assert data[1..] == Bytes(rest);
    case More(Quoted(units), rest) =>
      DropCommasDoc(rest);
      DropInQuoted(units, Bytes(rest));
  }

  /** The normaliser on any bytes, read as lexemes after a byte order mark. */
  lemma NormalisedMeaning(data: seq<Byte>)
    ensures var doc := Lex(if [0xEF, 0xBB, 0xBF] <= data then data[3..] else data);
            Normalised(data) == if Unclosed(doc) then None else Some(Bytes(TrimCommas(Clean(doc))))
  {
    var rest := WithoutBom(data);
    LexReads(rest);
    StripDoc(Lex(rest));
    CleanOk(Lex(rest));
    DropCommasDoc(Clean(Lex(rest)));
  }
}
