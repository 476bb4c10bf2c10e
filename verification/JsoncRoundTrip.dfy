/** A JSON text may be decorated with whitespace, comments and trailing commas;
    normalising the decorated bytes gives the JSON text back. */
module JsoncRoundTrip {
  import opened Basics
  import opened Jsonc
  import opened JsoncLexemes

  // ----- JSON texts as tokens (section 2 of RFC 8259)

  datatype Token =
    | LeftBrace | RightBrace | LeftBracket | RightBracket | ColonToken | CommaToken
    | Text(units: Units)
    | Scalar(bytes: seq<Byte>)

  datatype Json = JScalar(bytes: seq<Byte>) | JString(units: Units) | JArray(items: Items) | JObject(members: Members)
  datatype Items = NoItems | Item(head: Json, tail: Items)
  datatype Members = NoMembers | Member(name: Units, value: Json, tail: Members)

  /** The bytes of numbers and of the literals true, false and null. */
  predicate ScalarByte(b: Byte) {
    97 <= b <= 122 || 65 <= b <= 90 || 48 <= b <= 57 || b == 43 || b == 45 || b == 46
  }

  predicate ScalarOk(bytes: seq<Byte>) {
    bytes != [] && forall i :: 0 <= i < |bytes| ==> ScalarByte(bytes[i])
  }

  predicate TokenOk(t: Token) {
    match t
    case Text(units) => UnitsOk(units)
    case Scalar(bytes) => ScalarOk(bytes)
    case _ => true
  }

  function Tokens(j: Json): seq<Token> {
    match j
    case JScalar(bytes) => [Scalar(bytes)]
    case JString(units) => [Text(units)]
    case JArray(items) => [LeftBracket] + ItemTokens(items) + [RightBracket]
    case JObject(members) => [LeftBrace] + MemberTokens(members) + [RightBrace]
  }

  function ItemTokens(items: Items): seq<Token> {
    match items
    case NoItems => []
    case Item(head, NoItems) => Tokens(head)
    case Item(head, tail) => Tokens(head) + [CommaToken] + ItemTokens(tail)
  }

  function MemberTokens(members: Members): seq<Token> {
    match members
    case NoMembers => []
    case Member(name, value, NoMembers) => [Text(name), ColonToken] + Tokens(value)
    case Member(name, value, tail) => [Text(name), ColonToken] + Tokens(value) + [CommaToken] + MemberTokens(tail)
  }

  predicate ClosingToken(t: Token) {
    t == RightBrace || t == RightBracket
  }

  predicate NoTrailingComma(toks: seq<Token>) {
    forall k :: 0 <= k < |toks| - 1 && toks[k] == CommaToken ==> !ClosingToken(toks[k + 1])
  }

  /** Neither starts with a closing bracket nor ends with a comma. */
  predicate Compact(toks: seq<Token>) {
    && NoTrailingComma(toks)
    && (toks != [] ==> !ClosingToken(toks[0]) && toks[|toks| - 1] != CommaToken)
  }

  /** The grammar never puts a comma before a closing bracket. */
  lemma {:induction false} JsonHasNoTrailingComma(j: Json)
    ensures Tokens(j) != [] && Compact(Tokens(j))
  {
    match j
    case JScalar(_) =>
    case JString(_) =>
    case JArray(items) => ItemsHaveNoTrailingComma(items);
    case JObject(members) => MembersHaveNoTrailingComma(members);
  }

  lemma {:induction false} ItemsHaveNoTrailingComma(items: Items)
    ensures items.Item? ==> ItemTokens(items) != []
    ensures Compact(ItemTokens(items))
  {
    if items.Item? {
      JsonHasNoTrailingComma(items.head);
      ItemsHaveNoTrailingComma(items.tail);
    }
  }

  lemma {:induction false} MembersHaveNoTrailingComma(members: Members)
    ensures members.Member? ==> MemberTokens(members) != []
    ensures Compact(MemberTokens(members))
  {
    if members.Member? {
      JsonHasNoTrailingComma(members.value);
      MembersHaveNoTrailingComma(members.tail);
    }
  }

  // ----- decorated texts

  datatype Decoration =
    | Tok(t: Token)
    | Space(b: Byte)
    | Line(text: seq<Byte>)
    | Block(text: seq<Byte>)
    | Trailing

  /** A line comment may end the text without a newline. */
  datatype Decorated = Stop | FinalLine(text: seq<Byte>) | Then(item: Decoration, rest: Decorated)

  function TokenBytes(t: Token): seq<Byte> {
    match t
    case LeftBrace => [0x7B]
    case RightBrace => [0x7D]
    case LeftBracket => [0x5B]
    case RightBracket => [0x5D]
    case ColonToken => [0x3A]
    case CommaToken => [0x2C]
    case Text(units) => [0x22] + UnitsBytes(units) + [0x22]
    case Scalar(bytes) => bytes
  }

  function DecorationBytes(item: Decoration): seq<Byte> {
    match item
    case Tok(t) => TokenBytes(t)
    case Space(b) => [b]
    case Line(text) => [0x2F, 0x2F] + text + [0x0A]
    case Block(text) => [0x2F, 0x2A] + text + [0x2A, 0x2F]
    case Trailing => [0x2C]
  }

  function Print(dec: Decorated): seq<Byte> {
    match dec
    case Stop => []
    case FinalLine(text) => [0x2F, 0x2F] + text
    case Then(item, rest) => DecorationBytes(item) + Print(rest)
  }

  /** Only trivia stands between here and a closing bracket. */
  predicate BeforeCloser(dec: Decorated) {
    match dec
    case Then(Tok(t), _) => ClosingToken(t)
    case Then(Trailing, _) => false
    case Then(_, rest) => BeforeCloser(rest)
    case _ => false
  }

  predicate DecoratedOk(dec: Decorated) {
    match dec
    case Stop => true
    case FinalLine(text) => 0x0A !in text
    case Then(item, rest) =>
      && (match item
          case Tok(t) => TokenOk(t)
          case Space(b) => JsonSpace(b)
          case Line(text) => 0x0A !in text
          case Block(text) => NoBlockEnd(text)
          case Trailing => BeforeCloser(rest))
      && DecoratedOk(rest)
  }

  /** The tokens under the decoration. */
  function Erase(dec: Decorated): seq<Token> {
    match dec
    case Then(Tok(t), rest) => [t] + Erase(rest)
    case Then(_, rest) => Erase(rest)
    case _ => []
  }

  function Spaces(n: nat, dec: Decorated): Decorated {
    if n == 0 then dec else Then(Space(0x0A), Spaces(n - 1, dec))
  }

  /** Comments become their newlines, trailing commas go, all else stays. */
  function Undecorated(dec: Decorated): Decorated {
    match dec
    case Stop => Stop
    case FinalLine(_) => Stop
    case Then(Line(_), rest) => Then(Space(0x0A), Undecorated(rest))
    case Then(Block(text), rest) => Spaces(Newlines(text), Undecorated(rest))
    case Then(Trailing, rest) => Undecorated(rest)
    case Then(item, rest) => Then(item, Undecorated(rest))
  }

  predicate OnlyTokensAndSpace(dec: Decorated) {
    match dec
    case Stop => true
    case FinalLine(_) => false
    case Then(item, rest) => (item.Tok? || item.Space?) && OnlyTokensAndSpace(rest)
  }

  // ----- decorated texts as lexemes

  function PlainAll(bytes: seq<Byte>, doc: Doc): Doc {
    if bytes == [] then doc else More(Plain(bytes[0]), PlainAll(bytes[1..], doc))
  }

  function DocOf(dec: Decorated): Doc {
    match dec
    case Stop => End
    case FinalLine(text) => OpenLine(text)
    case Then(item, rest) =>
      match item
      case Tok(Text(units)) => More(Quoted(units), DocOf(rest))
      case Tok(t) => PlainAll(TokenBytes(t), DocOf(rest))
      case Space(b) => More(Plain(b), DocOf(rest))
      case Line(text) => More(LineComment(text), DocOf(rest))
      case Block(text) => More(BlockComment(text), DocOf(rest))
      case Trailing => More(Plain(0x2C), DocOf(rest))
  }

  /** Bytes that are no quote, no slash, no comma, no bracket and no whitespace. */
  predicate Inert(bytes: seq<Byte>) {
    forall i :: 0 <= i < |bytes| ==>
      bytes[i] != QUOTE && bytes[i] != SLASH && bytes[i] != COMMA && !IsCloser(bytes[i]) && !IsWhitespace(bytes[i])
  }

  /** A byte in front that is no quote and no slash. */
  lemma PlainFirst(b: Byte, doc: Doc)
    requires WellFormed(doc) && b != QUOTE && b != SLASH
    ensures var more := More(Plain(b), doc);
            WellFormed(more) && Bytes(more) == [b] + Bytes(doc) && Clean(more) == More(Plain(b), Clean(doc)) && Unclosed(more) == Unclosed(doc)
  {
  }

  predicate InFront(bytes: seq<Byte>, doc: Doc) {
    var all := PlainAll(bytes, doc);
    WellFormed(all) && Bytes(all) == bytes + Bytes(doc) && Clean(all) == PlainAll(bytes, Clean(doc)) && Unclosed(all) == Unclosed(doc)
  }

  lemma SplitFront(bytes: seq<Byte>, after: seq<Byte>)
    requires bytes != []
    ensures [bytes[0]] + (bytes[1..] + after) == bytes + after
  {
  }

  lemma OneMoreInFront(bytes: seq<Byte>, doc: Doc)
    requires bytes != [] && bytes[0] != QUOTE && bytes[0] != SLASH && InFront(bytes[1..], doc)
    ensures InFront(bytes, doc)
  {
    PlainFirst(bytes[0], PlainAll(bytes[1..], doc));
    SplitFront(bytes, Bytes(doc));
  }

  lemma {:induction false} PlainAllOk(bytes: seq<Byte>, doc: Doc)
    requires WellFormed(doc)
    requires forall i :: 0 <= i < |bytes| ==> bytes[i] != QUOTE && bytes[i] != SLASH
    ensures InFront(bytes, doc)
  {
    if bytes == [] {
      assert bytes + Bytes(doc) == Bytes(doc);
    } else {
      PlainAllOk(bytes[1..], doc);
      OneMoreInFront(bytes, doc);
    }
  }

  lemma {:induction false} PlainAllInert(bytes: seq<Byte>, doc: Doc)
    requires Inert(bytes)
    ensures TrimCommas(PlainAll(bytes, doc)) == PlainAll(bytes, TrimCommas(doc))
    ensures bytes != [] ==> !NextIsCloser(PlainAll(bytes, doc))
  {
    if bytes != [] {
      PlainAllInert(bytes[1..], doc);
    }
  }

  /** A decorated text and its lexemes are the same bytes. */
  predicate Agrees(dec: Decorated) {
    WellFormed(DocOf(dec)) && Bytes(DocOf(dec)) == Print(dec) && !Unclosed(DocOf(dec))
  }

  lemma {:induction false} DocOfOk(dec: Decorated)
    requires DecoratedOk(dec)
    ensures Agrees(dec)
  {
    if dec.Then? {
      DocOfOk(dec.rest);
      if dec.item.Tok? {
        TokenAgrees(dec.item.t, dec.rest);
      } else {
        TriviaAgrees(dec.item, dec.rest);
      }
    }
  }

  lemma TokenAgrees(t: Token, rest: Decorated)
    requires TokenOk(t) && Agrees(rest)
    ensures Agrees(Then(Tok(t), rest))
  {
    if !t.Text? {
      PlainAllOk(TokenBytes(t), DocOf(rest));
    }
  }

  lemma TriviaAgrees(item: Decoration, rest: Decorated)
    requires !item.Tok? && DecoratedOk(Then(item, rest)) && Agrees(rest)
    ensures Agrees(Then(item, rest))
  {
  }

  lemma PaddedCloser(n: nat, doc: Doc)
    ensures NextIsCloser(Padded(n, doc)) == NextIsCloser(doc)
    ensures TrimCommas(Padded(n, doc)) == Padded(n, TrimCommas(doc))
  {
  }

  /** What a token other than a string looks like to the comma machine. */
  lemma TokenLexemes(t: Token, doc: Doc)
    requires TokenOk(t) && !t.Text?
    ensures NextIsCloser(PlainAll(TokenBytes(t), doc)) == ClosingToken(t)
    ensures TrimCommas(PlainAll(TokenBytes(t), doc))
         == if t == CommaToken && NextIsCloser(doc) then TrimCommas(doc) else PlainAll(TokenBytes(t), TrimCommas(doc))
  {
    if t.Scalar? {
      PlainAllInert(t.bytes, doc);
    } else {
      assert TokenBytes(t)[1..] == [];
    }
  }

  /** Looking ahead over the cleaned lexemes sees what the decoration says. */
  lemma {:induction false} LookAhead(dec: Decorated)
    requires DecoratedOk(dec)
    ensures NextIsCloser(Clean(DocOf(dec))) == BeforeCloser(dec)
  {
    match dec
    case Stop =>
    case FinalLine(_) =>
    case Then(Tok(t), rest) =>
      if !t.Text? {
        CleanToken(t, rest);
        TokenLexemes(t, Clean(DocOf(rest)));
      }
    case Then(Block(text), rest) =>
      LookAhead(rest);
      PaddedCloser(Newlines(text), Clean(DocOf(rest)));
    case Then(_, rest) => LookAhead(rest);
  }

  lemma CleanToken(t: Token, rest: Decorated)
    requires TokenOk(t) && !t.Text? && DecoratedOk(rest)
    ensures Clean(DocOf(Then(Tok(t), rest))) == PlainAll(TokenBytes(t), Clean(DocOf(rest)))
  {
    DocOfOk(rest);
    PlainAllOk(TokenBytes(t), DocOf(rest));
  }

  lemma {:induction false} CloserIsNextToken(dec: Decorated)
    requires BeforeCloser(dec)
    ensures Erase(dec) != [] && ClosingToken(Erase(dec)[0])
  {
    if !dec.item.Tok? {
      CloserIsNextToken(dec.rest);
    }
  }

  lemma SpacesDoc(n: nat, dec: Decorated)
    ensures DocOf(Spaces(n, dec)) == Padded(n, DocOf(dec))
    ensures Erase(Spaces(n, dec)) == Erase(dec)
    ensures OnlyTokensAndSpace(dec) ==> OnlyTokensAndSpace(Spaces(n, dec))
  {
  }

  lemma {:induction false} UndecoratedTokens(dec: Decorated)
    ensures Erase(Undecorated(dec)) == Erase(dec) && OnlyTokensAndSpace(Undecorated(dec))
  {
    if dec.Then? {
      UndecoratedTokens(dec.rest);
      if dec.item.Block? {
        SpacesDoc(Newlines(dec.item.text), Undecorated(dec.rest));
      }
    }
  }

  lemma AfterComma(more: seq<Token>)
    requires more != [] && ClosingToken(more[0])
    ensures !NoTrailingComma([CommaToken] + more)
  {
    var toks := [CommaToken] + more;
    assert toks[0] == CommaToken && toks[0 + 1] == more[0];
  }

  /** Cleaning and trimming the lexemes of a decorated text undecorates it. */
  lemma {:induction false} NormaliseDoc(dec: Decorated)
    requires DecoratedOk(dec) && NoTrailingComma(Erase(dec))
    ensures TrimCommas(Clean(DocOf(dec))) == DocOf(Undecorated(dec))
  {
    if dec.Then? {
      var rest := dec.rest;
      assert NoTrailingComma(Erase(rest)) by {
        if dec.item.Tok? {
          var toks := Erase(dec);
          assert Erase(rest) == toks[1..];
          assert forall k :: 0 <= k < |Erase(rest)| ==> Erase(rest)[k] == toks[k + 1];
        }
      }
      NormaliseDoc(rest);
      LookAhead(rest);
      if BeforeCloser(rest) {
        CloserIsNextToken(rest);
        AfterComma(Erase(rest));
      }
      NormaliseItem(dec.item, rest);
    }
  }

  lemma NormaliseItem(item: Decoration, rest: Decorated)
    requires DecoratedOk(Then(item, rest))
    requires TrimCommas(Clean(DocOf(rest))) == DocOf(Undecorated(rest))
    requires NextIsCloser(Clean(DocOf(rest))) == BeforeCloser(rest)
    requires item == Tok(CommaToken) ==> !BeforeCloser(rest)
    ensures TrimCommas(Clean(DocOf(Then(item, rest)))) == DocOf(Undecorated(Then(item, rest)))
  {
    match item
    case Tok(t) =>
      if !t.Text? {
        CleanToken(t, rest);
        TokenLexemes(t, Clean(DocOf(rest)));
      }
    case Block(text) =>
      PaddedCloser(Newlines(text), Clean(DocOf(rest)));
      SpacesDoc(Newlines(text), Undecorated(rest));
    case _ =>
  }

  /** No printed text can be mistaken for one that starts with a byte order mark. */
  lemma NoBom(dec: Decorated)
    requires DecoratedOk(dec)
    ensures !(BOM <= Print(dec))
  {
    if dec.Then? {
      assert DecorationBytes(dec.item) != [] && DecorationBytes(dec.item)[0] < 128;
      assert Print(dec)[0] == DecorationBytes(dec.item)[0];
    }
    assert Print(dec) == [] || Print(dec)[0] != BOM[0];
  }

  /** The JSONC round trip: decorate the tokens of any JSON text as you like, with
      or without a byte order mark; normalising succeeds and prints those tokens
      and the whitespace, each comment replaced by its newlines, trailing commas
      gone. Reading the output back finds exactly those lexemes. */
  lemma RoundTrip(j: Json, dec: Decorated, bom: bool)
    requires DecoratedOk(dec) && Erase(dec) == Tokens(j)
    ensures Normalised((if bom then [0xEF, 0xBB, 0xBF] else []) + Print(dec)) == Some(Print(Undecorated(dec)))
    ensures Erase(Undecorated(dec)) == Tokens(j) && OnlyTokensAndSpace(Undecorated(dec))
    ensures Lex(Print(Undecorated(dec))) == DocOf(Undecorated(dec))
  {
    var data := (if bom then [0xEF, 0xBB, 0xBF] else []) + Print(dec);
    NoBom(dec);
    assert WithoutBom(data) == Print(dec);
    DocOfOk(dec);
    LexIsUnique(DocOf(dec));
    NormalisedMeaning(data);
    JsonHasNoTrailingComma(j);
    NormaliseDoc(dec);
    UndecoratedTokens(dec);
    UndecoratedOk(dec);
    DocOfOk(Undecorated(dec));
    LexIsUnique(DocOf(Undecorated(dec)));
  }

  lemma {:induction false} UndecoratedOk(dec: Decorated)
    requires DecoratedOk(dec)
    ensures DecoratedOk(Undecorated(dec))
  {
    if dec.Then? {
      UndecoratedOk(dec.rest);
      if dec.item.Block? {
        SpacesOk(Newlines(dec.item.text), Undecorated(dec.rest));
      }
    }
  }

  lemma SpacesOk(n: nat, dec: Decorated)
    requires DecoratedOk(dec)
    ensures DecoratedOk(Spaces(n, dec))
  {
  }
}
