/** Turning JSONC bytes into JSON bytes: the two byte-level state machines of the
    settings reader, as loops over a buffer and as recursive functions on what is
    left to read. Module JsoncLexemes says what they mean. */
module Jsonc {
  import opened Basics

  const QUOTE: Byte := 34
  const STAR: Byte := 42
  const COMMA: Byte := 44
  const SLASH: Byte := 47
  const COLON: Byte := 58
  const LBRACKET: Byte := 91
  const BACKSLASH: Byte := 92
  const RBRACKET: Byte := 93
  const LBRACE: Byte := 123
  const RBRACE: Byte := 125

  predicate IsWhitespace(b: Byte) {
    b == 32 || b == 9 || b == 13 || b == LF
  }

  predicate IsCloser(b: Byte) {
    b == RBRACE || b == RBRACKET
  }

  // ----- comments

  datatype Mode = Normal | InString(escaped: bool) | InLine | InBlock

  predicate OpensComment(data: seq<Byte>) {
    |data| >= 2 && data[0] == SLASH && (data[1] == SLASH || data[1] == STAR)
  }

  predicate ClosesBlock(data: seq<Byte>) {
    |data| >= 2 && data[0] == STAR && data[1] == SLASH
  }

  function AfterStringByte(escaped: bool, b: Byte): Mode {
    if escaped then InString(false)
    else if b == BACKSLASH then InString(true)
    else if b == QUOTE then Normal
    else InString(false)
  }

  function Prefixed(prefix: seq<Byte>, r: Option<seq<Byte>>): Option<seq<Byte>> {
    match r
    case None => None
    case Some(bytes) => Some(prefix + bytes)
  }

  lemma Assoc(a: seq<Byte>, b: seq<Byte>, c: seq<Byte>)
    ensures (a + b) + c == a + (b + c)
  {
  }

  lemma PrefixedTwice(a: seq<Byte>, b: seq<Byte>, r: Option<seq<Byte>>)
    ensures Prefixed([], r) == r
    ensures Prefixed(a, Prefixed(b, r)) == Prefixed(a + b, r)
  {
    if r.Some? {
      assert [] + r.value == r.value;
      assert a + (b + r.value) == (a + b) + r.value;
    }
  }

  /** What the comment stripper emits for the bytes still to be read, or None when
      they end inside a block comment. */
  function Strip(data: seq<Byte>, mode: Mode): Option<seq<Byte>>
    decreases |data|
  {
    if data == [] then (if mode == InBlock then None else Some([]))
    else
      var b := data[0];
      match mode
      case InLine => if b == LF then Prefixed([LF], Strip(data[1..], Normal)) else Strip(data[1..], InLine)
      case InBlock =>
        if ClosesBlock(data) then Strip(data[2..], Normal)
        else if b == LF then Prefixed([LF], Strip(data[1..], InBlock))
        else Strip(data[1..], InBlock)
      case InString(escaped) => Prefixed([b], Strip(data[1..], AfterStringByte(escaped, b)))
      case Normal =>
        if b == QUOTE then Prefixed([b], Strip(data[1..], InString(false)))
        else if OpensComment(data) then Strip(data[2..], if data[1] == SLASH then InLine else InBlock)
        else Prefixed([b], Strip(data[1..], Normal))
  }

  function ModeOf(inString: bool, escaped: bool, inLine: bool, inBlock: bool): Mode {
    if inLine then InLine else if inBlock then InBlock else if inString then InString(escaped) else Normal
  }

  method StripComments(data: seq<Byte>) returns (r: Option<seq<Byte>>)
    ensures r == Strip(data, Normal)
  {
    var out: seq<Byte> := [];
    var inString, inLineComment, inBlockComment, escaped := false, false, false, false;
    var i := 0;
    assert data[i..] == data;
    PrefixedTwice([], [], Strip(data, Normal));
    while i < |data|
      invariant 0 <= i <= |data|
      invariant Prefixed(out, Strip(data[i..], ModeOf(inString, escaped, inLineComment, inBlockComment))) == Strip(data, Normal)
      invariant !(inLineComment && inBlockComment)
      invariant inLineComment || inBlockComment ==> !inString
      invariant escaped ==> inString
    {
      var ch := data[i];
      ghost var before := out;
      assert data[i..][1..] == data[i + 1..];
      assert i + 1 < |data| ==> data[i..][2..] == data[i + 2..];
      if inLineComment {
        if ch == LF {
          inLineComment := false;
          out := out + [ch];
        }
      } else if inBlockComment {
        if ch == STAR && i + 1 < |data| && data[i + 1] == SLASH {
          inBlockComment := false;
          i := i + 1;
        } else if ch == LF {
          out := out + [ch];
        }
      } else if inString {
        out := out + [ch];
        if escaped {
          escaped := false;
        } else if ch == BACKSLASH {
          escaped := true;
        } else if ch == QUOTE {
          inString := false;
        }
      } else if ch == QUOTE {
        inString := true;
        out := out + [ch];
      } else if ch == SLASH && i + 1 < |data| && data[i + 1] == SLASH {
        inLineComment := true;
        i := i + 1;
      } else if ch == SLASH && i + 1 < |data| && data[i + 1] == STAR {
        inBlockComment := true;
        i := i + 1;
      } else {
        out := out + [ch];
      }
      i := i + 1;
      PrefixedTwice(before, [ch], Strip(data[i..], ModeOf(inString, escaped, inLineComment, inBlockComment)));
    }
    if inBlockComment {
      return None;
    }
    assert out + [] == out;
    return Some(out);
  }

  // ----- trailing commas

  /** The bytes are whitespace and then a closing bracket. */
  predicate LeadsToCloser(data: seq<Byte>) {
    data != [] && (IsCloser(data[0]) || (IsWhitespace(data[0]) && LeadsToCloser(data[1..])))
  }

  function DropCommas(data: seq<Byte>, mode: Mode): seq<Byte>
    decreases |data|
  {
    if data == [] then []
    else
      var b := data[0];
      if mode.InString? then [b] + DropCommas(data[1..], AfterStringByte(mode.escaped, b))
      else if b == QUOTE then [b] + DropCommas(data[1..], InString(false))
      else if b == COMMA && LeadsToCloser(data[1..]) then DropCommas(data[1..], Normal)
      else [b] + DropCommas(data[1..], Normal)
  }

  method FindsCloser(data: seq<Byte>, start: nat) returns (found: bool)
    requires start <= |data|
    ensures found == LeadsToCloser(data[start..])
  {
    var j := start;
    while j < |data| && IsWhitespace(data[j])
      invariant start <= j <= |data|
      invariant LeadsToCloser(data[start..]) == LeadsToCloser(data[j..])
    {
      assert data[j..][1..] == data[j + 1..];
      j := j + 1;
    }
    found := j < |data| && (data[j] == RBRACE || data[j] == RBRACKET);
  }

  /** What the machine does with the byte at the front. */
  lemma DropStep(data: seq<Byte>, mode: Mode)
    requires data != [] && (mode == Normal || mode.InString?)
    ensures var b := data[0];
            DropCommas(data, mode) ==
              if mode.InString? then [b] + DropCommas(data[1..], AfterStringByte(mode.escaped, b))
              else if b == QUOTE then [b] + DropCommas(data[1..], InString(false))
              else if b == COMMA && LeadsToCloser(data[1..]) then DropCommas(data[1..], Normal)
              else [b] + DropCommas(data[1..], Normal)
  {
  }

  method StripTrailingCommas(data: seq<Byte>) returns (out: seq<Byte>)
    ensures out == DropCommas(data, Normal)
  {
    out := [];
    var inString, escaped := false, false;
    var i := 0;
    assert data[i..] == data && out + DropCommas(data, Normal) == DropCommas(data, Normal);
    while i < |data|
      invariant 0 <= i <= |data|
      invariant out + DropCommas(data[i..], ModeOf(inString, escaped, false, false)) == DropCommas(data, Normal)
      invariant escaped ==> inString
    {
      var ch := data[i];
      DropStep(data[i..], ModeOf(inString, escaped, false, false));
      assert data[i..][1..] == data[i + 1..];
      var emit := true;
      if inString {
        if escaped {
          escaped := false;
        } else if ch == BACKSLASH {
          escaped := true;
        } else if ch == QUOTE {
          inString := false;
        }
      } else if ch == QUOTE {
        inString := true;
      } else if ch == COMMA {
        var closer := FindsCloser(data, i + 1);
        emit := !closer;
      }
      i := i + 1;
      if emit {
        Assoc(out, [ch], DropCommas(data[i..], ModeOf(inString, escaped, false, false)));
        out := out + [ch];
      }
    }
    assert out + [] == out;
  }

  // ----- the normaliser

  const BOM: seq<Byte> := [0xEF, 0xBB, 0xBF]

  function WithoutBom(data: seq<Byte>): seq<Byte> {
    if BOM <= data then data[3..] else data
  }

  function Normalised(data: seq<Byte>): Option<seq<Byte>> {
    match Strip(WithoutBom(data), Normal)
    case None => None
    case Some(bytes) => Some(DropCommas(bytes, Normal))
  }

  method Normalize(data: seq<Byte>) returns (r: Option<seq<Byte>>)
    ensures r == Normalised(data)
  {
    var rest := data;
    if |data| >= 3 && data[0] == 0xEF && data[1] == 0xBB && data[2] == 0xBF {
      rest := data[3..];
    }
    var withoutComments := StripComments(rest);
    if withoutComments == None {
      return None;
    }
    var out := StripTrailingCommas(withoutComments.value);
    return Some(out);
  }
}
