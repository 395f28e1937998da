/** Lua tables in print, and the brace that closes them.

    A table's text is spelled out here character by character, as in section 2.1 of the Lua 5.1
    Reference Manual: strings in either quote with escapes, line comments, long comments and
    long brackets of any level, and nested tables. `PrintedTableCloses` shows that the reference
    machine matches the opening brace of every such table with its last one. */
module LuaTables {
  import opened Wrappers
  import opened LuaLexer

  datatype StringChar = Char(c: char) | Escape(c: char)

  /** What a table holds, piece by piece. */
  datatype Lua =
    | End
    | Byte(c: char, rest: Lua)
    | Text(quote: char, chars: seq<StringChar>, rest: Lua)
    | LineComment(text: string, rest: Lua)
    | LongComment(level: nat, text: string, rest: Lua)
    | LongText(level: nat, text: string, rest: Lua)
    | Table(inner: Lua, rest: Lua)

  // ----- the printer

  function Signs(level: nat): string {
    if level == 0 then "" else "=" + Signs(level - 1)
  }

  function LongBracket(level: nat, text: string): string {
    "[" + Signs(level) + "[" + text + "]" + Signs(level) + "]"
  }

  function Chars(chars: seq<StringChar>): string {
    if chars == [] then ""
    else (if chars[0].Escape? then ['\\', chars[0].c] else [chars[0].c]) + Chars(chars[1..])
  }

  /** One piece, without what follows it. */
  function Piece(lua: Lua): string
    decreases lua, 0
  {
    match lua
    case End => ""
    case Byte(c, _) => [c]
    case Text(quote, chars, _) => [quote] + Chars(chars) + [quote]
    case LineComment(text, _) => "--" + text + "\n"
    case LongComment(level, text, _) => "--" + LongBracket(level, text)
    case LongText(level, text, _) => LongBracket(level, text)
    case Table(inner, _) => "{" + Print(inner) + "}"
  }

  function Print(lua: Lua): string
    decreases lua, 1
  {
    if lua.End? then "" else Piece(lua) + Print(lua.rest)
  }

  // ----- which pieces can stand where

  /** The text opens a long bracket. */
  ghost predicate Opens(text: string) {
    exists level: nat :: "[" + Signs(level) + "[" <= text
  }

  /** The closer of this level first occurs after the text. */
  predicate Closed(level: nat, text: string) {
    forall i :: 0 <= i < |text| ==> !("]" + Signs(level) + "]" <= (text + "]" + Signs(level) + "]")[i..])
  }

  /** A byte of code is no brace and no quote; two dashes would be a comment, and two opening
      brackets, or one and an equals sign, may be a long bracket. */
  predicate PlainByte(c: char, next: string) {
    && c != '{' && c != '}' && c != '\'' && c != '"'
    && (c == '-' ==> next != "" && next[0] != '-')
    && (c == '[' ==> next != "" && next[0] != '[' && next[0] != '=')
  }

  ghost predicate Fits(lua: Lua) {
    match lua
    case End => true
    case Byte(c, rest) => PlainByte(c, Print(rest) + "}") && Fits(rest)
    case Text(quote, chars, rest) =>
      && (quote == '\'' || quote == '"')
      && (forall i :: 0 <= i < |chars| && chars[i].Char? ==> chars[i].c != '\\' && chars[i].c != quote)
      && Fits(rest)
    case LineComment(text, rest) => '\n' !in text && !Opens(text) && Fits(rest)
    case LongComment(level, text, rest) => Closed(level, text) && Fits(rest)
    case LongText(level, text, rest) => Closed(level, text) && Fits(rest)
    case Table(inner, rest) => Fits(inner) && Fits(rest)
  }

  // ----- long brackets

  lemma {:induction false} SignsAre(level: nat)
    ensures |Signs(level)| == level && Signs(level) == seq(level, _ => '=')
    ensures "]" + Signs(level) + "]" == Closer(level)
  {
    if level > 0 {
      SignsAre(level - 1);
    }
  }

  lemma {:induction false} SignsCount(level: nat, after: string)
    requires after != "" && after[0] != '='
    ensures Equals(Signs(level) + after) == level
  {
    if level == 0 {
      assert Signs(level) + after == after;
    } else {
      SignsCount(level - 1, after);
      assert (Signs(level) + after)[1..] == Signs(level - 1) + after;
    }
  }

  lemma Opened(level: nat, content: string)
    ensures var s := "[" + Signs(level) + "[" + content;
            LongOpen(s) == Some(level) && s[level + 2..] == content
  {
    var s := "[" + Signs(level) + "[" + content;
    SignsAre(level);
    SignsCount(level, "[" + content);
    assert s[1..] == Signs(level) + ("[" + content);
  }

  lemma StartsWithin(x: string, s: string, after: string)
    requires |x| <= |s|
    ensures x <= s + after <==> x <= s
  {
    assert (s + after)[..|x|] == s[..|x|];
  }

  /** The first place of the closer is after the text. */
  lemma {:induction false} FindsCloser(text: string, closer: string, after: string)
    requires closer != "" && forall i :: 0 <= i < |text| ==> !(closer <= (text + closer)[i..])
    ensures Find(text + closer + after, closer) == Some(|text|)
  {
    var s := text + closer + after;
    if text == "" {
      assert s[..|closer|] == closer;
    } else {
      assert (text + closer)[0..] == text + closer;
      StartsWithin(closer, text + closer, after);
      assert s[1..] == text[1..] + closer + after;
      forall i | 0 <= i < |text| - 1
        ensures !(closer <= (text[1..] + closer)[i..])
      {
        assert (text[1..] + closer)[i..] == (text + closer)[i + 1..];
      }
      FindsCloser(text[1..], closer, after);
    }
  }

  lemma LongBracketIs(level: nat, text: string, after: string)
    requires Closed(level, text)
    ensures var s := LongBracket(level, text) + after;
            LongOpen(s) == Some(level) && LongBracketEnd(s) == Some(|LongBracket(level, text)|)
  {
    var content := text + Closer(level) + after;
    var s := LongBracket(level, text) + after;
    SignsAre(level);
    assert text + "]" + Signs(level) + "]" == text + Closer(level);
    assert s == "[" + Signs(level) + "[" + content;
    Opened(level, content);
    FindsCloser(text, Closer(level), after);
    hide Find;
  }

  // ----- one piece

  lemma {:induction false} CharsEnd(chars: seq<StringChar>, quote: char, after: string)
    requires quote != '\\'
    requires forall i :: 0 <= i < |chars| && chars[i].Char? ==> chars[i].c != '\\' && chars[i].c != quote
    ensures QuoteEnd(Chars(chars) + [quote] + after, quote) == Some(|Chars(chars)| + 1)
  {
    var s := Chars(chars) + [quote] + after;
    if chars == [] {
      assert s[0] == quote;
    } else {
      CharsEnd(chars[1..], quote, after);
      var rest := Chars(chars[1..]) + [quote] + after;
      assert s[0] == if chars[0].Escape? then '\\' else chars[0].c;
      assert s[if chars[0].Escape? then 2 else 1..] == rest;
    }
  }

  lemma TextIs(quote: char, chars: seq<StringChar>, after: string)
    requires quote == '\'' || quote == '"'
    requires forall i :: 0 <= i < |chars| && chars[i].Char? ==> chars[i].c != '\\' && chars[i].c != quote
    ensures var piece := [quote] + Chars(chars) + [quote]; NonCode(piece + after) == Some(|piece|)
  {
    var s := [quote] + Chars(chars) + [quote] + after;
    CharsEnd(chars, quote, after);
    assert s[1..] == Chars(chars) + [quote] + after && s[0] == quote;
    hide QuoteEnd;
    hide Chars;
  }

  lemma {:induction false} LineEndIs(text: string, after: string)
    requires '\n' !in text
    ensures LineEnd(text + "\n" + after) == |text| + 1
  {
    var s := text + "\n" + after;
    if text == "" {
      assert s[0] == '\n';
    } else {
      assert s[0] == text[0] && s[1..] == text[1..] + "\n" + after;
      LineEndIs(text[1..], after);
    }
  }

  lemma {:induction false} EqualsAre(s: string)
    ensures s[..Equals(s)] == Signs(Equals(s))
  {
    if s != "" && s[0] == '=' {
      EqualsAre(s[1..]);
      assert s[..Equals(s)] == [s[0]] + s[1..][..Equals(s) - 1];
    }
  }

  lemma OpenerIsThere(s: string)
    ensures LongOpen(s).Some? ==> "[" + Signs(LongOpen(s).value) + "[" <= s
  {
    if LongOpen(s).Some? {
      var level := LongOpen(s).value;
      EqualsAre(s[1..]);
      assert s[..level + 2] == "[" + Signs(level) + "[";
    }
  }

  lemma BeforeNewline(x: string, text: string, after: string)
    requires '\n' !in x
    ensures x <= text + "\n" + after ==> x <= text
  {
    var s := text + "\n" + after;
    assert s[|text|] == '\n';
    assert |x| > |text| ==> x[|text|] in x;
    if |x| <= |text| {
      assert s[..|x|] == text[..|x|];
    }
  }

  lemma NoNewline(level: nat)
    ensures '\n' !in "[" + Signs(level) + "["
  {
    SignsAre(level);
  }

  /** A line comment's text opens no long bracket with what follows the line. */
  lemma LineOpensNone(text: string, after: string)
    requires '\n' !in text && !Opens(text)
    ensures LongOpen(text + "\n" + after) == None
  {
    var s := text + "\n" + after;
    OpenerIsThere(s);
    var level := if LongOpen(s).Some? then LongOpen(s).value else 0;
    NoNewline(level);
    BeforeNewline("[" + Signs(level) + "[", text, after);
    hide LongOpen;
    hide Signs;
  }

  lemma LineCommentIs(text: string, after: string)
    requires '\n' !in text && !Opens(text)
    ensures var piece := "--" + text + "\n"; NonCode(piece + after) == Some(|piece|)
  {
    var s := "--" + text + "\n" + after;
    assert s[0] == '-' && s[1] == '-' && s[2..] == text + "\n" + after;
    LineOpensNone(text, after);
    LineEndIs(text, after);
    hide LongOpen;
    hide LineEnd;
    DashNonCode(s);
    hide NonCode;
  }

  lemma LongCommentIs(level: nat, text: string, after: string)
    requires Closed(level, text)
    ensures var piece := "--" + LongBracket(level, text); NonCode(piece + after) == Some(|piece|)
  {
    var s := "--" + LongBracket(level, text) + after;
    assert s[0] == '-' && s[1] == '-' && s[2..] == LongBracket(level, text) + after;
    LongBracketIs(level, text, after);
    hide LongOpen;
    hide LongBracketEnd;
    hide LongBracket;
    DashNonCode(s);
    hide NonCode;
  }

  lemma LongTextIs(level: nat, text: string, after: string)
    requires Closed(level, text)
    ensures var piece := LongBracket(level, text); NonCode(piece + after) == Some(|piece|)
  {
    var s := LongBracket(level, text) + after;
    LongBracketIs(level, text, after);
    assert s[0] == '[';
    hide LongOpen;
    hide LongBracketEnd;
  }

  lemma ByteIs(c: char, next: string, after: string)
    requires PlainByte(c, next)
    ensures NonCode([c] + next + after) == Some(0)
  {
    var s := [c] + next + after;
    assert s[1..] == next + after && s[0] == c;
    assert next != "" ==> s[1] == next[0];
  }

  // ----- the machine reads piece by piece

  /** Skipping a piece that is not code. */
  lemma Skips(piece: string, tail: string, depth: nat)
    requires piece != "" && NonCode(piece + tail) == Some(|piece|)
    ensures Closes(piece + tail, Code, depth) == Shift(Closes(tail, Code, depth), |piece|)
  {
    CodeCloses(piece + tail, depth);
    assert (piece + tail)[|piece|..] == tail;
    hide Closes;
    hide NonCode;
  }

  /** Reading one byte of code. */
  lemma Reads(c: char, tail: string, depth: nat)
    requires NonCode([c] + tail) == Some(0) && (c == '}' ==> depth > 1)
    ensures Closes([c] + tail, Code, depth) == Shift(Closes(tail, Code, Deeper(c, depth)), 1)
  {
    CodeCloses([c] + tail, depth);
    assert ([c] + tail)[1..] == tail;
    hide Closes;
    hide NonCode;
  }

  /** What is left of a table and what stands after it. */
  function Ending(inner: string, after: string): string {
    inner + "}" + after
  }

  lemma PieceCloses(lua: Lua, after: string, depth: nat)
    requires !lua.End? && !lua.Table? && Fits(lua) && depth > 0
    ensures var tail := Ending(Print(lua.rest), after);
            Closes(Piece(lua) + tail, Code, depth) == Shift(Closes(tail, Code, depth), |Piece(lua)|)
  {
    var next := Print(lua.rest) + "}";
    var tail := next + after;
    match lua
    case Byte(c, rest) =>
      ByteIs(c, next, after);
      assert [c] + next + after == [c] + tail;
      hide *;
      Reads(c, tail, depth);
      PlainIsNoDeeper(c, next, depth);
    case Text(quote, chars, _) =>
      TextIs(quote, chars, tail);
      Skips(Piece(lua), tail, depth);
      hide Closes;
    case LineComment(text, _) =>
      LineCommentIs(text, tail);
      Skips(Piece(lua), tail, depth);
      hide Closes;
    case LongComment(level, text, _) =>
      LongCommentIs(level, text, tail);
      Skips(Piece(lua), tail, depth);
      hide Closes;
    case LongText(level, text, _) =>
      LongTextIs(level, text, tail);
      Skips(Piece(lua), tail, depth);
      hide Closes;
  }

  lemma PlainIsNoDeeper(c: char, next: string, depth: nat)
    requires PlainByte(c, next) && depth > 0
    ensures Deeper(c, depth) == depth && c != '}'
  {
  }

  lemma BracesAreCode(c: char, tail: string)
    requires c == '{' || c == '}'
    ensures NonCode([c] + tail) == Some(0)
  {
    BracesArePlain([c] + tail);
  }

  lemma ShiftTwice(r: Option<nat>, a: nat, b: nat)
    ensures Shift(Shift(r, a), b) == Shift(r, a + b)
  {
  }

  lemma BracedText(inner: string, tail: string)
    ensures "{" + inner + "}" + tail == ['{'] + Ending(inner, tail) && Ending("", tail) == ['}'] + tail
  {
  }

  /** Over a nested table: a brace, what it holds, and its closing brace. */
  lemma TableReads(inner: string, tail: string, depth: nat)
    requires depth > 0
    requires Closes(Ending(inner, tail), Code, depth + 1) == Shift(Closes(Ending("", tail), Code, depth + 1), |inner|)
    ensures Closes("{" + inner + "}" + tail, Code, depth) == Shift(Closes(tail, Code, depth), |inner| + 2)
  {
    hide *;
    BracedText(inner, tail);
    BracesAreCode('{', Ending(inner, tail));
    BracesAreCode('}', tail);
    BracesDeepen(depth);
    Reads('}', tail, depth + 1);
    Reads('{', Ending(inner, tail), depth);
    ShiftTwice(Closes(tail, Code, depth), 1, |inner|);
    ShiftTwice(Closes(tail, Code, depth), 1 + |inner|, 1);
  }

  lemma PieceText(lua: Lua, after: string)
    requires !lua.End?
    ensures Ending(Print(lua), after) == Piece(lua) + Ending(Print(lua.rest), after)
    ensures |Print(lua)| == |Piece(lua)| + |Print(lua.rest)|
  {
  }

  lemma RestFits(lua: Lua)
    requires !lua.End? && Fits(lua)
    ensures Fits(lua.rest) && (lua.Table? ==> Fits(lua.inner))
  {
  }

  /** Whatever a table holds, the machine comes out at its closing brace at the depth it had. */
  lemma {:induction false} LuaCloses(lua: Lua, after: string, depth: nat)
    requires Fits(lua) && depth > 0
    ensures Closes(Ending(Print(lua), after), Code, depth)
         == Shift(Closes(Ending("", after), Code, depth), |Print(lua)|)
  {
    hide *;
    if lua.End? {
      NothingLeft(lua, Closes(Ending("", after), Code, depth));
      return;
    }
    RestFits(lua);
    LuaCloses(lua.rest, after, depth);
    var tail := Ending(Print(lua.rest), after);
    if lua.Table? {
      LuaCloses(lua.inner, tail, depth + 1);
      TableReads(Print(lua.inner), tail, depth);
      TableText(lua);
    } else {
      PieceCloses(lua, after, depth);
    }
    PieceText(lua, after);
    ShiftTwice(Closes(Ending("", after), Code, depth), |Print(lua.rest)|, |Piece(lua)|);
  }

  lemma NothingLeft(lua: Lua, r: Option<nat>)
    requires lua.End?
    ensures Print(lua) == "" && Shift(r, 0) == r
  {
  }

  lemma TableText(lua: Lua)
    requires lua.Table?
    ensures Piece(lua) == "{" + Print(lua.inner) + "}" && |Piece(lua)| == |Print(lua.inner)| + 2
  {
  }

  lemma BracesDeepen(depth: nat)
    ensures Deeper('{', depth) == depth + 1 && Deeper('}', depth + 1) == depth
  {
  }

  lemma LastBrace(after: string)
    ensures Closes(Ending("", after), Code, 1) == Some(0)
  {
    assert Ending("", after)[0] == '}';
  }

  /** The brace that opens a printed table is matched with its last brace, whatever stands before
      and after the table. */
  lemma PrintedTableCloses(before: string, table: Lua, after: string)
    requires Fits(table)
    ensures MatchingBrace(before + "{" + Print(table) + "}" + after, |before|) == Some(|before| + 1 + |Print(table)|)
  {
    hide *;
    var open, n, inner := |before|, |Print(table)|, Ending(Print(table), after);
    LuaCloses(table, after, 1);
    LastBrace(after);
    BracesAreCode('{', inner);
    BracesDeepen(0);
    Reads('{', inner, 0);
    ShiftIs(n, 1, open);
    MatchesAt(before, Print(table), after);
  }

  lemma MatchesAt(before: string, inner: string, after: string)
    ensures MatchingBrace(before + "{" + inner + "}" + after, |before|)
         == Shift(Closes(['{'] + Ending(inner, after), Code, 0), |before|)
  {
    var source := before + "{" + inner + "}" + after;
    assert source[|before|] == '{' && source[|before|..] == ['{'] + Ending(inner, after);
    hide Closes;
  }

  lemma ShiftIs(a: nat, b: nat, c: nat)
    ensures Shift(Shift(Shift(Some(0), a), b), c) == Some(c + b + a)
  {
  }
}
