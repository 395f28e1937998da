/** The lexical reference for finding the brace that closes a Lua table.

    It is a machine that reads one byte at a time and never looks ahead. Long brackets and
    comments are those of section 2.1 of the Lua 5.1 Reference Manual. The scanners look
    ahead instead, so the lemmas show that the machine's run over a string, long bracket or
    comment amounts to one jump over it. */
module LuaLexer {
  import opened Wrappers

  /** What the machine remembers. `Dash` and `Opening` have seen text that may yet turn out
      to be plain code; `Closing` has seen a bracket and some equals signs inside a long
      bracket. */
  datatype Mode =
    | Code
    | Dash
    | Quoted(quote: char)
    | Escaped(quote: char)
    | CommentStart
    | Line
    | Opening(level: nat, comment: bool)
    | Long(level: nat)
    | Closing(level: nat, seen: nat)

  /** An apostrophe or a quotation mark. */
  predicate IsQuote(c: char) {
    c as int == 39 || c as int == 34
  }

  /** The byte is read as ordinary code. */
  predicate AsCode(mode: Mode, c: char) {
    || mode.Code?
    || (mode.Dash? && c != '-')
    || (mode.Opening? && !mode.comment && c != '=' && c != '[')
  }

  function AfterCode(c: char): Mode {
    if IsQuote(c) then Quoted(c)
    else if c == '[' then Opening(0, false)
    else if c == '-' then Dash
    else Code
  }

  function Next(mode: Mode, c: char): Mode {
    if AsCode(mode, c) then AfterCode(c)
    else match mode
      case Dash => CommentStart
      case Quoted(q) => if c == '\\' then Escaped(q) else if c == q then Code else mode
      case Escaped(q) => Quoted(q)
      case CommentStart => if c == '[' then Opening(0, true) else if c == '\n' then Code else Line
      case Line => if c == '\n' then Code else Line
      case Opening(level, comment) =>
        if c == '=' then Opening(level + 1, comment)
        else if c == '[' then Long(level)
        else if c == '\n' then Code
        else Line
      case Long(level) => if c == ']' then Closing(level, 0) else mode
      case Closing(level, seen) =>
        if c == '=' then Closing(level, seen + 1)
        else if c != ']' then Long(level)
        else if seen == level then Code
        else Closing(level, 0)
      case Code => Code
  }

  function Shift(r: Option<nat>, n: nat): Option<nat> {
    match r case Some(k) => Some(k + n) case None => None
  }

  /** Where, reading on in the given mode and at the given depth, the depth first falls
      back to zero. */
  function Closes(s: string, mode: Mode, depth: nat): (r: Option<nat>)
    ensures r.Some? ==> r.value < |s| && s[r.value] == '}'
  {
    if s == [] then None
    else if AsCode(mode, s[0]) && s[0] == '}' then
      if depth == 0 then None
      else if depth == 1 then Some(0)
      else Shift(Closes(s[1..], Next(mode, s[0]), depth - 1), 1)
    else if AsCode(mode, s[0]) && s[0] == '{' then Shift(Closes(s[1..], Next(mode, s[0]), depth + 1), 1)
    else Shift(Closes(s[1..], Next(mode, s[0]), depth), 1)
  }

  /** The reference answer for the brace at `open`. */
  function MatchingBrace(source: string, open: nat): Option<nat> {
    if open < |source| && source[open] == '{' then Shift(Closes(source[open..], Code, 0), open) else None
  }

  // ----- the lookahead the scanners use

  function Equals(s: string): (n: nat)
    ensures n <= |s|
  {
    if s != [] && s[0] == '=' then 1 + Equals(s[1..]) else 0
  }

  /** The level of the long bracket that opens here, if one does. */
  function LongOpen(s: string): (r: Option<nat>)
    ensures r.Some? ==> r.value + 2 <= |s|
  {
    if s == [] || s[0] != '[' then None
    else
      var level := Equals(s[1..]);
      if level + 1 < |s| && s[level + 1] == '[' then Some(level) else None
  }

  function Closer(level: nat): string {
    [']'] + seq(level, _ => '=') + [']']
  }

  function Find(s: string, needle: string): (r: Option<nat>)
    ensures r.Some? ==> r.value + |needle| <= |s|
  {
    if needle <= s then Some(0)
    else if s == [] then None
    else Shift(Find(s[1..], needle), 1)
  }

  /** Just past the end of the long bracket whose content starts here. */
  function LongEnd(s: string, level: nat): (r: Option<nat>)
    ensures r.Some? ==> 0 < r.value <= |s|
  {
    Shift(Find(s, Closer(level)), level + 2)
  }

  /** Just past the end of the long bracket that opens here. */
  function LongBracketEnd(s: string): (r: Option<nat>)
    requires LongOpen(s).Some?
    ensures r.Some? ==> LongOpen(s).value + 2 < r.value <= |s|
  {
    var level := LongOpen(s).value;
    Shift(LongEnd(s[level + 2..], level), level + 2)
  }

  function QuoteEnd(s: string, quote: char): (r: Option<nat>)
    ensures r.Some? ==> 0 < r.value <= |s|
  {
    if s == [] then None
    else if s[0] == '\\' then (if |s| == 1 then None else Shift(QuoteEnd(s[2..], quote), 2))
    else if s[0] == quote then Some(1)
    else Shift(QuoteEnd(s[1..], quote), 1)
  }

  /** The length of the rest of the line, its newline included. */
  function LineEnd(s: string): (n: nat)
    ensures n <= |s|
  {
    if s == [] then 0 else if s[0] == '\n' then 1 else 1 + LineEnd(s[1..])
  }

  /** Just past the end of the comment whose marker has been read. */
  function CommentEnd(s: string): (r: Option<nat>)
    ensures r.Some? ==> r.value <= |s|
  {
    if LongOpen(s).Some? then LongBracketEnd(s) else Some(LineEnd(s))
  }

  /** Just past the string, long bracket or comment that starts here; zero when plain code
      starts here; nothing when it never ends. */
  function NonCode(s: string): (r: Option<nat>)
    requires s != []
    ensures r.Some? ==> r.value <= |s|
  {
    if IsQuote(s[0]) then Shift(QuoteEnd(s[1..], s[0]), 1)
    else if LongOpen(s).Some? then LongBracketEnd(s)
    else if s[0] == '-' && |s| > 1 && s[1] == '-' then Shift(CommentEnd(s[2..]), 2)
    else Some(0)
  }

  lemma BracesArePlain(s: string)
    requires s != [] && (s[0] == '{' || s[0] == '}')
    ensures NonCode(s) == Some(0)
  {
  }

  // ----- the machine agrees with the lookahead

  /** Reading on in code after skipping `n` bytes, or never closing. */
  function Resume(s: string, n: Option<nat>, depth: nat): Option<nat>
    requires n.Some? ==> n.value <= |s|
  {
    match n case Some(k) => Shift(Closes(s[k..], Code, depth), k) case None => None
  }

  lemma ResumeLater(s: string, end: Option<nat>, n: nat, depth: nat)
    requires n <= |s| && (end.Some? ==> end.value <= |s| - n)
    ensures Shift(Resume(s[n..], end, depth), n) == Resume(s, Shift(end, n), depth)
  {
    if end.Some? {
      assert s[n..][end.value..] == s[n + end.value..];
    }
  }

  /** One byte that is not a brace read as code. */
  lemma ReadByte(s: string, mode: Mode, depth: nat)
    requires s != [] && !(AsCode(mode, s[0]) && (s[0] == '{' || s[0] == '}'))
    ensures Closes(s, mode, depth) == Shift(Closes(s[1..], Next(mode, s[0]), depth), 1)
  {
  }

  /** One byte that ends what is skipped. */
  lemma ReadLast(s: string, mode: Mode, depth: nat)
    requires s != [] && !AsCode(mode, s[0]) && Next(mode, s[0]) == Code
    ensures Closes(s, mode, depth) == Resume(s, Some(1), depth)
  {
  }

  /** One byte that is skipped, and what is skipped after it. */
  lemma ReadOn(s: string, mode: Mode, end: Option<nat>, depth: nat)
    requires s != [] && !AsCode(mode, s[0]) && (end.Some? ==> end.value < |s|)
    requires Closes(s[1..], Next(mode, s[0]), depth) == Resume(s[1..], end, depth)
    ensures Closes(s, mode, depth) == Resume(s, Shift(end, 1), depth)
  {
    ReadByte(s, mode, depth);
    ResumeLater(s, end, 1, depth);
  }

  lemma ReadNothing(mode: Mode, depth: nat)
    ensures Closes([], mode, depth) == None
  {
  }

  lemma {:induction false} QuotedCloses(s: string, quote: char, depth: nat)
    requires IsQuote(quote)
    ensures Closes(s, Quoted(quote), depth) == Resume(s, QuoteEnd(s, quote), depth)
  {
    ReadNothing(Quoted(quote), depth);
    ReadNothing(Escaped(quote), depth);
    hide Closes;
    if s == [] {
    } else if s[0] == '\\' {
      ReadByte(s, Quoted(quote), depth);
      if |s| > 1 {
        ReadByte(s[1..], Escaped(quote), depth);
        assert s[1..][1..] == s[2..];
        QuotedCloses(s[2..], quote, depth);
        ResumeLater(s, QuoteEnd(s[2..], quote), 2, depth);
      }
    } else if s[0] == quote {
      ReadLast(s, Quoted(quote), depth);
    } else {
      QuotedCloses(s[1..], quote, depth);
      ReadOn(s, Quoted(quote), QuoteEnd(s[1..], quote), depth);
    }
  }

  lemma {:induction false} LineCloses(s: string, depth: nat)
    ensures Closes(s, Line, depth) == Resume(s, Some(LineEnd(s)), depth)
  {
    if s != [] && s[0] != '\n' {
      LineCloses(s[1..], depth);
      ReadOn(s, Line, Some(LineEnd(s[1..])), depth);
    }
  }

  function EqualsThenBracket(n: nat): string {
    seq(n, _ => '=') + [']']
  }

  lemma EqualsThenBracketStep(s: string, n: nat)
    requires s != []
    ensures s[0] == '=' ==> (EqualsThenBracket(n + 1) <= s <==> EqualsThenBracket(n) <= s[1..])
    ensures s[0] != '=' ==> !(EqualsThenBracket(n + 1) <= s)
    ensures EqualsThenBracket(0) <= s <==> s[0] == ']'
    ensures Closer(n) <= s <==> s[0] == ']' && EqualsThenBracket(n) <= s[1..]
  {
    assert EqualsThenBracket(n + 1) == ['='] + EqualsThenBracket(n);
    assert Closer(n) == [']'] + EqualsThenBracket(n);
    assert s == [s[0]] + s[1..];
    assert EqualsThenBracket(0) == [']'];
  }

  /** Inside a long bracket, after a bracket and some equals signs. */
  lemma {:induction false} ClosingCloses(s: string, level: nat, seen: nat, depth: nat)
    ensures Closes(s, Closing(level, seen), depth)
         == if seen <= level && EqualsThenBracket(level - seen) <= s
            then Resume(s, Some(level - seen + 1), depth)
            else Closes(s, Long(level), depth)
  {
    ReadNothing(Closing(level, seen), depth);
    ReadNothing(Long(level), depth);
    hide Closes;
    if s != [] {
      ReadByte(s, Closing(level, seen), depth);
      ReadByte(s, Long(level), depth);
      EqualsThenBracketStep(s, if seen < level then level - seen - 1 else 0);
      if s[0] == '=' {
        ClosingCloses(s[1..], level, seen + 1, depth);
        if seen < level && EqualsThenBracket(level - seen) <= s {
          ResumeLater(s, Some(level - seen), 1, depth);
        }
      } else if s[0] == ']' && seen == level {
        ReadLast(s, Closing(level, seen), depth);
      }
    }
  }

  lemma {:induction false} LongCloses(s: string, level: nat, depth: nat)
    ensures Closes(s, Long(level), depth) == Resume(s, LongEnd(s, level), depth)
  {
    ReadNothing(Long(level), depth);
    hide Closes;
    if s == [] {
      assert !(Closer(level) <= s);
    } else {
      ReadByte(s, Long(level), depth);
      EqualsThenBracketStep(s, level);
      if s[0] == ']' {
        ClosingCloses(s[1..], level, 0, depth);
      }
      if Closer(level) <= s {
        ResumeLater(s, Some(level + 1), 1, depth);
      } else {
        LongCloses(s[1..], level, depth);
        ResumeLater(s, LongEnd(s[1..], level), 1, depth);
      }
    }
  }

  /** Where a long bracket's content starts, its first bracket and equals signs read. */
  function ContentEnd(s: string, level: nat): (r: Option<nat>)
    requires Equals(s) < |s|
    ensures r.Some? ==> r.value <= |s|
  {
    Shift(LongEnd(s[Equals(s) + 1..], level + Equals(s)), Equals(s) + 1)
  }

  predicate OpensHere(s: string) {
    Equals(s) < |s| && s[Equals(s)] == '['
  }

  lemma ContentEndStep(s: string, level: nat)
    requires s != [] && s[0] == '=' && Equals(s[1..]) < |s| - 1
    ensures ContentEnd(s, level) == Shift(ContentEnd(s[1..], level + 1), 1)
  {
    var n := Equals(s[1..]);
    assert s[1..][n + 1..] == s[n + 2..];
  }

  /** After a possible opening bracket: a long bracket opens, or what was read was code, or
      the rest of a line comment. */
  lemma {:induction false} OpeningCloses(s: string, level: nat, comment: bool, depth: nat)
    ensures Closes(s, Opening(level, comment), depth)
         == if OpensHere(s) then Resume(s, ContentEnd(s, level), depth)
            else Closes(s, if comment then Line else Code, depth)
  {
    if s != [] && s[0] == '=' {
      var plain := if comment then Line else Code;
      ReadByte(s, Opening(level, comment), depth);
      ReadByte(s, plain, depth);
      hide Closes;
      OpeningCloses(s[1..], level + 1, comment, depth);
      if OpensHere(s) {
        ContentEndStep(s, level);
        ResumeLater(s, ContentEnd(s[1..], level + 1), 1, depth);
      }
    } else if s != [] && s[0] == '[' {
      hide Closes;
      LongCloses(s[1..], level, depth);
      ReadOn(s, Opening(level, comment), LongEnd(s[1..], level), depth);
    }
  }

  lemma OpensLong(s: string)
    requires s != [] && s[0] == '['
    ensures OpensHere(s[1..]) <==> LongOpen(s).Some?
    ensures LongOpen(s).Some? ==> Shift(ContentEnd(s[1..], 0), 1) == LongBracketEnd(s)
  {
    if OpensHere(s[1..]) {
      var n := Equals(s[1..]);
      assert s[1..][n + 1..] == s[n + 2..];
    }
  }

  lemma CommentCloses(s: string, depth: nat)
    ensures Closes(s, CommentStart, depth) == Resume(s, CommentEnd(s), depth)
  {
    LineCloses(s, depth);
    if s != [] && s[0] == '[' {
      ReadByte(s, Line, depth);
      ReadByte(s, CommentStart, depth);
      hide Closes;
      OpeningCloses(s[1..], 0, true, depth);
      OpensLong(s);
      if OpensHere(s[1..]) {
        ResumeLater(s, ContentEnd(s[1..], 0), 1, depth);
      }
    }
  }

  lemma StringCloses(s: string, depth: nat)
    requires s != [] && IsQuote(s[0])
    ensures Closes(s, Code, depth) == Resume(s, NonCode(s), depth)
  {
    ReadByte(s, Code, depth);
    hide Closes;
    QuotedCloses(s[1..], s[0], depth);
    ResumeLater(s, QuoteEnd(s[1..], s[0]), 1, depth);
  }

  lemma BracketCloses(s: string, depth: nat)
    requires s != [] && s[0] == '['
    ensures Closes(s, Code, depth)
         == if LongOpen(s).Some? then Resume(s, NonCode(s), depth) else Shift(Closes(s[1..], Code, depth), 1)
  {
    ReadByte(s, Code, depth);
    hide Closes;
    OpeningCloses(s[1..], 0, false, depth);
    OpensLong(s);
    if OpensHere(s[1..]) {
      ResumeLater(s, ContentEnd(s[1..], 0), 1, depth);
    }
  }

  lemma DashNonCode(s: string)
    requires s != [] && s[0] == '-'
    ensures NonCode(s) == if |s| > 1 && s[1] == '-' then Shift(CommentEnd(s[2..]), 2) else Some(0)
  {
  }

  lemma DashCloses(s: string, depth: nat)
    requires s != [] && s[0] == '-'
    ensures Closes(s, Code, depth)
         == if |s| > 1 && s[1] == '-' then Resume(s, NonCode(s), depth) else Shift(Closes(s[1..], Code, depth), 1)
  {
    DashNonCode(s);
    hide NonCode;
    hide CommentEnd;
    ReadByte(s, Code, depth);
    if |s| > 1 && s[1] == '-' {
      ReadByte(s[1..], Dash, depth);
      hide Closes;
      assert s[1..][1..] == s[2..];
      CommentCloses(s[2..], depth);
      ResumeLater(s, CommentEnd(s[2..]), 2, depth);
    }
  }

  /** The depth after one byte of plain code. */
  function Deeper(c: char, depth: nat): nat
    requires c == '}' ==> depth > 0
  {
    if c == '{' then depth + 1 else if c == '}' then depth - 1 else depth
  }

  /** What one round of a scanner does in code: it passes over a string, long bracket or
      comment as a whole, and over anything else one byte at a time. */
  lemma CodeCloses(s: string, depth: nat)
    requires s != []
    ensures NonCode(s) != Some(0) ==> Closes(s, Code, depth) == Resume(s, NonCode(s), depth)
    ensures NonCode(s) == Some(0) && s[0] == '}' && depth <= 1 ==>
              Closes(s, Code, depth) == if depth == 0 then None else Some(0)
    ensures NonCode(s) == Some(0) && !(s[0] == '}' && depth <= 1) ==>
              Closes(s, Code, depth) == Shift(Closes(s[1..], Code, Deeper(s[0], depth)), 1)
  {
    if IsQuote(s[0]) {
      StringCloses(s, depth);
    } else if s[0] == '[' {
      BracketCloses(s, depth);
    } else if s[0] == '-' {
      DashCloses(s, depth);
    }
  }

  // ----- the same, by position in the whole source

  /** The reference answer for a scan that has come to `cursor` in code. */
  function ClosesAt(source: string, cursor: nat, depth: nat): Option<nat>
    requires cursor <= |source|
  {
    Shift(Closes(source[cursor..], Code, depth), cursor)
  }

  /** The outcome of one look: an unterminated string or bracket, plain code, or the
      position just past what is not code. */
  datatype Look = Unterminated | Plain | Skipped(next: nat)

  function LookAt(source: string, cursor: nat): Look
    requires cursor < |source|
  {
    match NonCode(source[cursor..])
    case None => Unterminated
    case Some(n) => if n == 0 then Plain else Skipped(cursor + n)
  }

  /** Passing over what is not code leaves the answer as it is. */
  lemma RoundSkips(source: string, cursor: nat, depth: nat)
    requires cursor < |source|
    ensures LookAt(source, cursor).Unterminated? ==> ClosesAt(source, cursor, depth) == None
    ensures LookAt(source, cursor).Skipped? ==> cursor < LookAt(source, cursor).next <= |source|
    ensures LookAt(source, cursor).Skipped? ==>
              ClosesAt(source, cursor, depth) == ClosesAt(source, LookAt(source, cursor).next, depth)
  {
    var s := source[cursor..];
    hide Closes;
    hide NonCode;
    CodeCloses(s, depth);
    var n := NonCode(s);
    if n.Some? {
      Suffix(source, cursor, n.value);
    }
  }

  lemma Suffix(source: string, cursor: nat, n: nat)
    requires cursor <= |source| && n <= |source| - cursor
    ensures source[cursor..][n..] == source[cursor + n..]
  {
  }

  /** One byte of plain code. */
  lemma RoundPlain(source: string, cursor: nat, depth: nat)
    requires cursor < |source| && LookAt(source, cursor).Plain?
    ensures ClosesAt(source, cursor, depth)
         == if source[cursor] == '}' && depth == 0 then None
            else if source[cursor] == '}' && depth == 1 then Some(cursor)
            else ClosesAt(source, cursor + 1, Deeper(source[cursor], depth))
  {
    var s := source[cursor..];
    hide Closes;
    hide NonCode;
    CodeCloses(s, depth);
    assert s[1..] == source[cursor + 1..];
  }

  lemma BraceIsPlain(source: string, cursor: nat)
    requires cursor < |source| && (source[cursor] == '{' || source[cursor] == '}')
    ensures LookAt(source, cursor).Plain?
  {
    BracesArePlain(source[cursor..]);
  }

  lemma NothingCloses(source: string, depth: nat)
    ensures ClosesAt(source, |source|, depth) == None
  {
    assert source[|source|..] == [];
  }
}
