/** The builtin-table generator's scanner. */
module BuiltinTableScanner {
  import opened Wrappers
  import opened LuaLexer

  /** The first closing quote after `open`. */
  method FindQuote(bytes: string, open: nat, quote: char) returns (close: Option<nat>)
    requires open < |bytes|
    ensures close == match QuoteEnd(bytes[open + 1..], quote) case Some(n) => Some(open + n) case None => None
  {
    var index := open + 1;
    while index < |bytes|
      invariant open < index
      invariant index <= |bytes| ==>
                  Shift(QuoteEnd(bytes[open + 1..], quote), open + 1) == Shift(QuoteEnd(bytes[index..], quote), index)
      invariant index > |bytes| ==> QuoteEnd(bytes[open + 1..], quote).None?
    {
      assert bytes[index..][1..] == bytes[index + 1..];
      if bytes[index] == '\\' {
        assert index + 1 < |bytes| ==> bytes[index..][2..] == bytes[index + 2..];
        index := index + 2;
        continue;
      }
      if bytes[index] == quote {
        return Some(index);
      }
      index := index + 1;
    }
    return None;
  }

  /** The position of the closing quote. */
  method SkipQuoted(bytes: string, open: nat) returns (close: Option<nat>)
    ensures close == if open >= |bytes| then None
                     else match QuoteEnd(bytes[open + 1..], bytes[open])
                       case Some(n) => Some(open + n)
                       case None => None
  {
    if open >= |bytes| {
      return None;
    }
    close := FindQuote(bytes, open, bytes[open]);
  }

  method LongBracketLevel(bytes: string, open: nat) returns (level: Option<nat>)
    ensures level == if open <= |bytes| then LongOpen(bytes[open..]) else None
  {
    if open >= |bytes| || bytes[open] != '[' {
      return None;
    }
    var index := open + 1;
    assert bytes[open..][1..] == bytes[open + 1..];
    while index < |bytes| && bytes[index] == '='
      invariant open < index <= |bytes|
      invariant Equals(bytes[open + 1..]) == index - open - 1 + Equals(bytes[index..])
    {
      assert bytes[index..][1..] == bytes[index + 1..];
      index := index + 1;
    }
    assert bytes[open..][index - open..] == bytes[index..];
    return if index < |bytes| && bytes[index] == '[' then Some(index - open - 1) else None;
  }

  lemma {:induction false} EqualsRun(s: string, level: nat)
    ensures EqualsThenBracket(level) <= s <==> Equals(s) == level && level < |s| && s[level] == ']'
  {
    if s != [] {
      EqualsThenBracketStep(s, if level == 0 then 0 else level - 1);
      if s[0] == '=' && level > 0 {
        EqualsRun(s[1..], level - 1);
      }
    }
  }

  /** Where the closing bracket that starts at `index` ends, if it is of this level. */
  method CloserAt(bytes: string, index: nat, level: nat) returns (close: Option<nat>)
    requires index < |bytes|
    ensures close == if Closer(level) <= bytes[index..] then Some(index + level + 1) else None
  {
    var s := bytes[index..];
    assert s[1..] == bytes[index + 1..];
    EqualsThenBracketStep(s, level);
    EqualsRun(s[1..], level);
    if bytes[index] != ']' {
      return None;
    }
    var cursor, equals := index + 1, 0;
    while cursor < |bytes| && bytes[cursor] == '='
      invariant cursor == index + 1 + equals <= |bytes|
      invariant Equals(s[1..]) == equals + Equals(bytes[cursor..])
    {
      assert bytes[cursor..][1..] == bytes[cursor + 1..];
      equals := equals + 1;
      cursor := cursor + 1;
    }
    assert cursor < |bytes| ==> s[1..][equals] == bytes[cursor];
    return if equals == level && cursor < |bytes| && bytes[cursor] == ']' then Some(cursor) else None;
  }

  function FindAt(bytes: string, index: nat, level: nat): Option<nat>
    requires index <= |bytes|
  {
    match Find(bytes[index..], Closer(level)) case Some(k) => Some(index + k + level + 1) case None => None
  }

  lemma FindAtStep(bytes: string, index: nat, level: nat)
    requires index <= |bytes|
    ensures index < |bytes| && !(Closer(level) <= bytes[index..]) ==>
              FindAt(bytes, index, level) == FindAt(bytes, index + 1, level)
    ensures Closer(level) <= bytes[index..] ==> FindAt(bytes, index, level) == Some(index + level + 1)
    ensures index == |bytes| ==> FindAt(bytes, index, level) == None
  {
    var s := bytes[index..];
    if index < |bytes| {
      assert s[1..] == bytes[index + 1..];
    } else {
      assert !(Closer(level) <= s);
    }
  }

  method FindCloser(bytes: string, start: nat, level: nat) returns (close: Option<nat>)
    requires start <= |bytes|
    ensures close == FindAt(bytes, start, level)
  {
    hide FindAt;
    var index := start;
    while index < |bytes|
      invariant start <= index <= |bytes|
      invariant FindAt(bytes, start, level) == FindAt(bytes, index, level)
    {
      FindAtStep(bytes, index, level);
      close := CloserAt(bytes, index, level);
      if close.Some? {
        return;
      }
      index := index + 1;
    }
    FindAtStep(bytes, index, level);
    return None;
  }

  /** The position of the bracket that ends the long bracket opening at `open`. */
  method SkipLongBracket(bytes: string, open: nat) returns (close: Option<nat>)
    ensures close == if open > |bytes| || LongOpen(bytes[open..]).None? then None
                     else match LongBracketEnd(bytes[open..]) case Some(n) => Some(open + n - 1) case None => None
  {
    var level := LongBracketLevel(bytes, open);
    if level.None? {
      return None;
    }
    hide Find;
    hide Closer;
    assert bytes[open..][level.value + 2..] == bytes[open + level.value + 2..];
    close := FindCloser(bytes, open + level.value + 2, level.value);
  }

  method SkipLine(bytes: string, start: nat) returns (index: nat)
    requires start <= |bytes|
    ensures index <= |bytes|
    ensures start + LineEnd(bytes[start..]) == if index < |bytes| then index + 1 else index
  {
    index := start;
    while index < |bytes| && bytes[index] != '\n'
      invariant start <= index <= |bytes|
      invariant start + LineEnd(bytes[start..]) == index + LineEnd(bytes[index..])
    {
      assert bytes[index..][1..] == bytes[index + 1..];
      index := index + 1;
    }
  }

  /** The last position of the comment that starts at `open`: its closing bracket, its
      newline, or the end of the text. */
  method SkipComment(bytes: string, open: nat) returns (index: nat)
    requires open + 2 <= |bytes|
    ensures index <= |bytes|
    ensures match CommentEnd(bytes[open + 2..])
            case None => index == |bytes|
            case Some(n) => open + 2 + n == if index < |bytes| then index + 1 else index
  {
    if open + 2 < |bytes| && bytes[open + 2] == '[' {
      var level := LongBracketLevel(bytes, open + 2);
      if level.Some? {
        var close := SkipLongBracket(bytes, open + 2);
        return if close.Some? then close.value else |bytes|;
      }
    }
    hide LongBracketEnd;
    index := SkipLine(bytes, open + 2);
  }

  /** The scan of one string, long bracket or comment: the position its last byte is at,
      nothing if it makes the caller fail, `index` itself for plain code. */
  method SkipOne(bytes: string, index: nat) returns (last: Option<nat>)
    requires index < |bytes|
    ensures match LookAt(bytes, index)
            case Unterminated => last.None? || last == Some(|bytes|)
            case Plain => last == Some(index)
            case Skipped(next) => last == Some(next - 1) || (next == |bytes| && last == Some(|bytes|))
  {
    ghost var s := bytes[index..];
    if IsQuote(bytes[index]) {
      assert s[1..] == bytes[index + 1..];
      last := SkipQuoted(bytes, index);
      return;
    }
    hide LongBracketEnd;
    if bytes[index] == '[' {
      var level := LongBracketLevel(bytes, index);
      if level.Some? {
        last := SkipLongBracket(bytes, index);
        return;
      }
    } else if bytes[index] == '-' && index + 1 < |bytes| && bytes[index + 1] == '-' {
      hide CommentEnd;
      assert s[2..] == bytes[index + 2..];
      var end := SkipComment(bytes, index);
      return Some(end);
    }
    return Some(index);
  }

  method MatchingBraceAt(bytes: string, open: nat) returns (close: Option<nat>)
    ensures close == if open <= |bytes| then ClosesAt(bytes, open, 0) else None
  {
    hide ClosesAt;
    var depth: nat, index := 0, open;
    ghost var answer := if open <= |bytes| then ClosesAt(bytes, open, 0) else None;
    while index < |bytes|
      invariant open <= index
      invariant index <= |bytes| ==> answer == ClosesAt(bytes, index, depth)
      invariant index > |bytes| ==> answer.None?
    {
      hide LookAt;
      RoundSkips(bytes, index, depth);
      NothingCloses(bytes, depth);
      var last := SkipOne(bytes, index);
      if last.None? {
        return None;
      }
      if bytes[index] == '{' || bytes[index] == '}' {
        BraceIsPlain(bytes, index);
      }
      if LookAt(bytes, index).Plain? {
        RoundPlain(bytes, index, depth);
      }
      if bytes[index] == '{' {
        depth := depth + 1;
      } else if bytes[index] == '}' {
        if depth == 0 {
          return None;
        }
        depth := depth - 1;
        if depth == 0 {
          return Some(index);
        }
      }
      index := last.value + 1;
    }
    NothingCloses(bytes, depth);
    return None;
  }
}
