/** The option-table generator's scanner, which skips what is not code as a whole. */
module OptionTableScanner {
  import opened Wrappers
  import opened LuaLexer

  /** A long bracket that opens here does so before `end`. The scans stop at `end`, but the
      test for a long bracket looks past it, and the code slices from there to `end`. */
  predicate OpensBefore(source: string, start: nat, end: nat) {
    && start < end <= |source|
    && match LongOpen(source[start..])
       case Some(level) => start + level + 2 <= end
       case None => true
  }

  method SkipQuoted(source: string, start: nat, end: nat) returns (next: Option<nat>)
    requires start < end <= |source|
    ensures next == Shift(QuoteEnd(source[start + 1..end], source[start]), start + 1)
  {
    ghost var text := source[..end];
    var quote, cursor := source[start], start + 1;
    assert source[start + 1..end] == text[start + 1..];
    while cursor < end
      invariant start < cursor <= end
      invariant Shift(QuoteEnd(text[start + 1..], quote), start + 1) == Shift(QuoteEnd(text[cursor..], quote), cursor)
    {
      assert text[cursor..][1..] == text[cursor + 1..];
      if source[cursor] == '\\' {
        assert cursor + 1 < end ==> text[cursor..][2..] == text[cursor + 2..];
        cursor := if cursor + 2 < end then cursor + 2 else end;
      } else if source[cursor] == quote {
        return Some(cursor + 1);
      } else {
        cursor := cursor + 1;
      }
    }
    return None;
  }

  /** The level and the start of the content. */
  method LongBracketOpen(source: string, start: nat) returns (r: Option<(nat, nat)>)
    ensures r == if start >= |source| then None
                 else match LongOpen(source[start..])
                   case Some(level) => Some((level, start + level + 2))
                   case None => None
  {
    if start >= |source| || source[start] != '[' {
      return None;
    }
    var cursor := start + 1;
    assert source[start..][1..] == source[start + 1..];
    while cursor < |source| && source[cursor] == '='
      invariant start < cursor <= |source|
      invariant Equals(source[start + 1..]) == cursor - start - 1 + Equals(source[cursor..])
    {
      assert source[cursor..][1..] == source[cursor + 1..];
      cursor := cursor + 1;
    }
    assert source[start..][cursor - start..] == source[cursor..];
    return if cursor < |source| && source[cursor] == '[' then Some((cursor - start - 1, cursor + 1)) else None;
  }

  lemma {:induction false} EqualsWithin(s: string, n: nat)
    requires n <= |s|
    ensures Equals(s[..n]) == if Equals(s) < n then Equals(s) else n
  {
    if n > 0 && s[0] == '=' {
      assert s[..n][1..] == s[1..][..n - 1];
      EqualsWithin(s[1..], n - 1);
    }
  }

  /** The test for a long bracket then sees what it would see in the text before `end`. */
  lemma OpensWithin(source: string, start: nat, end: nat)
    requires OpensBefore(source, start, end)
    ensures LongOpen(source[start..]) == LongOpen(source[start..end])
  {
    var s, n := source[start..], end - start;
    assert s[..n] == source[start..end] && s[1..][..n - 1] == s[..n][1..];
    EqualsWithin(s[1..], n - 1);
  }

  method FindLongBracketClose(source: string, contentStart: nat, equals: nat, end: nat) returns (next: Option<nat>)
    requires contentStart <= end <= |source|
    ensures next == Shift(LongEnd(source[contentStart..end], equals), contentStart)
  {
    var closing := [']'] + seq(equals, _ => '=') + [']'];
    var offset := Find(source[contentStart..end], closing);
    return if offset.Some? then Some(contentStart + offset.value + |closing|) else None;
  }

  lemma LineEndIsFind(s: string)
    ensures LineEnd(s) == match Find(s, ['\n']) case Some(k) => k + 1 case None => |s|
  {
    if s != [] {
      assert ['\n'] <= s <==> s[0] == '\n';
      LineEndIsFind(s[1..]);
    }
  }

  method SkipComment(source: string, start: nat, end: nat) returns (next: Option<nat>)
    requires start + 2 <= end <= |source| && (start + 2 < end ==> OpensBefore(source, start + 2, end))
    ensures next == Shift(CommentEnd(source[start + 2..end]), start + 2)
  {
    var afterMarker := start + 2;
    var rest := source[afterMarker..end];
    hide Equals;
    hide LongOpen;
    if afterMarker < end {
      OpensWithin(source, afterMarker, end);
      var open := LongBracketOpen(source, afterMarker);
      if open.Some? {
        assert rest[open.value.0 + 2..] == source[open.value.1..end];
        next := FindLongBracketClose(source, open.value.1, open.value.0, end);
        return;
      }
    }
    LineEndIsFind(rest);
    var offset := Find(rest, ['\n']);
    return Some(if offset.Some? then afterMarker + offset.value + 1 else end);
  }

  /** One look ahead in the text before `end`. */
  method SkipNonCode(source: string, cursor: nat, end: nat) returns (look: Look)
    requires cursor < end <= |source|
    requires source[cursor] == '[' ==> OpensBefore(source, cursor, end)
    requires "--" <= source[cursor..end] && cursor + 2 < end ==> OpensBefore(source, cursor + 2, end)
    ensures look == LookAt(source[..end], cursor)
  {
    var s := source[cursor..end];
    assert source[..end][cursor..] == s;
    if IsQuote(source[cursor]) {
      assert s[1..] == source[cursor + 1..end];
      var next := SkipQuoted(source, cursor, end);
      return if next.Some? then Skipped(next.value) else Unterminated;
    }
    if source[cursor] == '[' {
      OpensWithin(source, cursor, end);
      var open := LongBracketOpen(source, cursor);
      if open.Some? {
        assert s[open.value.0 + 2..] == source[open.value.1..end];
        var next := FindLongBracketClose(source, open.value.1, open.value.0, end);
        return if next.Some? then Skipped(next.value) else Unterminated;
      }
    }
    if cursor + 1 < end && source[cursor] == '-' && source[cursor + 1] == '-' {
      assert s[2..] == source[cursor + 2..end];
      var next := SkipComment(source, cursor, end);
      return if next.Some? then Skipped(next.value) else Unterminated;
    }
    return Plain;
  }

  method MatchingDelimiter(source: string, open: nat) returns (close: Option<nat>)
    ensures close == MatchingBrace(source, open)
  {
    if open >= |source| || source[open] != '{' {
      return None;
    }
    var depth: nat, cursor := 0, open;
    assert MatchingBrace(source, open) == ClosesAt(source, open, 0);
    assert source[..|source|] == source;
    hide ClosesAt;
    hide MatchingBrace;
    while cursor < |source|
      invariant open <= cursor <= |source| && (depth == 0 ==> cursor == open)
      invariant MatchingBrace(source, open) == ClosesAt(source, cursor, depth)
    {
      hide LookAt;
      RoundSkips(source, cursor, depth);
      if source[cursor] == '{' {
        BraceIsPlain(source, cursor);
      }
      var look := SkipNonCode(source, cursor, |source|);
      if look.Unterminated? {
        return None;
      } else if look.Skipped? {
        cursor := look.next;
        continue;
      }
      RoundPlain(source, cursor, depth);
      if source[cursor] == '{' {
        depth := depth + 1;
      } else if source[cursor] == '}' {
        depth := depth - 1;
        if depth == 0 {
          return Some(cursor);
        }
      }
      cursor := cursor + 1;
    }
    NothingCloses(source, depth);
    return None;
  }
}
