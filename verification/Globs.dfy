/** The two glob matchers, each compared with one recursive reference. */
module Globs {
  import opened Wrappers

  /** What one position of a pattern asks of the text. */
  datatype Token = Star | Any | Literal(c: char)

  predicate Fits(token: Token, c: char) {
    token.Any? || (token.Literal? && token.c == c)
  }

  /** The reference: a star takes any stretch of text, every other token exactly one
      character that fits it, and the whole text must be used up. */
  predicate Matches(pattern: seq<Token>, text: string)
    decreases |pattern| + |text|
  {
    if pattern == [] then text == []
    else if pattern[0].Star? then
      Matches(pattern[1..], text) || (text != [] && Matches(pattern, text[1..]))
    else
      text != [] && Fits(pattern[0], text[0]) && Matches(pattern[1..], text[1..])
  }

  // ----- splitting a match at a token boundary

  lemma {:induction false} MatchesJoin(a: seq<Token>, b: seq<Token>, t: string, u: string)
    requires Matches(a, t) && Matches(b, u)
    ensures Matches(a + b, t + u)
    decreases |a| + |t|
  {
    if a == [] {
      assert a + b == b && t + u == u;
    } else {
      assert (a + b)[1..] == a[1..] + b;
      if a[0].Star? && Matches(a[1..], t) {
        MatchesJoin(a[1..], b, t, u);
      } else {
        assert (t + u)[1..] == t[1..] + u;
        MatchesJoin(if a[0].Star? then a else a[1..], b, t[1..], u);
      }
    }
  }

  lemma {:induction false} MatchesSplit(a: seq<Token>, b: seq<Token>, t: string) returns (k: nat)
    requires Matches(a + b, t)
    ensures k <= |t| && Matches(a, t[..k]) && Matches(b, t[k..])
    decreases |a| + |t|
  {
    if a == [] {
      assert a + b == b;
      k := 0;
    } else {
      assert (a + b)[1..] == a[1..] + b;
      if a[0].Star? && Matches(a[1..] + b, t) {
        k := MatchesSplit(a[1..], b, t);
      } else {
        k := MatchesSplit(if a[0].Star? then a else a[1..], b, t[1..]);
        k := k + 1;
        assert t[..k][1..] == t[1..][..k - 1];
      }
    }
  }

  lemma {:induction false} StarTakesAll(t: string)
    ensures Matches([Star], t)
  {
    if t != [] {
      StarTakesAll(t[1..]);
    }
  }

  // ----- growing a pattern by one token on the right

  lemma StarSuffix(a: seq<Token>, t: string, k: nat)
    requires k <= |t| && Matches(a, t[..k])
    ensures Matches(a + [Star], t)
  {
    StarTakesAll(t[k..]);
    MatchesJoin(a, [Star], t[..k], t[k..]);
    assert t[..k] + t[k..] == t;
  }

  lemma SnocStar(a: seq<Token>, t: string)
    ensures Matches(a + [Star], t)
       <==> Matches(a, t) || (t != [] && Matches(a + [Star], t[..|t| - 1]))
  {
    assert t[..|t|] == t;
    if Matches(a, t) {
      StarSuffix(a, t, |t|);
    } else if t != [] && Matches(a + [Star], t[..|t| - 1]) {
      var k := MatchesSplit(a, [Star], t[..|t| - 1]);
      assert t[..|t| - 1][..k] == t[..k];
      StarSuffix(a, t, k);
    } else if Matches(a + [Star], t) {
      var k := MatchesSplit(a, [Star], t);
      assert k < |t|;
      assert t[..|t| - 1][..k] == t[..k];
      StarSuffix(a, t[..|t| - 1], k);
      assert false;
    }
  }

  lemma SnocOne(a: seq<Token>, token: Token, t: string)
    requires !token.Star?
    ensures Matches(a + [token], t)
       <==> t != [] && Fits(token, t[|t| - 1]) && Matches(a, t[..|t| - 1])
  {
    if t != [] && Fits(token, t[|t| - 1]) && Matches(a, t[..|t| - 1]) {
      MatchesJoin(a, [token], t[..|t| - 1], t[|t| - 1..]);
      assert t[..|t| - 1] + t[|t| - 1..] == t;
    }
    if Matches(a + [token], t) {
      var k := MatchesSplit(a, [token], t);
      assert t[k..][1..] == [];
    }
  }

  // ----- rolling-row matcher

  function PlainToken(c: char): Token {
    if c == '*' then Star else if c == '?' then Any else Literal(c)
  }

  /** Reads a pattern in which a backslash makes the next character literal; a backslash
      that ends the pattern stands for itself. */
  function GlobTokens(pattern: string): seq<Token> {
    if pattern == [] then []
    else if pattern[0] == '\\' && |pattern| > 1 then [Literal(pattern[1])] + GlobTokens(pattern[2..])
    else [PlainToken(pattern[0])] + GlobTokens(pattern[1..])
  }

  /** A pattern in print: a star, a question mark, or a character, which a backslash marks if it
      is one of those or a backslash. */
  function Printed(tokens: seq<Token>): string {
    if tokens == [] then ""
    else
      (match tokens[0]
       case Star => "*"
       case Any => "?"
       case Literal(c) => if c == '*' || c == '?' || c == '\\' then ['\\', c] else [c])
      + Printed(tokens[1..])
  }

  /** Every list of tokens is read back from its print. */
  lemma {:induction false} TokensReadBack(tokens: seq<Token>)
    ensures GlobTokens(Printed(tokens)) == tokens
  {
    if tokens != [] {
      TokensReadBack(tokens[1..]);
      var s, rest := Printed(tokens), Printed(tokens[1..]);
      if tokens[0].Literal? && (tokens[0].c == '*' || tokens[0].c == '?' || tokens[0].c == '\\') {
        assert s[2..] == rest;
      } else {
        assert s[1..] == rest;
      }
      assert tokens == [tokens[0]] + tokens[1..];
    }
  }

  predicate RowFor(row: seq<bool>, pattern: seq<Token>, text: string) {
    |row| == |text| + 1 && forall c :: 0 <= c <= |text| ==> row[c] == Matches(pattern, text[..c])
  }

  method StarRow(row: seq<bool>, text: string, ghost seen: seq<Token>) returns (next: seq<bool>)
    requires RowFor(row, seen, text)
    ensures RowFor(next, seen + [Star], text)
  {
    var cells := new bool[|text| + 1];
    SnocStar(seen, text[..0]);
    cells[0] := row[0];
    for column := 1 to |text| + 1
      invariant forall c :: 0 <= c < column ==> cells[c] == Matches(seen + [Star], text[..c])
    {
      SnocStar(seen, text[..column]);
      assert text[..column][..column - 1] == text[..column - 1];
      cells[column] := row[column] || cells[column - 1];
    }
    next := cells[..];
  }

  method OneRow(row: seq<bool>, text: string, token: Token, ghost seen: seq<Token>) returns (next: seq<bool>)
    requires RowFor(row, seen, text) && !token.Star?
    ensures RowFor(next, seen + [token], text)
  {
    var cells := new bool[|text| + 1];
    SnocOne(seen, token, text[..0]);
    cells[0] := false;
    for column := 1 to |text| + 1
      invariant forall c :: 0 <= c < column ==> cells[c] == Matches(seen + [token], text[..c])
    {
      SnocOne(seen, token, text[..column]);
      assert text[..column][..column - 1] == text[..column - 1];
      cells[column] := row[column - 1] && Fits(token, text[column - 1]);
    }
    next := cells[..];
  }

  predicate EscapesAt(pattern: string, index: nat)
    requires index < |pattern|
  {
    pattern[index] == '\\' && index + 1 < |pattern|
  }

  function TokenAt(pattern: string, index: nat): Token
    requires index < |pattern|
  {
    if EscapesAt(pattern, index) then Literal(pattern[index + 1]) else PlainToken(pattern[index])
  }

  lemma GlobTokensStep(pattern: string, index: nat)
    requires index < |pattern|
    ensures GlobTokens(pattern[index..]) == [TokenAt(pattern, index)]
              + GlobTokens(pattern[index + (if EscapesAt(pattern, index) then 2 else 1)..])
  {
    var rest := pattern[index..];
    if EscapesAt(pattern, index) {
      assert rest[2..] == pattern[index + 2..];
    } else {
      assert rest[1..] == pattern[index + 1..];
    }
  }

  lemma FirstRow(text: string)
    ensures RowFor([true] + seq(|text|, _ => false), [], text)
  {
  }

  lemma SeenAll(pattern: string, seen: seq<Token>)
    ensures [] + GlobTokens(pattern[0..]) == GlobTokens(pattern)
    ensures seen + GlobTokens(pattern[|pattern|..]) == seen
  {
    assert pattern[0..] == pattern && pattern[|pattern|..] == [];
  }

  lemma SeenOneMore(pattern: string, index: nat, seen: seq<Token>)
    requires index < |pattern|
    ensures seen + GlobTokens(pattern[index..])
         == (seen + [TokenAt(pattern, index)])
            + GlobTokens(pattern[index + (if EscapesAt(pattern, index) then 2 else 1)..])
  {
    GlobTokensStep(pattern, index);
    hide GlobTokens;
  }

  /** One row per pattern position, each computed from the previous row only. */
  method GlobMatch(pattern: string, text: string) returns (matched: bool)
    ensures matched == Matches(GlobTokens(pattern), text)
  {
    var row := [true] + seq(|text|, _ => false);
    var index := 0;
    ghost var seen: seq<Token> := [];
    FirstRow(text);
    SeenAll(pattern, []);
    hide Matches;
    hide GlobTokens;
    hide RowFor;
    while index < |pattern|
      invariant index <= |pattern|
      invariant seen + GlobTokens(pattern[index..]) == GlobTokens(pattern)
      invariant RowFor(row, seen, text)
    {
      SeenOneMore(pattern, index, seen);
      var token := PlainToken(pattern[index]);
      if pattern[index] == '*' {
        row := StarRow(row, text, seen);
      } else {
        if pattern[index] == '\\' && index + 1 < |pattern| {
          index := index + 1;
          token := Literal(pattern[index]);
        }
        row := OneRow(row, text, token, seen);
      }
      index := index + 1;
      seen := seen + [token];
    }
    SeenAll(pattern, seen);
    LastCell(row, seen, text);
    return row[|text|];
  }

  lemma LastCell(row: seq<bool>, seen: seq<Token>, text: string)
    requires RowFor(row, seen, text)
    ensures |row| == |text| + 1 && row[|text|] == Matches(seen, text)
  {
    assert text[..|text|] == text;
  }

  // ----- one-backtrack matcher

  function PlainTokens(pattern: string): (tokens: seq<Token>)
    ensures |tokens| == |pattern|
  {
    seq(|pattern|, i requires 0 <= i < |pattern| => PlainToken(pattern[i]))
  }

  predicate AllStars(pattern: string) {
    forall i :: 0 <= i < |pattern| ==> pattern[i] == '*'
  }

  /** The state of the scan: next pattern and text positions, the last star passed, and
      the text position that star's current attempt began at. */
  predicate ScanState(pattern: string, text: string, p: nat, t: nat, star: Option<nat>, retry: nat) {
    p <= |pattern| && retry <= t <= |text| && (star.Some? ==> star.value < p && pattern[star.value] == '*')
  }

  /** What the scan answers from a given state. Note the order of the tests: an equal
      character is consumed before a pattern star is recognised. */
  predicate Greedy(pattern: string, text: string, p: nat, t: nat, star: Option<nat>, retry: nat)
    requires ScanState(pattern, text, p, t, star, retry)
    decreases |pattern| - (if star.Some? then star.value else -1), |text| - retry, |text| - t
  {
    if t == |text| then AllStars(pattern[p..])
    else if p < |pattern| && (pattern[p] == '?' || pattern[p] == text[t]) then
      Greedy(pattern, text, p + 1, t + 1, star, retry)
    else if p < |pattern| && pattern[p] == '*' then
      Greedy(pattern, text, p + 1, t, Some(p), t)
    else if star.Some? then
      Greedy(pattern, text, star.value + 1, retry + 1, star, retry + 1)
    else false
  }

  predicate WildcardMatch(pattern: string, text: string) {
    Greedy(pattern, text, 0, 0, None, 0)
  }

  /** The loop, with its lexicographic termination measure: a later star, or a later
      attempt for the same star, or more text consumed in the same attempt. */
  method Wildcard(pattern: string, text: string) returns (matched: bool)
    ensures matched == WildcardMatch(pattern, text)
  {
    var p: nat, t: nat, retry: nat := 0, 0, 0;
    var star: Option<nat> := None;
    while t < |text|
      invariant ScanState(pattern, text, p, t, star, retry)
      invariant Greedy(pattern, text, p, t, star, retry) == WildcardMatch(pattern, text)
      decreases |pattern| - (if star.Some? then star.value else -1), |text| - retry, |text| - t
    {
      if p < |pattern| && (pattern[p] == '?' || pattern[p] == text[t]) {
        p, t := p + 1, t + 1;
      } else if p < |pattern| && pattern[p] == '*' {
        star := Some(p);
        p := p + 1;
        retry := t;
      } else if star.Some? {
        retry := retry + 1;
        t := retry;
        p := star.value + 1;
      } else {
        return false;
      }
    }
    ghost var stop := p;
    while p < |pattern| && pattern[p] == '*'
      invariant stop <= p <= |pattern|
      invariant forall i :: stop <= i < p ==> pattern[i] == '*'
    {
      p := p + 1;
    }
    matched := p == |pattern|;
    assert p < |pattern| ==> pattern[stop..][p - stop] != '*';
  }

  lemma {:induction false} AllStarsMatchEmpty(pattern: string)
    ensures Matches(PlainTokens(pattern), []) <==> AllStars(pattern)
  {
    if pattern != [] {
      AllStarsMatchEmpty(pattern[1..]);
      assert PlainTokens(pattern)[1..] == PlainTokens(pattern[1..]);
      assert pattern[0] == '*' && AllStars(pattern[1..]) ==> AllStars(pattern) by {
        assert forall i :: 0 < i < |pattern| ==> pattern[i] == pattern[1..][i - 1];
      }
      assert AllStars(pattern) ==> AllStars(pattern[1..]);
    }
  }

  /** Whatever the scan accepts is a match, for every pattern and every text. */
  lemma {:induction false} GreedySound(pattern: string, text: string, p: nat, t: nat, star: Option<nat>, retry: nat)
    requires ScanState(pattern, text, p, t, star, retry)
    requires Matches(PlainTokens(pattern)[..p], text[..t])
    requires star.Some? ==> Matches(PlainTokens(pattern)[..star.value + 1], text[..retry])
    requires Greedy(pattern, text, p, t, star, retry)
    ensures Matches(PlainTokens(pattern), text)
    decreases |pattern| - (if star.Some? then star.value else -1), |text| - retry, |text| - t
  {
    var tokens := PlainTokens(pattern);
    if t == |text| {
      AllStarsMatchEmpty(pattern[p..]);
      assert tokens[p..] == PlainTokens(pattern[p..]);
      MatchesJoin(tokens[..p], tokens[p..], text[..t], []);
      assert tokens[..p] + tokens[p..] == tokens && text[..t] + [] == text;
    } else if p < |pattern| && (pattern[p] == '?' || pattern[p] == text[t]) {
      assert tokens[..p + 1] == tokens[..p] + [tokens[p]] && text[..t + 1] == text[..t] + [text[t]];
      StarTakesAll([text[t]]);
      MatchesJoin(tokens[..p], [tokens[p]], text[..t], [text[t]]);
      GreedySound(pattern, text, p + 1, t + 1, star, retry);
    } else if p < |pattern| && pattern[p] == '*' {
      assert tokens[..p + 1] == tokens[..p] + [Star];
      SnocStar(tokens[..p], text[..t]);
      GreedySound(pattern, text, p + 1, t, Some(p), t);
    } else {
      var s := star.value;
      assert tokens[..s + 1] == tokens[..s] + [Star];
      SnocStar(tokens[..s], text[..retry + 1]);
      assert text[..retry + 1][..retry] == text[..retry];
      GreedySound(pattern, text, s + 1, retry + 1, star, retry + 1);
    }
  }

  lemma {:induction false} FittingRunDrops(run: seq<Token>, rest: seq<Token>, text: string)
    requires |run| <= |text| && forall k :: 0 <= k < |run| ==> Fits(run[k], text[k])
    ensures Matches(run + rest, text) <==> Matches(rest, text[|run|..])
  {
    if run == [] {
      assert run + rest == rest;
    } else {
      assert (run + rest)[1..] == run[1..] + rest;
      FittingRunDrops(run[1..], rest, text[1..]);
      assert text[1..][|run| - 1..] == text[|run|..];
    }
  }

  /** A run of fitting characters followed by text that cannot be matched from there on. */
  lemma {:induction false} LengthBound(pattern: seq<Token>, run: nat, text: string)
    requires run <= |pattern| && forall k :: 0 <= k < run ==> !pattern[k].Star?
    requires Matches(pattern, text)
    ensures run <= |text|
    ensures run == |text| ==> Matches(pattern[run..], [])
  {
    if run == 0 {
      assert pattern[run..] == pattern;
    } else {
      LengthBound(pattern[1..], run - 1, text[1..]);
      assert pattern[1..][run - 1..] == pattern[run..];
    }
  }

  /** A star's later attempts cannot succeed once an earlier one has used the whole text
      and the rest of the pattern does not accept nothing. */
  lemma {:induction false} LaterAttemptsFail(pattern: seq<Token>, run: nat, text: string)
    requires pattern != [] && pattern[0].Star? && run < |pattern|
    requires forall k :: 1 <= k <= run ==> !pattern[k].Star?
    requires |text| <= run && !Matches(pattern[run + 1..], [])
    ensures !Matches(pattern, text)
    decreases |text|
  {
    assert pattern[1..][run..] == pattern[run + 1..];
    if Matches(pattern[1..], text) {
      LengthBound(pattern[1..], run, text);
    }
    if text != [] {
      LaterAttemptsFail(pattern, run, text[1..]);
    }
  }

  /** What completeness keeps: before any star the rest of the pattern decides; after a
      star, the star and its current attempt decide, and the attempt so far fits. */
  ghost predicate Decides(pattern: string, text: string, p: nat, t: nat, star: Option<nat>, retry: nat)
    requires ScanState(pattern, text, p, t, star, retry)
  {
    var tokens := PlainTokens(pattern);
    match star
    case None => Matches(tokens, text) <==> Matches(tokens[p..], text[t..])
    case Some(s) =>
      && (Matches(tokens, text) <==> Matches(tokens[s..], text[retry..]))
      && t - retry == p - s - 1
      && forall k :: retry <= k < t ==> Fits(tokens[s + 1 + k - retry], text[k])
  }

  lemma AttemptReaches(pattern: string, text: string, p: nat, t: nat, s: nat, retry: nat)
    requires ScanState(pattern, text, p, t, Some(s), retry)
    requires t - retry == p - s - 1
    requires forall k :: retry <= k < t ==> Fits(PlainTokens(pattern)[s + 1 + k - retry], text[k])
    ensures Matches(PlainTokens(pattern)[s + 1..], text[retry..]) <==> Matches(PlainTokens(pattern)[p..], text[t..])
  {
    var tokens := PlainTokens(pattern);
    assert tokens[s + 1..] == tokens[s + 1..p] + tokens[p..];
    forall k | 0 <= k < p - s - 1
      ensures Fits(tokens[s + 1..p][k], text[retry..][k])
    {
      assert text[retry..][k] == text[retry + k];
    }
    FittingRunDrops(tokens[s + 1..p], tokens[p..], text[retry..]);
    assert text[retry..][t - retry..] == text[t..];
  }

  /** A new star takes over from the previous one without losing a match. */
  lemma {:induction false} NewStarTakesOver(pattern: seq<Token>, run: nat, text: string)
    requires pattern != [] && pattern[0].Star? && run + 1 < |pattern| && pattern[run + 1].Star?
    requires forall k :: 1 <= k <= run ==> !pattern[k].Star?
    requires run <= |text| && Matches(pattern, text)
    ensures Matches(pattern[run + 1..], text[run..])
    decreases |text|
  {
    var tail := pattern[run + 1..];
    if Matches(pattern[1..], text) {
      var head := pattern[1..run + 1];
      assert pattern[1..] == head + tail;
      var k := MatchesSplit(head, tail, text);
      HeadLength(head, text[..k]);
      assert text[k..] == text[run..];
    } else {
      if |text| == run {
        LengthShort(pattern, run, text);
      } else {
        NewStarTakesOver(pattern, run, text[1..]);
        assert text[1..][run..] == text[run..][1..];
      }
    }
  }

  lemma {:induction false} HeadLength(head: seq<Token>, text: string)
    requires forall k :: 0 <= k < |head| ==> !head[k].Star?
    requires Matches(head, text)
    ensures |text| == |head|
  {
    if head != [] {
      HeadLength(head[1..], text[1..]);
    }
  }

  lemma {:induction false} LengthShort(pattern: seq<Token>, run: nat, text: string)
    requires pattern != [] && pattern[0].Star? && run < |pattern|
    requires forall k :: 1 <= k <= run ==> !pattern[k].Star?
    requires |text| <= run && Matches(pattern, text)
    ensures |text| == run && Matches(pattern[1..], text)
    decreases |text|
  {
    if Matches(pattern[1..], text) {
      LengthBound(pattern[1..], run, text);
    } else {
      LengthShort(pattern, run, text[1..]);
    }
  }

  lemma AttemptHasNoStar(pattern: string, text: string, p: nat, t: nat, s: nat, retry: nat)
    requires ScanState(pattern, text, p, t, Some(s), retry)
    requires Decides(pattern, text, p, t, Some(s), retry)
    ensures forall k :: 1 <= k <= p - s - 1 ==> !PlainTokens(pattern)[s..][k].Star?
  {
    var tokens := PlainTokens(pattern);
    forall k | 1 <= k <= p - s - 1
      ensures !tokens[s..][k].Star?
    {
      assert Fits(tokens[s + 1 + (retry + k - 1) - retry], text[retry + k - 1]);
    }
  }

  /** When the text is used up, what is left of the pattern decides. */
  lemma CompleteAtEnd(pattern: string, text: string, p: nat, star: Option<nat>, retry: nat)
    requires ScanState(pattern, text, p, |text|, star, retry)
    requires Decides(pattern, text, p, |text|, star, retry)
    ensures AllStars(pattern[p..]) <==> Matches(PlainTokens(pattern), text)
  {
    var tokens := PlainTokens(pattern);
    AllStarsMatchEmpty(pattern[p..]);
    assert tokens[p..] == PlainTokens(pattern[p..]);
    assert text[|text|..] == [];
    if star.Some? {
      var s := star.value;
      AttemptReaches(pattern, text, p, |text|, s, retry);
      assert tokens[s..][1..] == tokens[s + 1..] && tokens[s..][p - s..] == tokens[p..];
      if !AllStars(pattern[p..]) {
        AttemptHasNoStar(pattern, text, p, |text|, s, retry);
        LaterAttemptsFail(tokens[s..], p - s - 1, text[retry..]);
      }
    }
  }

  lemma CompleteAtCharacter(pattern: string, text: string, p: nat, t: nat, star: Option<nat>, retry: nat)
    requires ScanState(pattern, text, p, t, star, retry)
    requires Decides(pattern, text, p, t, star, retry)
    requires p < |pattern| && t < |text| && Fits(PlainTokens(pattern)[p], text[t])
    ensures Decides(pattern, text, p + 1, t + 1, star, retry)
  {
    var tokens := PlainTokens(pattern);
    assert tokens[p..][1..] == tokens[p + 1..] && text[t..][1..] == text[t + 1..];
  }

  lemma CompleteAtNewStar(pattern: string, text: string, p: nat, t: nat, star: Option<nat>, retry: nat)
    requires ScanState(pattern, text, p, t, star, retry)
    requires Decides(pattern, text, p, t, star, retry)
    requires p < |pattern| && pattern[p] == '*'
    ensures Decides(pattern, text, p + 1, t, Some(p), t)
  {
    var tokens := PlainTokens(pattern);
    if star.Some? {
      var s := star.value;
      AttemptReaches(pattern, text, p, t, s, retry);
      assert tokens[s..][1..] == tokens[s + 1..];
      assert tokens[s..][p - s..] == tokens[p..] && text[retry..][t - retry..] == text[t..];
      if Matches(tokens[s..], text[retry..]) {
        AttemptHasNoStar(pattern, text, p, t, s, retry);
        NewStarTakesOver(tokens[s..], p - s - 1, text[retry..]);
      }
    }
  }

  lemma CompleteAtRetry(pattern: string, text: string, p: nat, t: nat, s: nat, retry: nat)
    requires ScanState(pattern, text, p, t, Some(s), retry)
    requires Decides(pattern, text, p, t, Some(s), retry)
    requires t < |text| && (p < |pattern| ==> !Fits(PlainTokens(pattern)[p], text[t]) && pattern[p] != '*')
    ensures Decides(pattern, text, s + 1, retry + 1, Some(s), retry + 1)
  {
    var tokens := PlainTokens(pattern);
    AttemptReaches(pattern, text, p, t, s, retry);
    assert tokens[s..][1..] == tokens[s + 1..] && text[retry..][1..] == text[retry + 1..];
    assert !Matches(tokens[p..], text[t..]);
  }

  /** On a text without a star character the scan finds every match. */
  lemma {:induction false} GreedyComplete(pattern: string, text: string, p: nat, t: nat, star: Option<nat>, retry: nat)
    requires ScanState(pattern, text, p, t, star, retry)
    requires '*' !in text
    requires Decides(pattern, text, p, t, star, retry)
    ensures Greedy(pattern, text, p, t, star, retry) <==> Matches(PlainTokens(pattern), text)
    decreases |pattern| - (if star.Some? then star.value else -1), |text| - retry, |text| - t
  {
    if t == |text| {
      CompleteAtEnd(pattern, text, p, star, retry);
    } else if p < |pattern| && (pattern[p] == '?' || pattern[p] == text[t]) {
      CompleteAtCharacter(pattern, text, p, t, star, retry);
      GreedyComplete(pattern, text, p + 1, t + 1, star, retry);
    } else if p < |pattern| && pattern[p] == '*' {
      CompleteAtNewStar(pattern, text, p, t, star, retry);
      GreedyComplete(pattern, text, p + 1, t, Some(p), t);
    } else if star.Some? {
      CompleteAtRetry(pattern, text, p, t, star.value, retry);
      GreedyComplete(pattern, text, star.value + 1, retry + 1, star, retry + 1);
    }
  }

  /** The matcher never claims a match that is not there. */
  lemma WildcardSound(pattern: string, text: string)
    requires WildcardMatch(pattern, text)
    ensures Matches(PlainTokens(pattern), text)
  {
    GreedySound(pattern, text, 0, 0, None, 0);
  }

  lemma WildcardExact(pattern: string, text: string)
    requires '*' !in text
    ensures WildcardMatch(pattern, text) <==> Matches(PlainTokens(pattern), text)
  {
    assert PlainTokens(pattern)[0..] == PlainTokens(pattern) && text[0..] == text;
    GreedyComplete(pattern, text, 0, 0, None, 0);
  }

  /** A text containing a star has a pattern that matches it and that the scan rejects:
      the text up to the star, a star, and a `?` when nothing follows the star. */
  lemma WildcardMissesOn(text: string) returns (pattern: string)
    requires '*' in text
    ensures Matches(PlainTokens(pattern), text) && !WildcardMatch(pattern, text)
  {
    var i := FirstStar(text);
    pattern := text[..i] + "*" + (if i + 1 == |text| then "?" else "");
    var tokens := PlainTokens(pattern);
    LiteralPrefixScans(pattern, text, i, 0);
    SelfMatch(text[..i]);
    assert tokens[..i] == PlainTokens(text[..i]);
    if i + 1 == |text| {
      assert tokens[i..] == [Star, Any] && text[i..] == ['*'];
      assert Matches([Star, Any], ['*']) by {
        assert [Star, Any][1..] == [Any] && Matches([Any], ['*']);
      }
    } else {
      assert tokens[i..] == [Star];
      StarTakesAll(text[i..]);
    }
    MatchesJoin(tokens[..i], tokens[i..], text[..i], text[i..]);
    assert tokens[..i] + tokens[i..] == tokens && text[..i] + text[i..] == text;
  }

  lemma FirstStar(text: string) returns (i: nat)
    requires '*' in text
    ensures i < |text| && text[i] == '*' && '*' !in text[..i]
  {
    i := 0;
    while text[i] != '*'
      invariant i < |text| && '*' !in text[..i] && '*' in text[i..]
      decreases |text| - i
    {
      i := i + 1;
    }
  }

  lemma {:induction false} SelfMatch(text: string)
    ensures Matches(PlainTokens(text), text)
  {
    if text != [] {
      SelfMatch(text[1..]);
      assert PlainTokens(text)[1..] == PlainTokens(text[1..]);
      if text[0] == '*' {
        MatchesJoin([Star], PlainTokens(text[1..]), [text[0]], text[1..]) by { StarTakesAll([text[0]]); }
        assert [Star] + PlainTokens(text[1..]) == PlainTokens(text) && [text[0]] + text[1..] == text;
      }
    }
  }

  lemma {:induction false} LiteralPrefixScans(pattern: string, text: string, i: nat, k: nat)
    requires k <= i < |text| && i < |pattern| && pattern[..i] == text[..i] && pattern[i] == text[i]
    ensures Greedy(pattern, text, k, k, None, 0) == Greedy(pattern, text, i + 1, i + 1, None, 0)
    decreases i - k
  {
    assert pattern[k] == text[k] by {
      if k < i {
        assert pattern[..i][k] == text[..i][k];
      }
    }
    if k < i {
      LiteralPrefixScans(pattern, text, i, k + 1);
    }
  }

  /** The exact side condition: a text is matched correctly by every pattern if and only
      if it holds no star character. */
  lemma WildcardExactIff(text: string)
    ensures (forall pattern: string :: WildcardMatch(pattern, text) <==> Matches(PlainTokens(pattern), text))
       <==> '*' !in text
  {
    if '*' in text {
      var pattern := WildcardMissesOn(text);
    } else {
      forall pattern: string
        ensures WildcardMatch(pattern, text) <==> Matches(PlainTokens(pattern), text)
      {
        WildcardExact(pattern, text);
      }
    }
  }

  lemma {:induction false} GlobTokensPlain(pattern: string)
    requires '\\' !in pattern
    ensures GlobTokens(pattern) == PlainTokens(pattern)
  {
    if pattern != [] {
      GlobTokensPlain(pattern[1..]);
      assert PlainTokens(pattern) == [PlainToken(pattern[0])] + PlainTokens(pattern[1..]);
    }
  }

  /** The two matchers agree where neither escapes nor literal stars are involved. */
  lemma MatchersAgree(pattern: string, text: string)
    requires '\\' !in pattern && '*' !in text
    ensures WildcardMatch(pattern, text) <==> Matches(GlobTokens(pattern), text)
  {
    GlobTokensPlain(pattern);
    WildcardExact(pattern, text);
  }
}
