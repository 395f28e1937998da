/** Parsing and matching of one autocommand pattern item. */
module AutocmdPatterns {
  import opened Wrappers
  import opened Globs
  import Braces

  /** Buffers are named by their handle. */
  type Buffer = nat

  datatype StoredPattern = Glob(expanded: seq<string>) | BufferLocal(handle: Buffer)

  datatype AutocmdError =
    | EmptyGroupName
    | EmptyEvent
    | EmptyPattern
    | MissingBuffer
    | InvalidBufferPattern
    | UnknownGroup
    | UnbalancedBraces

  // ----- numbers inside `<buffer=N>`

  const I64_MIN: int := -0x8000_0000_0000_0000
  const I64_MAX: int := 0x7FFF_FFFF_FFFF_FFFF
  const I32_MAX: int := 0x7FFF_FFFF

  predicate Digit(c: char) {
    '0' <= c <= '9'
  }

  predicate AllDigits(s: string) {
    s != [] && forall i :: 0 <= i < |s| ==> Digit(s[i])
  }

  function DigitsValue(s: string): nat
    requires forall i :: 0 <= i < |s| ==> Digit(s[i])
  {
    if s == [] then 0 else assert Digit(s[|s| - 1]); DigitsValue(s[..|s| - 1]) * 10 + (s[|s| - 1] as int - '0' as int)
  }

  /** A decimal number with an optional sign, within the signed 64-bit range. */
  function ParseInteger(s: string): Option<int> {
    var digits := if s != [] && (s[0] == '-' || s[0] == '+') then s[1..] else s;
    if !AllDigits(digits) then None
    else
      var n: int := if s[0] == '-' then -(DigitsValue(digits) as int) else DigitsValue(digits);
      if I64_MIN <= n <= I64_MAX then Some(n) else None
  }

  function Decimal(n: nat): (s: string)
    ensures s != [] && forall i :: 0 <= i < |s| ==> Digit(s[i])
  {
    var last := (n % 10 + '0' as int) as char;
    if n < 10 then [last] else Decimal(n / 10) + [last]
  }

  lemma {:induction false} DecimalReadsBack(n: nat)
    ensures DigitsValue(Decimal(n)) == n
  {
    var s := Decimal(n);
    if n < 10 {
      assert s[..0] == [];
    } else {
      DecimalReadsBack(n / 10);
      assert s[..|s| - 1] == Decimal(n / 10);
    }
  }

  // ----- parse_pattern

  const BUFFER_OPEN := "<buffer="

  function Canonical(handle: Buffer): string {
    BUFFER_OPEN + Decimal(handle) + ">"
  }

  function FallbackBuffer(fallback: Option<Buffer>): Result<Option<Buffer>, AutocmdError> {
    if fallback.Some? then Ok(fallback) else Err(MissingBuffer)
  }

  function ResolveBuffer(part: string, fallback: Option<Buffer>): Result<Option<Buffer>, AutocmdError> {
    if part == "<abuf>" || part == "<buffer>" || part == "<buffer=0>" then FallbackBuffer(fallback)
    else if BUFFER_OPEN <= part && |part| > |BUFFER_OPEN| && part[|part| - 1] == '>' then
      match ParseInteger(part[|BUFFER_OPEN|..|part| - 1])
      case None => Err(InvalidBufferPattern)
      case Some(n) =>
        if n == 0 then FallbackBuffer(fallback)
        else if 0 <= n <= I32_MAX then Ok(Some(n))
        else Err(InvalidBufferPattern)
    else Ok(None)
  }

  datatype Parsed = Parsed(stored: StoredPattern, source: string)

  function ParsePattern(part: string, fallback: Option<Buffer>): Result<Parsed, AutocmdError> {
    match ResolveBuffer(part, fallback)
    case Err(e) => Err(e)
    case Ok(Some(handle)) => Ok(Parsed(BufferLocal(handle), Canonical(handle)))
    case Ok(None) =>
      match Braces.Expand(part)
      case None => Err(UnbalancedBraces)
      case Some(expanded) => Ok(Parsed(Glob(expanded), part))
  }

  /** The canonical spelling of a buffer-local pattern is read back as that pattern,
      whatever buffer is at hand: storing it again changes nothing. */
  lemma CanonicalIsStable(handle: Buffer, fallback: Option<Buffer>)
    requires 0 < handle <= I32_MAX
    ensures ParsePattern(Canonical(handle), fallback) == Ok(Parsed(BufferLocal(handle), Canonical(handle)))
  {
    var part := Canonical(handle);
    CanonicalParts(handle);
    ParsesDecimal(handle);
    hide ParseInteger;
    hide Canonical;
    assert ResolveBuffer(part, fallback) == Ok(Some(handle));
  }

  lemma ParsesDecimal(n: nat)
    requires n <= I64_MAX
    ensures ParseInteger(Decimal(n)) == Some(n)
  {
    assert Digit(Decimal(n)[0]);
    DecimalReadsBack(n);
  }

  function Fit64(n: int): Option<int> {
    if -0x8000_0000_0000_0000 <= n < 0x8000_0000_0000_0000 then Some(n) else None
  }

  /** A text is a number exactly if it is digits, with a sign or without, and the number fits a
      signed 64-bit integer. */
  lemma ParseIntegerExact(s: string)
    ensures AllDigits(s) ==> ParseInteger(s) == Fit64(DigitsValue(s))
    ensures s != "" && s[0] == '+' && AllDigits(s[1..]) ==> ParseInteger(s) == Fit64(DigitsValue(s[1..]))
    ensures s != "" && s[0] == '-' && AllDigits(s[1..]) ==> ParseInteger(s) == Fit64(-(DigitsValue(s[1..]) as int))
    ensures !AllDigits(s) && !(s != "" && (s[0] == '+' || s[0] == '-') && AllDigits(s[1..])) ==> ParseInteger(s) == None
  {
    assert AllDigits(s) ==> Digit(s[0]);
    hide AllDigits;
  }

  /** What the buffer syntax stands for: the buffer at hand for `<abuf>`, `<buffer>` and number
      zero, the buffer of a positive number that fits 31 bits, and an error for any other number
      and for what is no number; nothing else is buffer syntax. */
  lemma BufferSyntax(part: string, fallback: Option<Buffer>)
    ensures part == "<abuf>" || part == "<buffer>" ==> ResolveBuffer(part, fallback) == FallbackOr(fallback)
    ensures forall s :: part == "<buffer=" + s + ">" ==>
              ResolveBuffer(part, fallback)
              == match ParseInteger(s)
                 case None => Err(InvalidBufferPattern)
                 case Some(n) =>
                   if n == 0 then FallbackOr(fallback)
                   else if 0 < n < 0x8000_0000 then Ok(Some(n)) else Err(InvalidBufferPattern)
    ensures part != "<abuf>" && part != "<buffer>" && !(exists s :: part == "<buffer=" + s + ">") ==>
              ResolveBuffer(part, fallback) == Ok(None)
  {
    forall s | part == "<buffer=" + s + ">"
      ensures part[8..|part| - 1] == s && part[7] == '=' && part[|part| - 1] == '>' && |part| > 8
    {
      assert part[8..8 + |s|] == s;
    }
    if "<buffer=" <= part && |part| > 8 && part[|part| - 1] == '>' {
      assert part == "<buffer=" + part[8..|part| - 1] + ">";
    }
    ZeroIsRead();
    assert "<buffer=0>" == "<buffer=" + "0" + ">";
    hide ParseInteger;
  }

  function FallbackOr(fallback: Option<Buffer>): Result<Option<Buffer>, AutocmdError> {
    match fallback case Some(buffer) => Ok(Some(buffer)) case None => Err(MissingBuffer)
  }

  lemma ZeroIsRead()
    ensures ParseInteger("0") == Some(0)
  {
    assert "0"[..0] == "" && DigitsValue("0") == DigitsValue("") * 10 + 0;
  }

  lemma CanonicalParts(handle: Buffer)
    requires handle > 0
    ensures var part := Canonical(handle);
            && BUFFER_OPEN <= part && |part| > |BUFFER_OPEN| && part[|part| - 1] == '>'
            && part[|BUFFER_OPEN|..|part| - 1] == Decimal(handle)
            && part != "<abuf>" && part != "<buffer>" && part != "<buffer=0>"
  {
    var part, digits := Canonical(handle), Decimal(handle);
    assert part[|BUFFER_OPEN|..|part| - 1] == digits;
    assert part[7] == '=';
    DecimalReadsBack(handle);
    assert DigitsValue("0") == 0 by {
      assert "0"[..0] == [];
    }
    assert "<buffer=0>"[|BUFFER_OPEN|..9] == "0" && |"<buffer=0>"| == 10;
  }

  // ----- pattern_matches

  /** The part of a name after its last slash. */
  function Tail(name: string): (r: string)
    ensures '/' !in r
  {
    if '/' !in name then name else Tail(name[1..])
  }

  predicate PatternMatches(pattern: StoredPattern, buffer: Option<Buffer>, name: Option<string>) {
    match pattern
    case BufferLocal(handle) => buffer == Some(handle)
    case Glob(expanded) =>
      var full := if name.Some? then name.value else [];
      exists p :: p in expanded && Matches(GlobTokens(p), if '/' in p then full else Tail(full))
  }

  /** What one item that is no buffer syntax and whose escaped braces do no harm matches: a
      name (its last component, unless the alternative in question holds a slash) that one of
      the strings denoted by the item's braces matches as a glob. */
  lemma ItemMatches(item: Braces.Pat, name: string, buffer: Option<Buffer>, fallback: Option<Buffer>)
    requires Braces.WfPat(item) && Braces.Safe(Braces.Show(item), 0, false)
    requires ResolveBuffer(Braces.Show(item), fallback) == Ok(None)
    ensures ParsePattern(Braces.Show(item), fallback).Ok?
    ensures PatternMatches(ParsePattern(Braces.Show(item), fallback).value.stored, buffer, Some(name))
       <==> exists p :: p in Braces.Denote(item) && Matches(GlobTokens(p), if '/' in p then name else Tail(name))
  {
    Braces.SafeIsTame(item);
    Braces.ExpandDenotes(item);
  }
}
