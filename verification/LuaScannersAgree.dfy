/** The two generators read the same tables. */
module LuaScannersAgree {
  import opened Wrappers
  import LuaLexer
  import OptionTableScanner
  import BuiltinTableScanner

  /** On every text and every opening brace the two scanners give the same answer. */
  method Compare(source: string, open: nat) returns (option: Option<nat>, builtin: Option<nat>)
    requires open < |source| && source[open] == '{'
    ensures option == builtin == LuaLexer.MatchingBrace(source, open)
    ensures option.Some? ==> open < option.value < |source| && source[option.value] == '}'
  {
    option := OptionTableScanner.MatchingDelimiter(source, open);
    builtin := BuiltinTableScanner.MatchingBraceAt(source, open);
    assert LuaLexer.MatchingBrace(source, open) == LuaLexer.ClosesAt(source, open, 0);
    assert LuaLexer.AsCode(LuaLexer.Code, source[open]);
  }
}
