/** The two escape-aware argument splitters and the escaping printer they should undo.
    Texts are ASCII. */
module ArgSplit {

  /** ASCII whitespace in the sense of Rust's `is_ascii_whitespace`. */
  predicate Space(c: char) {
    c == ' ' || c == '\t' || c == '\n' || c == '\U{0C}' || c == '\r'
  }

  const VERTICAL_TAB := '\U{0B}'

  /** What trimming removes: the ASCII part of Unicode White_Space, one more character. */
  predicate Trimmed(c: char) {
    Space(c) || c == VERTICAL_TAB
  }

  predicate Special(c: char) {
    c == '\\' || Space(c)
  }

  function Mark(c: char): string {
    if Special(c) then ['\\', c] else [c]
  }

  function Escape(arg: string): string {
    if arg == [] then [] else Mark(arg[0]) + Escape(arg[1..])
  }

  /** Escapes every backslash and whitespace character and joins with single spaces. */
  function Print(args: seq<string>): string {
    if args == [] then []
    else if |args| == 1 then Escape(args[0])
    else Escape(args[0]) + [' '] + Print(args[1..])
  }

  // ----- split_file_list

  function TrimStart(s: string): (r: string)
    ensures |r| <= |s| && (r != [] ==> !Trimmed(r[0]))
  {
    if s != [] && Trimmed(s[0]) then TrimStart(s[1..]) else s
  }

  /** One item and what follows it. */
  function Item(s: string): (r: (string, string))
    ensures |r.1| <= |s| && (s != [] && !Space(s[0]) ==> |r.1| < |s|)
  {
    if s == [] then ([], [])
    else if s[0] == '\\' && |s| > 1 then
      var (item, rest) := Item(s[2..]); ([s[1]] + item, rest)
    else if Space(s[0]) then ([], s)
    else
      var (item, rest) := Item(s[1..]); ([s[0]] + item, rest)
  }

  function FileList(s: string): seq<string>
    decreases |s|
  {
    var r := TrimStart(s);
    if r == [] then [] else [Item(r).0] + FileList(Item(r).1)
  }

  method TrimmedStart(s: string) returns (r: string)
    ensures r == TrimStart(s)
  {
    r := s;
    while r != [] && Trimmed(r[0])
      invariant TrimStart(r) == TrimStart(s)
    {
      r := r[1..];
    }
  }

  lemma ItemStep(s: string, i: nat, item: string)
    requires i < |s|
    ensures var (more, rest) := Item(s[i..]);
            if s[i] == '\\' && i + 1 < |s| then
              item + more == item + [s[i + 1]] + Item(s[i + 2..]).0 && rest == Item(s[i + 2..]).1
            else if Space(s[i]) then item + more == item && rest == s[i..]
            else item + more == item + [s[i]] + Item(s[i + 1..]).0 && rest == Item(s[i + 1..]).1
  {
    assert s[i..][1..] == s[i + 1..];
    if i + 1 < |s| {
      assert s[i..][2..] == s[i + 2..];
    }
  }

  /** The inner loop: the item at the start of `rest` and how many characters it took. */
  method ReadItem(rest: string) returns (item: string, index: nat)
    ensures index <= |rest| && Item(rest) == (item, rest[index..])
  {
    item, index := [], 0;
    assert rest[0..] == rest && [] + Item(rest).0 == Item(rest).0;
    while index < |rest|
      invariant index <= |rest|
      invariant Item(rest).0 == item + Item(rest[index..]).0 && Item(rest).1 == Item(rest[index..]).1
    {
      ItemStep(rest, index, item);
      if rest[index] == '\\' && index + 1 < |rest| {
        item := item + [rest[index + 1]];
        index := index + 2;
        continue;
      }
      if Space(rest[index]) {
        return;
      }
      item := item + [rest[index]];
      index := index + 1;
    }
    assert rest[index..] == [] && item + [] == item;
  }

  method SplitFileList(text: string) returns (items: seq<string>)
    ensures items == FileList(text)
  {
    items := [];
    var rest := TrimmedStart(text);
    TrimTwice(text);
    while rest != []
      invariant rest == TrimStart(rest)
      invariant items + FileList(rest) == FileList(text)
      decreases |rest|
    {
      var item, index := ReadItem(rest);
      var tail := rest[index..];
      assert items + ([item] + FileList(tail)) == (items + [item]) + FileList(tail);
      items := items + [item];
      rest := TrimmedStart(tail);
      TrimTwice(tail);
    }
  }

  lemma {:induction false} TrimTwice(s: string)
    ensures TrimStart(TrimStart(s)) == TrimStart(s) && FileList(TrimStart(s)) == FileList(s)
  {
    if s != [] && Trimmed(s[0]) {
      TrimTwice(s[1..]);
    }
  }

  /** What the file-list splitter loses of an argument: leading vertical tabs. */
  function DropTabs(arg: string): (r: string)
    ensures |r| <= |arg| && (arg != [] && arg[0] == VERTICAL_TAB ==> |r| < |arg|)
    ensures arg != [] && arg[0] != VERTICAL_TAB ==> r == arg
  {
    if arg != [] && arg[0] == VERTICAL_TAB then DropTabs(arg[1..]) else arg
  }

  function Kept(args: seq<string>): seq<string> {
    if args == [] then []
    else (if DropTabs(args[0]) == [] then [] else [DropTabs(args[0])]) + Kept(args[1..])
  }

  lemma EscapeFront(arg: string, tail: string)
    requires arg != []
    ensures Escape(arg) + tail == Mark(arg[0]) + (Escape(arg[1..]) + tail)
  {
  }

  lemma ItemReadsMark(c: char, next: string)
    ensures Item(Mark(c) + next) == ([c] + Item(next).0, Item(next).1)
  {
    var s := Mark(c) + next;
    assert s[|Mark(c)|..] == next;
  }

  lemma {:induction false} ItemReads(arg: string, tail: string)
    requires tail == [] || tail[0] == ' '
    ensures Item(Escape(arg) + tail) == (arg, tail)
  {
    if arg == [] {
      assert [] + tail == tail;
    } else {
      EscapeFront(arg, tail);
      ItemReads(arg[1..], tail);
      ItemReadsMark(arg[0], Escape(arg[1..]) + tail);
      assert arg == [arg[0]] + arg[1..];
    }
  }

  lemma {:induction false} TrimDropsTabs(arg: string, tail: string)
    ensures TrimStart(Escape(arg) + tail)
         == if DropTabs(arg) == [] then TrimStart(tail) else Escape(DropTabs(arg)) + tail
  {
    if arg == [] {
      assert [] + tail == tail;
    } else if arg[0] == VERTICAL_TAB {
      EscapeFront(arg, tail);
      var text, rest := Escape(arg) + tail, Escape(arg[1..]) + tail;
      assert Mark(arg[0]) == [VERTICAL_TAB];
      assert DropTabs(arg) == DropTabs(arg[1..]);
      hide Escape;
      hide DropTabs;
      assert ([VERTICAL_TAB] + rest)[1..] == rest;
      assert TrimStart(text) == TrimStart(rest);
      hide TrimStart;
      TrimDropsTabs(arg[1..], tail);
    } else {
      TrimmedStays(arg, tail);
    }
  }

  /** One item read off the front of a text. */
  lemma OneItem(text: string, item: string, tail: string)
    requires text != [] && TrimStart(text) == text && Item(text) == (item, tail)
    ensures FileList(text) == [item] + FileList(tail)
  {
  }

  lemma SpaceIsSkipped(text: string)
    ensures FileList([' '] + text) == FileList(text) && FileList([]) == []
  {
    assert ([' '] + text)[1..] == text;
    TrimTwice(text);
  }

  lemma TrimmedStays(arg: string, tail: string)
    requires arg != [] && arg[0] != VERTICAL_TAB
    ensures Escape(arg) + tail != [] && TrimStart(Escape(arg) + tail) == Escape(arg) + tail
  {
  }

  lemma FrontReads(arg: string, tail: string)
    requires tail == [] || tail[0] == ' '
    ensures FileList(Escape(arg) + tail) == (if DropTabs(arg) == [] then [] else [DropTabs(arg)]) + FileList(tail)
  {
    var kept, text := DropTabs(arg), Escape(DropTabs(arg)) + tail;
    TrimDropsTabs(arg, tail);
    TrimTwice(Escape(arg) + tail);
    if kept == [] {
      TrimTwice(tail);
      assert [] + FileList(tail) == FileList(tail);
    } else {
      DroppedFront(arg);
      TrimmedStays(kept, tail);
      hide *;
      ItemReads(kept, tail);
      OneItem(text, kept, tail);
    }
  }

  lemma {:induction false} DroppedFront(arg: string)
    ensures DropTabs(arg) != [] ==> DropTabs(arg)[0] != VERTICAL_TAB
  {
    if arg != [] && arg[0] == VERTICAL_TAB {
      DroppedFront(arg[1..]);
    }
  }

  lemma PrintStep(args: seq<string>)
    requires args != []
    ensures Print(args) == Escape(args[0]) + if |args| == 1 then [] else [' '] + Print(args[1..])
  {
    hide Escape;
    var first := Escape(args[0]);
    if |args| == 1 {
      assert first + [] == first;
    } else {
      var rest := Print(args[1..]);
      assert first + [' '] + rest == first + ([' '] + rest);
    }
  }

  lemma KeptStep(args: seq<string>)
    requires args != []
    ensures Kept(args) == (if DropTabs(args[0]) == [] then [] else [DropTabs(args[0])]) + Kept(args[1..])
    ensures |args| == 1 ==> Kept(args[1..]) == []
  {
    hide DropTabs;
  }

  /** For every argument list: what comes back is each argument without its leading
      vertical tabs, in order, empty ones dropped. */
  lemma {:induction false} FileListReadsPrinted(args: seq<string>)
    ensures FileList(Print(args)) == Kept(args)
  {
    if args != [] {
      hide *;
      var arg, others := args[0], args[1..];
      var tail := if |args| == 1 then [] else [' '] + Print(others);
      PrintStep(args);
      KeptStep(args);
      FileListReadsPrinted(others);
      SpaceIsSkipped(Print(others));
      FrontReads(arg, tail);
    }
  }

  function Weight(args: seq<string>): nat {
    if args == [] then 0 else 1 + |args[0]| + Weight(args[1..])
  }

  predicate CleanArg(arg: string) {
    arg != [] && arg[0] != VERTICAL_TAB
  }

  predicate All(args: seq<string>, ok: string -> bool) {
    forall i :: 0 <= i < |args| ==> ok(args[i])
  }

  lemma AllFront(args: seq<string>, ok: string -> bool)
    requires args != []
    ensures All(args, ok) <==> ok(args[0]) && All(args[1..], ok)
  {
    assert forall i :: 0 < i < |args| ==> args[i] == args[1..][i - 1];
  }

  lemma WeightFront(arg: string, args: seq<string>)
    ensures Weight([arg] + args) == 1 + |arg| + Weight(args)
  {
    assert ([arg] + args)[1..] == args;
  }

  lemma {:induction false} KeptWeighs(args: seq<string>)
    ensures Weight(Kept(args)) <= Weight(args)
    ensures All(args, CleanArg) ==> Kept(args) == args
    ensures !All(args, CleanArg) ==> Weight(Kept(args)) < Weight(args)
  {
    if args != [] {
      KeptWeighs(args[1..]);
      AllFront(args, CleanArg);
      assert args == [args[0]] + args[1..];
      var first := DropTabs(args[0]);
      assert Kept(args) == (if first == [] then [] else [first]) + Kept(args[1..]);
      if first != [] {
        WeightFront(first, Kept(args[1..]));
      } else {
        assert Kept(args) == Kept(args[1..]);
      }
    }
  }

  /** The file-list splitter undoes the printer exactly on lists of non-empty arguments
      none of which starts with a vertical tab. */
  lemma FileListRoundTrip(args: seq<string>)
    ensures FileList(Print(args)) == args <==> All(args, CleanArg)
  {
    FileListReadsPrinted(args);
    KeptWeighs(args);
  }

  /** The printer that escapes the vertical tab too: every backslash and every character that
      trimming removes. */
  function EscapeTrimmed(arg: string): string {
    if arg == [] then [] else MarkTrimmed(arg[0]) + EscapeTrimmed(arg[1..])
  }

  function MarkTrimmed(c: char): string {
    if c == '\\' || Trimmed(c) then ['\\', c] else [c]
  }

  function PrintTrimmed(args: seq<string>): string {
    if args == [] then []
    else if |args| == 1 then EscapeTrimmed(args[0])
    else EscapeTrimmed(args[0]) + [' '] + PrintTrimmed(args[1..])
  }

  lemma ItemReadsOne(c: char, next: string)
    ensures Item(MarkTrimmed(c) + next) == ([c] + Item(next).0, Item(next).1)
  {
    var text := MarkTrimmed(c) + next;
    if |MarkTrimmed(c)| == 2 {
      assert text[2..] == next;
    } else {
      assert text[1..] == next;
    }
  }

  lemma TrimmedFront(arg: string, tail: string)
    requires arg != []
    ensures EscapeTrimmed(arg) + tail == MarkTrimmed(arg[0]) + (EscapeTrimmed(arg[1..]) + tail)
  {
    hide MarkTrimmed;
  }

  lemma {:induction false} ItemReadsTrimmed(arg: string, tail: string)
    requires tail == [] || tail[0] == ' '
    ensures Item(EscapeTrimmed(arg) + tail) == (arg, tail)
  {
    if arg == [] {
      assert [] + tail == tail;
    } else {
      TrimmedFront(arg, tail);
      hide *;
      ItemReadsTrimmed(arg[1..], tail);
      ItemReadsOne(arg[0], EscapeTrimmed(arg[1..]) + tail);
      assert arg == [arg[0]] + arg[1..];
    }
  }

  lemma TrimmedFrontReads(arg: string, tail: string)
    requires tail == [] || tail[0] == ' '
    ensures FileList(EscapeTrimmed(arg) + tail) == (if arg == [] then [] else [arg]) + FileList(tail)
  {
    if arg == [] {
      assert [] + tail == tail && [] + FileList(tail) == FileList(tail);
    } else {
      var text := EscapeTrimmed(arg) + tail;
      assert text != [] && TrimStart(text) == text;
      hide *;
      ItemReadsTrimmed(arg, tail);
      OneItem(text, arg, tail);
    }
  }

  lemma PrintTrimmedStep(args: seq<string>)
    requires args != []
    ensures PrintTrimmed(args) == EscapeTrimmed(args[0]) + if |args| == 1 then [] else [' '] + PrintTrimmed(args[1..])
  {
    hide EscapeTrimmed;
    var first := EscapeTrimmed(args[0]);
    if |args| == 1 {
      assert first + [] == first;
    } else {
      var rest := PrintTrimmed(args[1..]);
      assert first + [' '] + rest == first + ([' '] + rest);
    }
  }

  lemma NonEmptyStep(args: seq<string>)
    requires args != []
    ensures NonEmpty(args) == (if args[0] == [] then [] else [args[0]]) + NonEmpty(args[1..])
    ensures |args| == 1 ==> NonEmpty(args[1..]) == []
  {
  }

  lemma {:induction false} FileListReadsTrimmed(args: seq<string>)
    ensures FileList(PrintTrimmed(args)) == NonEmpty(args)
  {
    if args != [] {
      hide *;
      var arg, others := args[0], args[1..];
      var tail := if |args| == 1 then [] else [' '] + PrintTrimmed(others);
      PrintTrimmedStep(args);
      NonEmptyStep(args);
      FileListReadsTrimmed(others);
      SpaceIsSkipped(PrintTrimmed(others));
      TrimmedFrontReads(arg, tail);
    }
  }

  /** When the printer escapes the vertical tab too, the file-list splitter undoes it exactly
      on lists of non-empty arguments. */
  lemma FileListUndoesFullEscaping(args: seq<string>)
    ensures FileList(PrintTrimmed(args)) == args <==> All(args, arg => arg != [])
  {
    FileListReadsTrimmed(args);
    NonEmptyKeepsAll(args);
  }

  // ----- split_user_command_args

  /** The values, or the out-of-range read the loop makes past an escape pair that ends
      the text. */
  datatype Outcome = Values(values: seq<string>) | OutOfRange

  datatype Chunk = Chunk(text: string, rest: string, last: bool) | Overrun

  predicate EscapePair(s: string) {
    |s| >= 2 && s[0] == '\\' && Special(s[1])
  }

  function Push(c: char, chunk: Chunk): Chunk {
    match chunk
    case Chunk(text, rest, last) => Chunk([c] + text, rest, last)
    case Overrun => Overrun
  }

  /** The inner loop from a given position on. */
  function ReadChunk(s: string): (r: Chunk)
    ensures r.Chunk? ==> |r.rest| <= |s| && (!r.last ==> |r.rest| < |s|)
  {
    if |s| <= 1 then Chunk(if |s| == 1 && !Space(s[0]) then s else [], [], true)
    else
      var c, next := if EscapePair(s) then s[1] else s[0], s[if EscapePair(s) then 2 else 1..];
      if next == [] then Overrun
      else if Space(next[0]) then Chunk([c], next, false)
      else Push(c, ReadChunk(next))
  }

  function SkipSpace(s: string): (r: string)
    ensures |r| <= |s|
  {
    if s != [] && Space(s[0]) then SkipSpace(s[1..]) else s
  }

  function Include(text: string, outcome: Outcome): Outcome {
    if outcome.Values? && text != [] then Values([text] + outcome.values) else outcome
  }

  function UserArgs(s: string): Outcome
    decreases |s|
  {
    match ReadChunk(SkipSpace(s))
    case Overrun => OutOfRange
    case Chunk(text, rest, last) => Include(text, if last then Values([]) else UserArgs(rest))
  }

  function Preceded(done: seq<string>, outcome: Outcome): Outcome {
    if outcome.Values? then Values(done + outcome.values) else outcome
  }

  function Begun(text: string, chunk: Chunk): Chunk {
    match chunk
    case Chunk(t, rest, last) => Chunk(text + t, rest, last)
    case Overrun => Overrun
  }

  predicate PairAt(arg: string, pos: nat) {
    pos + 1 < |arg| && arg[pos] == '\\' && Special(arg[pos + 1])
  }

  lemma ChunkStep(arg: string, pos: nat, at: nat, chunk: string)
    requires pos + 1 < |arg|
    requires at == if PairAt(arg, pos) then pos + 1 else pos
    ensures Begun(chunk, ReadChunk(arg[pos..]))
         == if at + 1 == |arg| then Overrun
            else if Space(arg[at + 1]) then Chunk(chunk + [arg[at]], arg[at + 1..], false)
            else Begun(chunk + [arg[at]], ReadChunk(arg[at + 1..]))
  {
    BegunPush(chunk, arg[at], ReadChunk(arg[at + 1..]));
    assert arg[pos..][1..] == arg[pos + 1..] && arg[pos..][2..] == arg[pos + 2..];
    assert EscapePair(arg[pos..]) <==> PairAt(arg, pos);
  }

  lemma ChunkEnd(arg: string, pos: nat, chunk: string)
    requires |arg| <= pos + 1 && pos <= |arg|
    ensures Begun(chunk, ReadChunk(arg[pos..]))
         == Chunk(if pos < |arg| && !Space(arg[pos]) then chunk + [arg[pos]] else chunk, [], true)
  {
    assert chunk + [] == chunk;
    if pos < |arg| {
      assert arg[pos..] == [arg[pos]];
    }
  }

  /** The inner loop from `start`: the chunk, where it broke off, or an overrun. */
  method ReadChunkAt(arg: string, start: nat) returns (chunk: string, end: nat, done: bool, overrun: bool)
    requires start <= |arg|
    ensures end <= |arg|
    ensures ReadChunk(arg[start..])
         == if overrun then Overrun else if done then Chunk(chunk, [], true) else Chunk(chunk, arg[end..], false)
  {
    hide ReadChunk;
    hide Begun;
    var len, pos := |arg|, start;
    chunk, end, done, overrun := [], start, true, false;
    BegunEmpty(ReadChunk(arg[start..]));
    while pos < len - 1
      invariant start <= pos <= len && end <= len
      invariant ReadChunk(arg[start..]) == Begun(chunk, ReadChunk(arg[pos..]))
      decreases len - pos
    {
      ChunkStep(arg, pos, if PairAt(arg, pos) then pos + 1 else pos, chunk);
      if arg[pos] == '\\' && (arg[pos + 1] == '\\' || Space(arg[pos + 1])) {
        pos := pos + 1;
      }
      if pos + 1 == len {
        return chunk, end, done, true;
      }
      chunk := chunk + [arg[pos]];
      if Space(arg[pos + 1]) {
        return chunk, pos + 1, false, false;
      }
      pos := pos + 1;
    }
    ChunkEnd(arg, pos, chunk);
    if pos < len && !Space(arg[pos]) {
      chunk := chunk + [arg[pos]];
    }
  }

  lemma BegunEmpty(chunk: Chunk)
    ensures Begun([], chunk) == chunk
  {
    if chunk.Chunk? {
      assert [] + chunk.text == chunk.text;
    }
  }

  lemma BegunPush(text: string, c: char, chunk: Chunk)
    ensures Begun(text, Push(c, chunk)) == Begun(text + [c], chunk)
  {
    if chunk.Chunk? {
      assert text + ([c] + chunk.text) == text + [c] + chunk.text;
    }
  }

  method SkipSpaceAt(arg: string, from: nat) returns (pos: nat)
    requires from <= |arg|
    ensures pos <= |arg| && SkipSpace(arg[from..]) == arg[pos..]
  {
    pos := from;
    while pos < |arg| && Space(arg[pos])
      invariant from <= pos <= |arg|
      invariant SkipSpace(arg[pos..]) == SkipSpace(arg[from..])
    {
      assert arg[pos..][1..] == arg[pos + 1..];
      pos := pos + 1;
    }
  }

  lemma PrecededInclude(done: seq<string>, text: string, outcome: Outcome)
    ensures Preceded(done, Include(text, outcome)) == Preceded(if text == [] then done else done + [text], outcome)
  {
    if outcome.Values? {
      assert done + ([text] + outcome.values) == done + [text] + outcome.values;
    }
  }

  method SplitUserCommandArgs(arg: string) returns (outcome: Outcome)
    ensures outcome == UserArgs(arg)
  {
    var values := [];
    if |arg| == 0 {
      return Values(values);
    }
    var end := 0;
    assert arg[0..] == arg;
    assert UserArgs(arg).Values? ==> [] + UserArgs(arg).values == UserArgs(arg).values;
    while true
      invariant end <= |arg|
      invariant Preceded(values, UserArgs(arg[end..])) == UserArgs(arg)
      decreases |arg| - end
    {
      var pos := SkipSpaceAt(arg, end);
      var chunk, stop, done, overrun := ReadChunkAt(arg, pos);
      if overrun {
        return OutOfRange;
      }
      PrecededInclude(values, chunk, if done then Values([]) else UserArgs(arg[stop..]));
      if chunk != [] {
        values := values + [chunk];
      }
      if done {
        assert values + [] == values;
        return Values(values);
      }
      end := stop;
    }
  }

  /** Reading the text from the left, escape pair by escape pair: does a pair end it? */
  predicate EndsInPair(s: string) {
    if s == [] then false
    else if EscapePair(s) then |s| == 2 || EndsInPair(s[2..])
    else EndsInPair(s[1..])
  }

  lemma {:induction false} ChunkEndsInPair(s: string)
    requires s == [] || !Space(s[0])
    ensures ReadChunk(s).Overrun? ==> EndsInPair(s)
    ensures ReadChunk(s).Chunk? ==> (EndsInPair(s) <==> EndsInPair(ReadChunk(s).rest))
  {
    if |s| >= 2 {
      var next := s[if EscapePair(s) then 2 else 1..];
      if next != [] && !Space(next[0]) {
        ChunkEndsInPair(next);
      }
    }
  }

  lemma {:induction false} SpacesEndInPair(s: string)
    ensures EndsInPair(SkipSpace(s)) <==> EndsInPair(s)
    ensures SkipSpace(s) != [] ==> !Space(SkipSpace(s)[0])
  {
    if s != [] && Space(s[0]) {
      SpacesEndInPair(s[1..]);
    }
  }

  /** For every text: the splitter reads out of range exactly when an escape pair ends it. */
  lemma {:induction false} OverrunIff(s: string)
    ensures UserArgs(s).OutOfRange? <==> EndsInPair(s)
    decreases |s|
  {
    SpacesEndInPair(s);
    ChunkEndsInPair(SkipSpace(s));
    var chunk := ReadChunk(SkipSpace(s));
    if chunk.Chunk? {
      if chunk.last {
        LastChunkIsAll(SkipSpace(s));
      } else {
        OverrunIff(chunk.rest);
      }
    }
  }

  lemma {:induction false} LastChunkIsAll(s: string)
    requires ReadChunk(s).Chunk? && ReadChunk(s).last
    ensures ReadChunk(s).rest == []
  {
    if |s| >= 2 {
      LastChunkIsAll(s[if EscapePair(s) then 2 else 1..]);
    }
  }

  function NonEmpty(args: seq<string>): seq<string> {
    if args == [] then [] else (if args[0] == [] then [] else [args[0]]) + NonEmpty(args[1..])
  }

  /** The last argument is printed with a closing escape pair. */
  predicate EndsSpecial(args: seq<string>) {
    args != [] && var last := args[|args| - 1]; last != [] && Special(last[|last| - 1])
  }

  lemma ChunkReadsMark(c: char, next: string)
    requires next != [] || Special(c)
    ensures ReadChunk(Mark(c) + next)
         == if next == [] then Overrun else if Space(next[0]) then Chunk([c], next, false) else Push(c, ReadChunk(next))
  {
    var s := Mark(c) + next;
    assert s[|Mark(c)|..] == next;
  }

  lemma {:induction false} ChunkReads(arg: string, tail: string)
    requires arg != [] && (tail == [] || tail[0] == ' ')
    ensures ReadChunk(Escape(arg) + tail)
         == if tail == [] && Special(arg[|arg| - 1]) then Overrun else Chunk(arg, tail, tail == [])
  {
    EscapeFront(arg, tail);
    assert arg == [arg[0]] + arg[1..];
    if |arg| > 1 {
      EscapeFront(arg[1..], tail);
      ChunkReadsMark(arg[0], Escape(arg[1..]) + tail);
      ChunkReads(arg[1..], tail);
    } else {
      assert Escape(arg) + tail == Mark(arg[0]) + tail;
      if tail != [] || Special(arg[0]) {
        ChunkReadsMark(arg[0], tail);
      }
    }
  }

  lemma OneArgReads(arg: string, tail: string)
    requires tail == [] || tail[0] == ' '
    ensures UserArgs(Escape(arg) + tail)
         == if arg == [] then UserArgs(tail)
            else if tail != [] then Include(arg, UserArgs(tail))
            else if Special(arg[|arg| - 1]) then OutOfRange else Values([arg])
  {
    if arg == [] {
      assert [] + tail == tail;
    } else {
      EscapeFront(arg, tail);
      ChunkReads(arg, tail);
      assert SkipSpace(Escape(arg) + tail) == Escape(arg) + tail;
    }
  }

  lemma LeadingSpace(s: string)
    ensures UserArgs([' '] + s) == UserArgs(s)
  {
    assert ([' '] + s)[1..] == s;
  }

  /** For every argument list: the non-empty arguments in order, or an out-of-range read
      when the last argument ends in a backslash or whitespace. */
  lemma {:induction false} UserArgsReadsPrinted(args: seq<string>)
    ensures UserArgs(Print(args)) == if EndsSpecial(args) then OutOfRange else Values(NonEmpty(args))
  {
    if |args| == 1 {
      OneArgReads(args[0], []);
      assert Escape(args[0]) + [] == Escape(args[0]) && args[1..] == [];
      assert NonEmpty(args) == (if args[0] == [] then [] else [args[0]]);
    } else if args != [] {
      var tail := [' '] + Print(args[1..]);
      assert Print(args) == Escape(args[0]) + tail;
      OneArgReads(args[0], tail);
      LeadingSpace(Print(args[1..]));
      UserArgsReadsPrinted(args[1..]);
    }
  }

  lemma {:induction false} NonEmptyKeepsAll(args: seq<string>)
    ensures |NonEmpty(args)| <= |args|
    ensures NonEmpty(args) == args <==> All(args, arg => arg != [])
  {
    if args != [] {
      NonEmptyKeepsAll(args[1..]);
      AllFront(args, arg => arg != []);
      assert args == [args[0]] + args[1..];
      if args[0] != [] {
        assert NonEmpty(args)[1..] == NonEmpty(args[1..]);
      }
    }
  }

  /** The user-command splitter undoes the printer exactly on lists of non-empty arguments
      whose last one ends in neither a backslash nor whitespace. */
  lemma UserArgsRoundTrip(args: seq<string>)
    ensures UserArgs(Print(args)) == Values(args) <==> All(args, arg => arg != []) && !EndsSpecial(args)
  {
    UserArgsReadsPrinted(args);
    NonEmptyKeepsAll(args);
  }
}
