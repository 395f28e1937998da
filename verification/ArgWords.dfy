/** Both argument splitters on words laid out with any white space between them. */
module ArgWords {
  import opened ArgSplit

  /** A tab, line feed, form feed, carriage return or space, by its ASCII code. */
  predicate Separates(c: char) {
    c as int in {9, 10, 12, 13, 32}
  }

  /** A word holds no separator, no backslash and no vertical tab. */
  predicate Word(w: string) {
    w != "" && forall i :: 0 <= i < |w| ==> !Separates(w[i]) && w[i] != '\\' && w[i] as int != 11
  }

  predicate Gap(gap: string) {
    forall i :: 0 <= i < |gap| ==> Separates(gap[i])
  }

  /** The text: each word after its gap, and a last gap. */
  function LaidOut(words: seq<string>, gaps: seq<string>, last: string): string
    requires |gaps| == |words|
  {
    if words == [] then last else gaps[0] + (words[0] + LaidOut(words[1..], gaps[1..], last))
  }

  predicate Fits(words: seq<string>, gaps: seq<string>, last: string) {
    && |gaps| == |words| && Gap(last)
    && (forall i :: 0 <= i < |words| ==> Word(words[i]) && Gap(gaps[i]))
    && (forall i :: 0 < i < |gaps| ==> gaps[i] != "")
  }

  lemma {:induction false} SkipsGap(gap: string, s: string)
    requires Gap(gap) && (s == "" || !Trimmed(s[0]))
    ensures TrimStart(gap + s) == s && SkipSpace(gap + s) == s
  {
    if gap == "" {
      assert gap + s == s;
    } else {
      assert (gap + s)[1..] == gap[1..] + s && (gap + s)[0] == gap[0];
      assert Separates(gap[0]);
      SkipsGap(gap[1..], s);
    }
  }

  lemma {:induction false} ItemIsWord(w: string, tail: string)
    requires (w == "" || Word(w)) && (tail == "" || Separates(tail[0]))
    ensures Item(w + tail) == (w, tail)
  {
    if w == "" {
      assert w + tail == tail;
    } else {
      assert (w + tail)[1..] == w[1..] + tail && (w + tail)[0] == w[0];
      assert !Separates(w[0]) && w[0] != '\\' && w == [w[0]] + w[1..];
      ItemIsWord(w[1..], tail);
    }
  }

  lemma {:induction false} ChunkIsWord(w: string, tail: string)
    requires Word(w) && (tail == "" || Separates(tail[0]))
    ensures ReadChunk(w + tail) == Chunk(w, tail, tail == "")
  {
    var s := w + tail;
    assert s[0] == w[0] && !Separates(w[0]) && w[0] != '\\';
    assert s[1..] == w[1..] + tail;
    assert w == [w[0]] + w[1..];
    if |w| > 1 {
      assert w[1..][0] == w[1] && !Separates(w[1]);
      ChunkIsWord(w[1..], tail);
    } else {
      assert s[1..] == tail;
    }
  }

  lemma {:induction false} RestStarts(words: seq<string>, gaps: seq<string>, last: string)
    requires Fits(words, gaps, last) && (words != [] ==> gaps[0] != "")
    ensures var s := LaidOut(words, gaps, last); s == "" || Separates(s[0])
  {
  }

  lemma RestFits(words: seq<string>, gaps: seq<string>, last: string)
    requires Fits(words, gaps, last) && words != []
    ensures Fits(words[1..], gaps[1..], last) && (words[1..] != [] ==> gaps[1..][0] != "")
    ensures Word(words[0]) && Gap(gaps[0]) && !Trimmed(words[0][0])
  {
    assert forall i :: 0 <= i < |words| - 1 ==> words[1..][i] == words[i + 1] && gaps[1..][i] == gaps[i + 1];
    assert !Separates(words[0][0]);
  }

  /** Whatever white space stands before, between and after the words, both splitters give
      exactly the words. */
  lemma {:induction false} WordsAreSplit(words: seq<string>, gaps: seq<string>, last: string)
    requires Fits(words, gaps, last)
    ensures FileList(LaidOut(words, gaps, last)) == words
    ensures UserArgs(LaidOut(words, gaps, last)) == Values(words)
  {
    if words == [] {
      SkipsGap(last, "");
      assert last + "" == last;
    } else {
      var w, tail := words[0], LaidOut(words[1..], gaps[1..], last);
      RestFits(words, gaps, last);
      RestStarts(words[1..], gaps[1..], last);
      WordsAreSplit(words[1..], gaps[1..], last);
      SkipsGap(gaps[0], w + tail);
      ItemIsWord(w, tail);
      ChunkIsWord(w, tail);
      assert words == [w] + words[1..];
      hide LaidOut;
      hide Fits;
      hide Item;
      hide ReadChunk;
      hide TrimStart;
      hide SkipSpace;
      hide Word;
      hide Gap;
      SplitsOne(gaps[0], w, tail);
    }
  }

  lemma SplitsOne(gap: string, w: string, tail: string)
    requires w != "" && TrimStart(gap + (w + tail)) == w + tail && SkipSpace(gap + (w + tail)) == w + tail
    requires Item(w + tail) == (w, tail) && ReadChunk(w + tail) == Chunk(w, tail, tail == "")
    ensures FileList(gap + (w + tail)) == [w] + FileList(tail)
    ensures UserArgs(gap + (w + tail)) == Include(w, if tail == "" then Values([]) else UserArgs(tail))
    ensures UserArgs("") == Values([])
  {
    assert w + tail != "";
    hide TrimStart;
    hide Item;
  }
}
