/**
 Setting text in a measured width: the greedy word wrap, its hard variant that
 cuts overlong words, and truncation. Text is ASCII, so bytes are characters.
 */
module Wrap {
  import opened TextOps

  /** A type size: never negative. */
  type Size = s: real | s >= 0.0

  function ApproxWidth(n: nat, size: Size): real {
    n as real * size * 0.18
  }

  predicate Fits(n: nat, maxWidth: real, size: Size) {
    ApproxWidth(n, size) <= maxWidth
  }

  /** At 10 points a column 100 millimetres wide holds 55 characters. */
  lemma FiftyFiveFit()
    ensures Fits(55, 100.0, 10.0) && !Fits(56, 100.0, 10.0)
  {
  }

  lemma ShorterFits(n: nat, m: nat, maxWidth: real, size: Size)
    requires n <= m && Fits(m, maxWidth, size)
    ensures Fits(n, maxWidth, size)
  {
    assert n as real * size <= m as real * size;
  }

  // ----- words and lines -----

  predicate IsWord(w: string) {
    w != "" && forall i | 0 <= i < |w| :: !IsSpace(w[i])
  }

  /** `split_whitespace` */
  function Words(text: string): (words: seq<string>)
    ensures forall i | 0 <= i < |words| :: IsWord(words[i])
    ensures text != "" && !IsSpace(text[0]) ==> words != []
  {
    if text == "" then []
    else if IsSpace(text[0]) then Words(text[1..])
    else
      var rest := Words(text[1..]);
      if |text| > 1 && !IsSpace(text[1]) then [[text[0]] + rest[0]] + rest[1..]
      else [[text[0]]] + rest
  }

  /** Words with one space between each two. */
  function LineText(words: seq<string>): string {
    if words == [] then ""
    else if |words| == 1 then words[0]
    else LineText(words[..|words| - 1]) + " " + words[|words| - 1]
  }

  // ----- the words are those of the text -----

  lemma WordsOfNothing()
    ensures Words("") == []
  {
  }

  lemma {:induction false} WordsOfWord(w: string)
    requires IsWord(w)
    ensures Words(w) == [w]
  {
    if |w| > 1 {
      WordsOfWord(w[1..]);
      assert [w[0]] + w[1..] == w;
    } else {
      assert w == [w[0]] && w[1..] == "";
    }
  }

  lemma WordsPush(c: char, t: string)
    ensures Words([c] + t)
         == if IsSpace(c) then Words(t)
            else if t != "" && !IsSpace(t[0]) then [[c] + Words(t)[0]] + Words(t)[1..]
            else [[c]] + Words(t)
  {
    assert ([c] + t)[1..] == t;
  }

  lemma PushText(a: string, space: char, b: string)
    requires a != ""
    ensures a == [a[0]] + a[1..] && a + [space] + b == [a[0]] + (a[1..] + [space] + b)
  {
  }

  lemma PushFirst(c: char, words: seq<string>, more: seq<string>)
    requires words != []
    ensures [[c] + (words + more)[0]] + (words + more)[1..] == [[c] + words[0]] + words[1..] + more
  {
  }

  /** A space of any kind ends a word and starts none. */
  lemma {:induction false} WordsAtSpace(a: string, space: char, b: string)
    requires IsSpace(space)
    ensures Words(a + [space] + b) == Words(a) + Words(b)
  {
    hide Words, IsWord, IsSpace;
    if a == "" {
      assert a + [space] + b == [space] + b;
      WordsPush(space, b);
      WordsOfNothing();
    } else {
      var rest := a[1..];
      WordsAtSpace(rest, space, b);
      PushText(a, space, b);
      WordsPush(a[0], rest);
      WordsPush(a[0], rest + [space] + b);
      assert (rest + [space] + b)[0] == if rest == "" then space else rest[0];
      if !IsSpace(a[0]) && rest != "" && !IsSpace(rest[0]) {
        PushFirst(a[0], Words(rest), Words(b));
      } else if !IsSpace(a[0]) {
        assert [[a[0]]] + (Words(rest) + Words(b)) == [[a[0]]] + Words(rest) + Words(b);
      }
    }
  }

  /** A line holds exactly the words it was made of. */
  lemma {:induction false} WordsOfLine(words: seq<string>)
    requires forall i | 0 <= i < |words| :: IsWord(words[i])
    ensures Words(LineText(words)) == words
  {
    hide Words, IsWord;
    if |words| == 1 {
      WordsOfWord(words[0]);
    } else if words != [] {
      var n := |words| - 1;
      WordsOfLine(words[..n]);
      WordsAtSpace(LineText(words[..n]), ' ', words[n]);
      WordsOfWord(words[n]);
      assert words == words[..n] + [words[n]];
    } else {
      WordsOfNothing();
    }
  }

  function Letters(words: seq<string>): nat {
    if words == [] then 0 else Letters(words[..|words| - 1]) + |words[|words| - 1]|
  }

  /** Nothing stands between two words but one space. */
  lemma {:induction false} LineLength(words: seq<string>)
    requires words != []
    ensures |LineText(words)| == Letters(words) + |words| - 1
  {
    if |words| > 1 {
      LineLength(words[..|words| - 1]);
    } else {
      assert words[..0] == [];
    }
  }

  /** The words of one line after the other. */
  function AllWords(lines: seq<string>): seq<string> {
    if lines == [] then [] else AllWords(lines[..|lines| - 1]) + Words(lines[|lines| - 1])
  }

  lemma Respaced(a: string, b: string, c: string)
    ensures a + " " + b + " " + c == a + " " + (b + " " + c)
  {
  }

  lemma {:induction false} LineTextSplit(a: seq<string>, b: seq<string>)
    requires a != [] && b != []
    ensures LineText(a + b) == LineText(a) + " " + LineText(b)
  {
    var n := |b| - 1;
    assert (a + b)[..|a| + n] == a + b[..n] && (a + b)[|a| + n] == b[n];
    if n > 0 {
      LineTextSplit(a, b[..n]);
      Respaced(LineText(a), LineText(b[..n]), b[n]);
    } else {
      assert a + b[..0] == a;
    }
  }

  lemma LineTextEmpty(words: seq<string>)
    requires forall i | 0 <= i < |words| :: IsWord(words[i])
    ensures LineText(words) == "" <==> words == []
  {
  }

  /** A stretch of a line is no longer than the line. */
  lemma StretchFits(words: seq<string>, i: nat, j: nat, maxWidth: real, size: Size)
    requires i < j <= |words| && Fits(|LineText(words)|, maxWidth, size)
    ensures Fits(|LineText(words[i..j])|, maxWidth, size)
  {
    var middle, upTo := words[i..j], words[..j];
    assert words[..i] + middle == upTo && upTo + words[j..] == words;
    if i > 0 {
      LineTextSplit(words[..i], middle);
    } else {
      assert middle == upTo;
    }
    if j < |words| {
      LineTextSplit(upTo, words[j..]);
    } else {
      assert upTo == words;
    }
    ShorterFits(|LineText(middle)|, |LineText(words)|, maxWidth, size);
  }

  // ----- splits -----

  function Flatten<T>(groups: seq<seq<T>>): seq<T> {
    if groups == [] then [] else groups[0] + Flatten(groups[1..])
  }

  predicate LineOk(words: seq<string>, maxWidth: real, size: Size) {
    words != [] && (|words| == 1 || Fits(|LineText(words)|, maxWidth, size))
  }

  /** The words in order, in lines that fit or are a single word. */
  predicate IsSplit(groups: seq<seq<string>>, words: seq<string>, maxWidth: real, size: Size) {
    && Flatten(groups) == words
    && forall i | 0 <= i < |groups| :: LineOk(groups[i], maxWidth, size)
  }

  /** How far a line that holds `n` words grows before the next does not fit. */
  function Extend(words: seq<string>, n: nat, maxWidth: real, size: Size): (k: nat)
    requires n <= |words|
    ensures n <= k <= |words|
    decreases |words| - n
  {
    if n < |words| && Fits(|LineText(words[..n + 1])|, maxWidth, size) then Extend(words, n + 1, maxWidth, size)
    else n
  }

  function Greedy(words: seq<string>, maxWidth: real, size: Size): seq<seq<string>>
    decreases |words|
  {
    if words == [] then []
    else
      var k := Extend(words, 1, maxWidth, size);
      [words[..k]] + Greedy(words[k..], maxWidth, size)
  }

  lemma {:induction false} ExtendFits(words: seq<string>, n: nat, maxWidth: real, size: Size)
    requires 0 < n <= |words| && (n == 1 || Fits(|LineText(words[..n])|, maxWidth, size))
    ensures var k := Extend(words, n, maxWidth, size); k == 1 || Fits(|LineText(words[..k])|, maxWidth, size)
    decreases |words| - n
  {
    if n < |words| && Fits(|LineText(words[..n + 1])|, maxWidth, size) {
      ExtendFits(words, n + 1, maxWidth, size);
    }
  }

  /** Any prefix that fits is reached. */
  lemma {:induction false} ExtendReaches(words: seq<string>, n: nat, m: nat, maxWidth: real, size: Size)
    requires n <= m <= |words| && (n == m || Fits(|LineText(words[..m])|, maxWidth, size))
    ensures Extend(words, n, maxWidth, size) >= m
    decreases |words| - n
  {
    if n < m {
      StretchFits(words[..m], 0, n + 1, maxWidth, size);
      assert words[..m][0..n + 1] == words[..n + 1];
      ExtendReaches(words, n + 1, m, maxWidth, size);
    }
  }

  lemma {:induction false} GreedyIsSplit(words: seq<string>, maxWidth: real, size: Size)
    ensures IsSplit(Greedy(words, maxWidth, size), words, maxWidth, size)
    decreases |words|
  {
    if words != [] {
      var k := Extend(words, 1, maxWidth, size);
      ExtendFits(words, 1, maxWidth, size);
      GreedyIsSplit(words[k..], maxWidth, size);
      assert words == words[..k] + words[k..];
    }
  }

  /** Wherever greedy starts inside the words of a split, it needs no more lines
      for what is left than the split has. */
  lemma {:induction false} GreedyStaysAhead(groups: seq<seq<string>>, words: seq<string>, skip: nat,
                                            maxWidth: real, size: Size)
    requires IsSplit(groups, words, maxWidth, size) && skip <= |words|
    ensures |Greedy(words[skip..], maxWidth, size)| <= |groups|
    decreases |groups|
  {
    if skip < |words| {
      var first, rest, left := groups[0], groups[1..], words[skip..];
      var k := Extend(left, 1, maxWidth, size);
      assert words == first + Flatten(rest);
      if skip < |first| {
        assert left[..|first| - skip] == first[skip..|first|];
        if |first| - skip > 1 {
          StretchFits(first, skip, |first|, maxWidth, size);
        }
        ExtendReaches(left, 1, |first| - skip, maxWidth, size);
      }
      var ahead := skip + k - |first|;
      assert left[k..] == Flatten(rest)[ahead..];
      GreedyStaysAhead(rest, Flatten(rest), ahead, maxWidth, size);
    }
  }

  /** No other way of breaking the words, in order, into lines that fit or are a
      single word uses fewer lines. */
  lemma GreedyIsOptimal(groups: seq<seq<string>>, words: seq<string>, maxWidth: real, size: Size)
    requires IsSplit(groups, words, maxWidth, size)
    ensures IsSplit(Greedy(words, maxWidth, size), words, maxWidth, size)
    ensures |Greedy(words, maxWidth, size)| <= |groups|
  {
    GreedyIsSplit(words, maxWidth, size);
    GreedyStaysAhead(groups, words, 0, maxWidth, size);
    assert words[0..] == words;
  }

  // ----- the loops -----

  function LinesOf(groups: seq<seq<string>>): (lines: seq<string>)
    ensures |lines| == |groups|
  {
    seq(|groups|, i requires 0 <= i < |groups| => LineText(groups[i]))
  }

  function WrapLines(text: string, maxWidth: real, size: Size): seq<string> {
    var lines := LinesOf(Greedy(Words(text), maxWidth, size));
    if lines == [] then [""] else lines
  }

  /** The line begun at `start` has taken every word before `i`. */
  predicate OnTrack(words: seq<string>, start: nat, i: nat, maxWidth: real, size: Size) {
    && start <= i <= |words|
    && (start < i ==> Extend(words[start..], 1, maxWidth, size) == Extend(words[start..], i - start, maxWidth, size))
  }

  lemma WordJoins(words: seq<string>, start: nat, i: nat)
    requires start <= i < |words|
    ensures LineText(words[start..i + 1])
         == if start == i then words[i] else LineText(words[start..i]) + " " + words[i]
  {
    assert words[start..i + 1][..i - start] == words[start..i];
  }

  lemma LineGrows(words: seq<string>, start: nat, i: nat, maxWidth: real, size: Size)
    requires OnTrack(words, start, i, maxWidth, size) && i < |words|
    requires start == i || Fits(|LineText(words[start..i + 1])|, maxWidth, size)
    ensures OnTrack(words, start, i + 1, maxWidth, size)
  {
    assert words[start..][..i - start + 1] == words[start..i + 1];
  }

  lemma LineEnds(words: seq<string>, start: nat, i: nat, maxWidth: real, size: Size)
    requires OnTrack(words, start, i, maxWidth, size) && start < i
    requires i == |words| || !Fits(|LineText(words[start..i + 1])|, maxWidth, size)
    ensures LinesOf(Greedy(words[start..], maxWidth, size))
         == [LineText(words[start..i])] + LinesOf(Greedy(words[i..], maxWidth, size))
  {
    if i < |words| {
      assert words[start..][..i - start + 1] == words[start..i + 1];
    }
    assert words[start..][..i - start] == words[start..i] && words[start..][i - start..] == words[i..];
  }

  /** What is printed: the words in order, and as few lines as any split has. */
  lemma WrapIsOptimal(text: string, groups: seq<seq<string>>, maxWidth: real, size: Size)
    requires IsSplit(groups, Words(text), maxWidth, size)
    ensures |WrapLines(text, maxWidth, size)| <= if groups == [] then 1 else |groups|
  {
    GreedyIsOptimal(groups, Words(text), maxWidth, size);
  }

  lemma {:induction false} LinesHoldWords(groups: seq<seq<string>>)
    requires forall g, i | 0 <= g < |groups| && 0 <= i < |groups[g]| :: IsWord(groups[g][i])
    ensures AllWords(LinesOf(groups)) == Flatten(groups)
  {
    hide Words, IsWord, LineText;
    if groups != [] {
      var n := |groups| - 1;
      LinesHoldWords(groups[..n]);
      WordsOfLine(groups[n]);
      assert LinesOf(groups)[..n] == LinesOf(groups[..n]);
      FlattenPush(groups, n);
      assert groups[..n + 1] == groups;
    }
  }

  lemma {:induction false} InFlatten(groups: seq<seq<string>>, g: nat, i: nat)
    requires g < |groups| && i < |groups[g]|
    ensures groups[g][i] in Flatten(groups)
  {
    if g > 0 {
      InFlatten(groups[1..], g - 1, i);
    }
  }

  /** Nothing is lost, added or moved: the printed lines hold the words of the text. */
  lemma WrapKeepsWords(text: string, maxWidth: real, size: Size)
    ensures AllWords(WrapLines(text, maxWidth, size)) == Words(text)
  {
    hide Words, IsWord, Greedy, LineText, LineOk;
    var words := Words(text);
    var groups := Greedy(words, maxWidth, size);
    GreedyIsSplit(words, maxWidth, size);
    forall g, i | 0 <= g < |groups| && 0 <= i < |groups[g]|
      ensures IsWord(groups[g][i])
    {
      InFlatten(groups, g, i);
    }
    LinesHoldWords(groups);
    if groups == [] {
      OneBlankLine();
    }
  }

  lemma OneBlankLine()
    ensures AllWords([""]) == []
  {
    assert [""][..0] == [];
  }

  method WrapText(text: string, maxWidth: real, size: Size) returns (lines: seq<string>)
    ensures lines == WrapLines(text, maxWidth, size)
    ensures AllWords(lines) == Words(text)
  {
    WrapKeepsWords(text, maxWidth, size);
    hide AllWords, Fits, IsWord, OnTrack, LineText, Greedy, LinesOf, Words;
    var words := Words(text);
    lines := [];
    var current := "";
    ghost var start := 0;
    ghost var whole := LinesOf(Greedy(words, maxWidth, size));
    assert words[0..] == words;
    NewLine(words, 0, maxWidth, size);
    LineTextEmpty(words[0..0]);
    for i := 0 to |words|
      invariant start <= i && (i == 0 || start < i) && current == LineText(words[start..i])
      invariant whole == lines + LinesOf(Greedy(words[start..], maxWidth, size))
      invariant OnTrack(words, start, i, maxWidth, size)
    {
      var word := words[i];
      LineTextEmpty(words[start..i]);
      WordJoins(words, start, i);
      var test := if current == "" then word else current + " " + word;
      if Fits(|test|, maxWidth, size) {
        LineGrows(words, start, i, maxWidth, size);
        current := test;
      } else {
        if current != "" {
          LineEnds(words, start, i, maxWidth, size);
          lines := lines + [current];
          start := i;
          NewLine(words, i, maxWidth, size);
        }
        LineGrows(words, start, i, maxWidth, size);
        WordJoins(words, i, i);
        current := word;
      }
    }
    LineTextEmpty(words[start..]);
    assert words[start..|words|] == words[start..];
    if current != "" {
      LineEnds(words, start, |words|, maxWidth, size);
      NothingLeft(words, maxWidth, size);
      lines := lines + [current];
    } else {
      NothingLeft(words, maxWidth, size);
    }
    if lines == [] {
      lines := [""];
    }
  }

  lemma NewLine(words: seq<string>, i: nat, maxWidth: real, size: Size)
    requires i <= |words|
    ensures OnTrack(words, i, i, maxWidth, size)
  {
  }

  lemma NothingLeft(words: seq<string>, maxWidth: real, size: Size)
    ensures LinesOf(Greedy(words[|words|..], maxWidth, size)) == []
  {
  }

  // ----- hard wrap -----

  function PerLine(maxWidth: real, size: Size): (n: nat)
    requires size > 0.0
    ensures n >= 1
  {
    var fitting := (maxWidth / (size * 0.18)).Floor;
    if fitting < 1 then 1 else fitting
  }

  function Chunks(line: string, n: nat): seq<string>
    requires n >= 1
  {
    if |line| <= n then (if line == "" then [] else [line]) else [line[..n]] + Chunks(line[n..], n)
  }

  /** A piece fits, or is a single character that cannot be cut further. */
  predicate PieceFits(piece: string, maxWidth: real, size: Size) {
    |piece| <= 1 || Fits(|piece|, maxWidth, size)
  }

  lemma PerLineFits(n: nat, maxWidth: real, size: Size)
    requires size > 0.0 && n <= PerLine(maxWidth, size)
    ensures n <= 1 || Fits(n, maxWidth, size)
  {
    var unit, quotient := size * 0.18, maxWidth / (size * 0.18);
    if n > 1 {
      assert n as real <= quotient;
      assert n as real * unit <= quotient * unit;
      assert quotient * unit == maxWidth;
      assert n as real * size * 0.18 == n as real * unit;
    }
  }

  lemma MoreThanRoom(n: real, unit: real, width: real)
    requires unit > 0.0 && n > width / unit
    ensures n * unit > width
  {
    var quotient := width / unit;
    assert quotient * unit == width;
    assert (n - quotient) * unit > 0.0;
  }

  lemma WidthOf(n: nat, size: Size)
    ensures ApproxWidth(n, size) == n as real * (size * 0.18)
  {
  }

  /** One character more than a full piece holds would not fit. */
  lemma PerLineIsMost(maxWidth: real, size: Size)
    requires size > 0.0
    ensures !Fits(PerLine(maxWidth, size) + 1, maxWidth, size)
  {
    hide ApproxWidth;
    var n := PerLine(maxWidth, size) + 1;
    assert n as real > maxWidth / (size * 0.18);
    MoreThanRoom(n as real, size * 0.18, maxWidth);
    WidthOf(n, size);
  }

  function Cut(line: string, maxWidth: real, size: Size): seq<string>
    requires size > 0.0
  {
    if Fits(|line|, maxWidth, size) then [line] else Chunks(line, PerLine(maxWidth, size))
  }

  function CutAll(lines: seq<string>, maxWidth: real, size: Size): seq<string>
    requires size > 0.0
  {
    if lines == [] then [] else CutAll(lines[..|lines| - 1], maxWidth, size) + Cut(lines[|lines| - 1], maxWidth, size)
  }

  lemma {:induction false} ChunksAreFull(line: string, n: nat, i: nat)
    requires n >= 1 && i + 1 < |Chunks(line, n)|
    ensures |Chunks(line, n)[i]| == n
    decreases i
  {
    if i > 0 {
      ChunksAreFull(line[n..], n, i - 1);
    }
  }

  /** No line is cut sooner than it must be: every piece but its last is full. */
  lemma CutsAreFull(line: string, maxWidth: real, size: Size, i: nat)
    requires size > 0.0 && i + 1 < |Cut(line, maxWidth, size)|
    ensures !Fits(|Cut(line, maxWidth, size)[i]| + 1, maxWidth, size)
  {
    ChunksAreFull(line, PerLine(maxWidth, size), i);
    PerLineIsMost(maxWidth, size);
  }

  lemma {:induction false} ChunksCover(line: string, n: nat)
    requires n >= 1
    ensures Flatten(Chunks(line, n)) == line
    ensures forall i | 0 <= i < |Chunks(line, n)| :: 0 < |Chunks(line, n)[i]| <= n
    decreases |line|
  {
    if |line| > n {
      ChunksCover(line[n..], n);
      assert line[..n] + line[n..] == line;
    } else if line != "" {
      assert Flatten([line]) == line + Flatten<char>([line][1..]);
    }
  }

  lemma Associative<T>(a: seq<T>, b: seq<T>, c: seq<T>)
    ensures a + (b + c) == (a + b) + c
  {
  }

  lemma {:induction false} FlattenConcat<T>(a: seq<seq<T>>, b: seq<seq<T>>)
    ensures Flatten(a + b) == Flatten(a) + Flatten(b)
  {
    if a == [] {
      assert a + b == b;
    } else {
      FlattenConcat(a[1..], b);
      assert (a + b)[1..] == a[1..] + b && (a + b)[0] == a[0];
      Associative(a[0], Flatten(a[1..]), Flatten(b));
    }
  }

  /** The lines of the soft wrap, the overlong ones cut: every piece fits or is one
      character, and the pieces spell what the soft wrap spells. */
  method WrapHard(text: string, maxWidth: real, size: Size) returns (pieces: seq<string>)
    requires size > 0.0
    ensures pieces == CutAll(WrapLines(text, maxWidth, size), maxWidth, size)
    ensures Flatten(pieces) == Flatten(WrapLines(text, maxWidth, size))
    ensures forall i | 0 <= i < |pieces| :: PieceFits(pieces[i], maxWidth, size)
  {
    hide Fits, PerLine, Flatten, Chunks, PieceFits, WrapLines, AllWords, Words;
    var perLine := PerLine(maxWidth, size);
    var lines := WrapText(text, maxWidth, size);
    pieces := [];
    assert lines[..0] == pieces;
    for i := 0 to |lines|
      invariant pieces == CutAll(lines[..i], maxWidth, size)
      invariant Flatten(pieces) == Flatten(lines[..i])
      invariant forall k | 0 <= k < |pieces| :: PieceFits(pieces[k], maxWidth, size)
    {
      assert lines[..i + 1][..i] == lines[..i];
      var cut := if Fits(|lines[i]|, maxWidth, size) then [lines[i]] else Chunks(lines[i], perLine);
      CutFits(lines[i], cut, maxWidth, size);
      FlattenConcat(pieces, cut);
      FlattenPush(lines, i);
      pieces := pieces + cut;
    }
    assert lines[..|lines|] == lines;
  }

  lemma FlattenPush<T>(lines: seq<seq<T>>, i: nat)
    requires i < |lines|
    ensures Flatten(lines[..i + 1]) == Flatten(lines[..i]) + lines[i]
  {
    FlattenConcat(lines[..i], [lines[i]]);
    FlattenOne(lines[i]);
    assert lines[..i + 1] == lines[..i] + [lines[i]];
  }

  lemma FlattenOne<T>(line: seq<T>)
    ensures Flatten([line]) == line
  {
    assert Flatten([line]) == line + Flatten<T>([line][1..]);
  }

  lemma CutFits(line: string, cut: seq<string>, maxWidth: real, size: Size)
    requires size > 0.0
    requires cut == if Fits(|line|, maxWidth, size) then [line] else Chunks(line, PerLine(maxWidth, size))
    ensures Flatten(cut) == line
    ensures forall k | 0 <= k < |cut| :: PieceFits(cut[k], maxWidth, size)
  {
    hide Fits, PerLine;
    if Fits(|line|, maxWidth, size) {
      FlattenOne(line);
    } else {
      ChunksCover(line, PerLine(maxWidth, size));
      forall k | 0 <= k < |cut| ensures PieceFits(cut[k], maxWidth, size) {
        PerLineFits(|cut[k]|, maxWidth, size);
      }
    }
  }

  // ----- truncation -----

  const TRUNCATED := "..."

  /** The text itself when it fits; otherwise the longest prefix that still fits
      with the dots behind it (none, if not even one character does). */
  method TruncateToWidth(text: string, maxWidth: real, size: Size) returns (cut: string)
    ensures Fits(|text|, maxWidth, size) ==> cut == text
    ensures !Fits(|text|, maxWidth, size) ==>
              exists k :: 0 <= k <= |text| && cut == text[..k] + TRUNCATED
                && (k > 0 ==> Fits(|cut|, maxWidth, size))
                && forall j | k < j <= |text| :: !Fits(|text[..j] + TRUNCATED|, maxWidth, size)
  {
    hide Fits;
    if Fits(|text|, maxWidth, size) {
      return text;
    }
    var kept := "";
    var k := 0;
    while k < |text|
      invariant k <= |text| && kept == text[..k]
      invariant k > 0 ==> Fits(k + 3, maxWidth, size)
    {
      var candidate := kept + [text[k]];
      if !Fits(|candidate + TRUNCATED|, maxWidth, size) {
        forall j | k < j <= |text| ensures !Fits(|text[..j] + TRUNCATED|, maxWidth, size) {
          if Fits(|text[..j] + TRUNCATED|, maxWidth, size) {
            ShorterFits(k + 4, |text[..j] + TRUNCATED|, maxWidth, size);
          }
        }
        break;
      }
      kept := candidate;
      k := k + 1;
    }
    cut := kept + TRUNCATED;
  }
}
