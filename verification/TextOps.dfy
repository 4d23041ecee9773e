/** The string operations the parsers are written in, on ASCII text. */
module TextOps {

  predicate IsSpace(c: char) {
    c == ' ' || ('\t' <= c <= '\r')
  }

  function TrimStart(s: string): string {
    if s != "" && IsSpace(s[0]) then TrimStart(s[1..]) else s
  }

  function TrimEnd(s: string): string {
    if s != "" && IsSpace(s[|s| - 1]) then TrimEnd(s[..|s| - 1]) else s
  }

  function Trim(s: string): string {
    TrimEnd(TrimStart(s))
  }

  lemma TrimKeeps(s: string)
    requires s == "" || (!IsSpace(s[0]) && !IsSpace(s[|s| - 1]))
    ensures Trim(s) == s
  {
  }

  lemma SpaceCharacters(c: char)
    ensures IsSpace(c) <==> c == ' ' || c as int in [9, 10, 11, 12, 13]
  {
  }

  /** Nothing but spaces is cut off, and no space is left at either end. */
  lemma TrimIsMiddle(s: string) returns (before: string, after: string)
    ensures s == before + Trim(s) + after
    ensures forall i | 0 <= i < |before| :: IsSpace(before[i])
    ensures forall i | 0 <= i < |after| :: IsSpace(after[i])
    ensures Trim(s) == "" || (!IsSpace(Trim(s)[0]) && !IsSpace(Trim(s)[|Trim(s)| - 1]))
  {
    before := TrimmedStart(s);
    var rest := TrimStart(s);
    after := TrimmedEnd(rest);
  }

  lemma {:induction false} TrimmedStart(s: string) returns (before: string)
    ensures s == before + TrimStart(s)
    ensures forall i | 0 <= i < |before| :: IsSpace(before[i])
    ensures TrimStart(s) == "" || !IsSpace(TrimStart(s)[0])
  {
    before := "";
    if s != "" && IsSpace(s[0]) {
      before := TrimmedStart(s[1..]);
      before := [s[0]] + before;
    }
  }

  lemma {:induction false} TrimmedEnd(s: string) returns (after: string)
    ensures s == TrimEnd(s) + after
    ensures forall i | 0 <= i < |after| :: IsSpace(after[i])
    ensures TrimEnd(s) == "" || (TrimEnd(s)[0] == s[0] && !IsSpace(TrimEnd(s)[|TrimEnd(s)| - 1]))
  {
    after := "";
    if s != "" && IsSpace(s[|s| - 1]) {
      after := TrimmedEnd(s[..|s| - 1]);
      after := after + [s[|s| - 1]];
    }
  }

  predicate Blank(s: string) {
    forall i | 0 <= i < |s| :: IsSpace(s[i])
  }

  /** Blanks around a text do not count. */
  lemma TrimAround(before: string, s: string, after: string)
    requires Blank(before) && Blank(after)
    ensures Trim(before + s + after) == Trim(s)
  {
    hide TrimStart, TrimEnd;
    assert before + s + after == before + (s + after);
    TrimStartSkips(before, s + after);
    TrimStartOf(s, after);
    if TrimStart(s) == "" {
      TrimEndSkips("", TrimStart(s + after));
      NothingToTrim();
      assert "" + TrimStart(s + after) == TrimStart(s + after);
    } else {
      TrimEndSkips(TrimStart(s), after);
    }
  }

  lemma NothingToTrim()
    ensures TrimEnd("") == "" && TrimStart("") == ""
  {
  }

  lemma {:induction false} TrimStartSkips(before: string, s: string)
    requires Blank(before)
    ensures TrimStart(before + s) == TrimStart(s)
  {
    if before == "" {
      assert before + s == s;
    } else {
      TrimStartSkips(before[1..], s);
      assert (before + s)[1..] == before[1..] + s;
    }
  }

  lemma {:induction false} TrimEndSkips(s: string, after: string)
    requires Blank(after)
    ensures TrimEnd(s + after) == TrimEnd(s)
  {
    if after == "" {
      assert s + after == s;
    } else {
      var n := |after| - 1;
      TrimEndSkips(s, after[..n]);
      assert (s + after)[..|s| + n] == s + after[..n];
    }
  }

  lemma {:induction false} TrimStartOf(s: string, after: string)
    requires Blank(after)
    ensures if TrimStart(s) == "" then Blank(TrimStart(s + after)) else TrimStart(s + after) == TrimStart(s) + after
  {
    if s == "" {
      assert s + after == after;
      TrimStartSkips(after, "");
      assert after + "" == after;
    } else if IsSpace(s[0]) {
      TrimStartOf(s[1..], after);
      assert (s + after)[1..] == s[1..] + after;
    }
  }

  /** Every character of `drop` removed. */
  function Without(s: string, drop: set<char>): string {
    if s == "" then ""
    else Without(s[..|s| - 1], drop) + if s[|s| - 1] in drop then "" else [s[|s| - 1]]
  }

  lemma WithoutOne(c: char, drop: set<char>)
    ensures Without([c], drop) == if c in drop then "" else [c]
  {
    assert [c][..0] == "";
  }

  lemma {:induction false} WithoutConcat(a: string, b: string, drop: set<char>)
    ensures Without(a + b, drop) == Without(a, drop) + Without(b, drop)
  {
    if b == "" {
      assert a + b == a;
    } else {
      WithoutConcat(a, b[..|b| - 1], drop);
      assert (a + b)[..|a + b| - 1] == a + b[..|b| - 1];
    }
  }

  lemma {:induction false} WithoutNothing(s: string, drop: set<char>)
    requires forall i | 0 <= i < |s| :: s[i] !in drop
    ensures Without(s, drop) == s
  {
    if s != "" {
      WithoutNothing(s[..|s| - 1], drop);
      assert s == s[..|s| - 1] + [s[|s| - 1]];
    }
  }

  /** `split(sep)`: one more piece than there are separators. */
  function SplitOn(s: string, sep: char): (pieces: seq<string>)
    ensures |pieces| >= 1
  {
    if s == "" then [""]
    else
      var pieces := SplitOn(s[1..], sep);
      if s[0] == sep then [""] + pieces
      else [[s[0]] + pieces[0]] + pieces[1..]
  }

  lemma {:induction false} SplitOnHead(a: string, rest: string, sep: char)
    requires sep !in a
    ensures SplitOn(a + [sep] + rest, sep) == [a] + SplitOn(rest, sep)
  {
    var s := a + [sep] + rest;
    if a == "" {
      assert s[1..] == rest;
    } else {
      SplitOnHead(a[1..], rest, sep);
      assert s[1..] == a[1..] + [sep] + rest;
      assert [a[0]] + a[1..] == a;
    }
  }

  lemma {:induction false} SplitOnNothing(a: string, sep: char)
    requires sep !in a
    ensures SplitOn(a, sep) == [a]
  {
    if a != "" {
      SplitOnNothing(a[1..], sep);
      assert [a[0]] + a[1..] == a;
    }
  }
}
