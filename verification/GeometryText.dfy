/**
 A serializer the saver's theorems apply to: geometries whose numbers are whole
 multiples of 1/1024, as text. It stands for the real one, which also writes
 countably many geometries and reads each of them back.
 */
module GeometryText {
  import opened Outcomes
  import opened Decimal
  import opened TextOps
  import opened WindowFrame
  import opened GeometrySaver

  const UNIT: real := 1024.0

  predicate IsStep(r: real) {
    (r * UNIT).Floor as real == r * UNIT
  }

  function Steps(r: real): int {
    (r * UNIT).Floor
  }

  function OfSteps(n: int): real {
    n as real / UNIT
  }

  lemma StepsRoundTrip(r: real)
    requires IsStep(r)
    ensures OfSteps(Steps(r)) == r
  {
  }

  lemma OfStepsIsStep(n: int)
    ensures IsStep(OfSteps(n)) && Steps(OfSteps(n)) == n
  {
    assert OfSteps(n) * UNIT == n as real;
  }

  function NumberCell(r: real): string {
    if Steps(r) < 0 then "-" + Text(-Steps(r)) else Text(Steps(r))
  }

  function ReadNumber(s: string): Option<real> {
    var digits := if s != "" && s[0] == '-' then s[1..] else s;
    if digits == "" || !AllDigits(digits) then None
    else
      var v: int := Value(digits);
      Some(OfSteps(if s[0] == '-' then -v else v))
  }

  lemma NumberReads(r: real)
    requires IsStep(r)
    ensures ReadNumber(NumberCell(r)) == Some(r)
    ensures ',' !in NumberCell(r) && '}' !in NumberCell(r)
  {
    StepsRoundTrip(r);
    var s := NumberCell(r);
    if Steps(r) < 0 {
      assert s[1..] == Text(-Steps(r));
    }
  }

  lemma ReadIsStep(s: string)
    requires ReadNumber(s).Some?
    ensures IsStep(ReadNumber(s).value)
  {
    var digits := if s[0] == '-' then s[1..] else s;
    var v: int := Value(digits);
    OfStepsIsStep(if s[0] == '-' then -v else v);
  }

  function FlagCell(flag: bool): string {
    if flag then "t" else "f"
  }

  function ReadFlag(s: string): Option<bool> {
    if s == "t" then Some(true) else if s == "f" then Some(false) else None
  }

  // ----- cells between commas, closed by a brace -----

  function Commas(cells: seq<string>): string
    requires cells != []
  {
    if |cells| == 1 then cells[0] else cells[0] + [','] + Commas(cells[1..])
  }

  lemma {:induction false} SplitUndoesCommas(cells: seq<string>)
    requires cells != [] && forall i | 0 <= i < |cells| :: ',' !in cells[i] && '}' !in cells[i]
    ensures SplitOn(Commas(cells), ',') == cells && '}' !in Commas(cells)
  {
    if |cells| == 1 {
      SplitOnNothing(cells[0], ',');
    } else {
      SplitUndoesCommas(cells[1..]);
      SplitOnHead(cells[0], Commas(cells[1..]), ',');
    }
  }

  function Closed(cells: seq<string>): string
    requires cells != []
  {
    Commas(cells) + ['}']
  }

  /** The cells of a text that ends at its first brace. */
  function Opened(text: string): Option<seq<string>> {
    var pieces := SplitOn(text, '}');
    if |pieces| == 2 && pieces[1] == "" then Some(SplitOn(pieces[0], ',')) else None
  }

  lemma SplitOfSomething(text: string)
    requires text != ""
    ensures SplitOn(text, '}') != [""]
  {
    var pieces := SplitOn(text[1..], '}');
    assert |[""] + pieces| >= 2;
    assert ([[text[0]] + pieces[0]] + pieces[1..])[0] != "";
  }

  lemma OpenedUndoesClosed(cells: seq<string>, tail: string)
    requires cells != [] && forall i | 0 <= i < |cells| :: ',' !in cells[i] && '}' !in cells[i]
    ensures Opened(Closed(cells) + tail) == if tail == "" then Some(cells) else None
  {
    SplitUndoesCommas(cells);
    assert Closed(cells) + tail == Commas(cells) + ['}'] + tail;
    SplitOnHead(Commas(cells), tail, '}');
    if tail != "" {
      SplitOfSomething(tail);
    }
  }

  // ----- geometries -----

  predicate Writable(g: WindowGeometry) {
    && IsStep(g.width) && IsStep(g.height) && IsStep(g.x) && IsStep(g.y)
    && IsStep(g.extraWidth) && IsStep(g.extraHeight) && IsStep(g.scale)
  }

  function Cells(g: WindowGeometry): (cells: seq<string>)
    ensures |cells| == 8
  {
    [NumberCell(g.width), NumberCell(g.height), NumberCell(g.x), NumberCell(g.y), NumberCell(g.extraWidth),
     NumberCell(g.extraHeight), NumberCell(g.scale), FlagCell(g.maximized)]
  }

  function GeometryOf(cells: seq<string>): Option<WindowGeometry> {
    if |cells| != 8 || exists i :: 0 <= i < 7 && ReadNumber(cells[i]).None? then None
    else
      match ReadFlag(cells[7])
      case None => None
      case Some(flag) =>
        Some(WindowGeometry(ReadNumber(cells[0]).value, ReadNumber(cells[1]).value, ReadNumber(cells[2]).value,
                            ReadNumber(cells[3]).value, ReadNumber(cells[4]).value, ReadNumber(cells[5]).value,
                            ReadNumber(cells[6]).value, flag))
  }

  lemma CellsRead(g: WindowGeometry)
    requires Writable(g)
    ensures GeometryOf(Cells(g)) == Some(g)
    ensures forall i | 0 <= i < 8 :: ',' !in Cells(g)[i] && '}' !in Cells(g)[i]
  {
    hide IsStep, NumberCell, ReadNumber;
    NumberReads(g.width);
    NumberReads(g.height);
    NumberReads(g.x);
    NumberReads(g.y);
    NumberReads(g.extraWidth);
    NumberReads(g.extraHeight);
    NumberReads(g.scale);
  }

  lemma ReadIsWritable(cells: seq<string>)
    requires GeometryOf(cells).Some?
    ensures Writable(GeometryOf(cells).value)
  {
    hide IsStep, ReadNumber;
    forall i | 0 <= i < 7
      ensures IsStep(ReadNumber(cells[i]).value)
    {
      ReadIsStep(cells[i]);
    }
  }

  function TextOf(g: WindowGeometry): string {
    Closed(Cells(g))
  }

  function Parsed(text: string): Option<WindowGeometry> {
    match Opened(text)
    case None => None
    case Some(cells) => GeometryOf(cells)
  }

  const PLAIN := Json(TextOf, Parsed, Writable)

  lemma TextReads(g: WindowGeometry, tail: string)
    requires Writable(g)
    ensures Parsed(TextOf(g) + tail) == if tail == "" then Some(g) else None
  {
    hide Cells, GeometryOf, Writable, Opened, Closed;
    CellsRead(g);
    OpenedUndoesClosed(Cells(g), tail);
  }

  lemma OneIsStep()
    ensures IsStep(1.0)
  {
  }

  lemma UsableIsWritable(g: WindowGeometry)
    requires Writable(g)
    ensures Writable(Usable(g)) && Writable(g.(maximized := true))
  {
    hide IsStep;
    OneIsStep();
  }

  /** Everything asked of a serializer, of this one. */
  lemma PlainIsLikeJson()
    ensures RoundTrips(PLAIN) && LikeJson(PLAIN)
  {
    hide TextOf, Parsed, Writable, Usable;
    forall g, tail | PLAIN.writable(g)
      ensures PLAIN.parse(PLAIN.text(g) + tail) in {None, Some(g)}
    {
      TextReads(g, tail);
    }
    forall g | PLAIN.writable(g)
      ensures PLAIN.parse(PLAIN.text(g)) == Some(g) && PLAIN.writable(g.(maximized := true))
    {
      TextReads(g, "");
      assert TextOf(g) + "" == TextOf(g);
      UsableIsWritable(g);
    }
    forall t | PLAIN.parse(t).Some?
      ensures PLAIN.writable(Usable(PLAIN.parse(t).value))
    {
      ParsedIsWritable(t);
      UsableIsWritable(PLAIN.parse(t).value);
    }
    NothingParses();
  }

  lemma ParsedIsWritable(t: string)
    requires Parsed(t).Some?
    ensures Writable(Parsed(t).value)
  {
    hide Writable, GeometryOf;
    ReadIsWritable(Opened(t).value);
  }

  lemma NothingParses()
    ensures Parsed("").None?
  {
    assert SplitOn("", '}') == [""];
  }

  /** A window of 1200 by 820 on a screen at one and a quarter is one of them. */
  lemma OrdinaryWindowIsWritable()
    ensures Writable(WindowGeometry(1200.0, 820.0, 100.0, 80.0, 0.0, 28.0, 1.25, false))
  {
  }
}
