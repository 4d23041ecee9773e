/**
 The Bank of America credit-card and line-of-credit parser. Its input is what
 the CSV reader yields: records of fields, or lines it could not read.
 */
module CardParser {
  import opened Outcomes
  import opened Decimal
  import opened TextOps
  import opened Dates
  import opened Money

  /** How a date cell and an amount cell are read. */
  datatype Readers = Readers(date: string -> Option<string>, amount: string -> Option<real>)

  const BANK_READERS := Readers(ParseDateMdy, ParseAmount)

  datatype Record = Unreadable(line: nat) | Fields(line: nat, fields: seq<string>)

  datatype Row = Row(date: string, description: string, amount: real)

  datatype Reason =
    | NotCsv
    | TooFewColumns(expected: nat, found: nat)
    | BadDate(text: string)
    | NoDescription
    | BadAmount(text: string)

  datatype Reject = Reject(line: nat, content: string, reason: Reason)

  /** Where the header put its columns, and how many it had. */
  datatype Layout = Layout(count: nat, date: nat, description: nat, amount: nat, kind: nat)

  const DEFAULT_LAYOUT := Layout(0, 3, 5, 6, 9)

  function Join(fields: seq<string>): string {
    if fields == [] then ""
    else if |fields| == 1 then fields[0]
    else fields[0] + "," + Join(fields[1..])
  }

  predicate Contains(text: string, word: string) {
    exists i :: 0 <= i <= |text| && word <= text[i..]
  }

  predicate IsHeader(r: Record) {
    r.Fields? && exists i :: 0 <= i < |r.fields| && Contains(r.fields[i], "Posting Date")
  }

  // ----- the header -----

  /** The last column of that name; the default when the header has none. */
  function ColumnNamed(fields: seq<string>, name: string, default: nat): nat {
    if fields == [] then default
    else if Trim(fields[|fields| - 1]) == name then |fields| - 1
    else ColumnNamed(fields[..|fields| - 1], name, default)
  }

  function LayoutOf(fields: seq<string>, hasType: bool): Layout {
    Layout(|fields|,
           ColumnNamed(fields, "Posting Date", DEFAULT_LAYOUT.date),
           ColumnNamed(fields, "Payee", DEFAULT_LAYOUT.description),
           ColumnNamed(fields, "Amount", DEFAULT_LAYOUT.amount),
           if hasType then ColumnNamed(fields, "Type", DEFAULT_LAYOUT.kind) else DEFAULT_LAYOUT.kind)
  }

  method ReadHeader(fields: seq<string>, hasType: bool) returns (layout: Layout)
    ensures layout == LayoutOf(fields, hasType)
  {
    layout := DEFAULT_LAYOUT.(count := |fields|);
    for i := 0 to |fields|
      invariant layout == LayoutOf(fields[..i], hasType).(count := |fields|)
    {
      assert fields[..i + 1][..i] == fields[..i];
      var f := Trim(fields[i]);
      if f == "Posting Date" { layout := layout.(date := i); }
      if f == "Payee" { layout := layout.(description := i); }
      if f == "Amount" { layout := layout.(amount := i); }
      if hasType && f == "Type" { layout := layout.(kind := i); }
    }
    assert fields[..|fields|] == fields;
  }

  /** The last cell of that name, trimmed; the default only if there is none. */
  lemma {:induction false} ColumnIsLast(fields: seq<string>, name: string, default: nat)
    ensures var c := ColumnNamed(fields, name, default);
            if exists i :: 0 <= i < |fields| && Trim(fields[i]) == name
            then c < |fields| && Trim(fields[c]) == name && forall i | c < i < |fields| :: Trim(fields[i]) != name
            else c == default
  {
    hide Trim;
    if fields != [] && Trim(fields[|fields| - 1]) != name {
      var front := fields[..|fields| - 1];
      ColumnIsLast(front, name, default);
      if i :| 0 <= i < |fields| && Trim(fields[i]) == name {
        assert front[i] == fields[i];
      }
    }
  }

  lemma LayoutColumns(fields: seq<string>, hasType: bool)
    ensures var layout := LayoutOf(fields, hasType);
            && layout.count == |fields|
            && layout.date == ColumnNamed(fields, "Posting Date", 3)
            && layout.description == ColumnNamed(fields, "Payee", 5)
            && layout.amount == ColumnNamed(fields, "Amount", 6)
            && layout.kind == if hasType then ColumnNamed(fields, "Type", 9) else 9
  {
  }

  /** A cell contains a word exactly when it is that word with something, or nothing, around it. */
  lemma ContainsMeans(text: string, word: string, before: string, after: string)
    ensures text == before + word + after ==> Contains(text, word)
    ensures Contains(text, word) ==>
              exists i :: 0 <= i <= |text| - |word| && text == text[..i] + word + text[i + |word|..]
  {
    if text == before + word + after {
      assert word <= text[|before|..];
    }
    if Contains(text, word) {
      var i :| 0 <= i <= |text| && word <= text[i..];
      assert text == text[..i] + word + text[i + |word|..];
    }
  }

  lemma HeaderMeans(line: nat, fields: seq<string>)
    ensures !IsHeader(Unreadable(line))
    ensures IsHeader(Fields(line, fields)) <==> exists i :: 0 <= i < |fields| && Contains(fields[i], "Posting Date")
  {
  }

  /** Joined by commas: splitting at commas gives the cells back, if none holds one. */
  lemma {:induction false} JoinSplits(fields: seq<string>)
    requires fields != [] && forall i | 0 <= i < |fields| :: ',' !in fields[i]
    ensures SplitOn(Join(fields), ',') == fields
  {
    hide SplitOn;
    var first, rest := fields[0], fields[1..];
    assert fields == [first] + rest;
    if rest == [] {
      SplitOnNothing(first, ',');
    } else {
      assert forall i | 0 <= i < |rest| :: rest[i] == fields[i + 1];
      JoinSplits(rest);
      SplitOnHead(first, Join(rest), ',');
      assert Join(fields) == first + [','] + Join(rest);
    }
  }

  // ----- one data row -----

  function Max(a: nat, b: nat): nat {
    if a < b then b else a
  }

  function LastColumn(layout: Layout, hasType: bool): nat {
    var three := Max(layout.date, Max(layout.description, layout.amount));
    if hasType then Max(three, layout.kind) else three
  }

  /** Extra fields are taken to come from commas in the first column. */
  function Offset(layout: Layout, n: nat): nat {
    if layout.count > 0 && n > layout.count then n - layout.count else 0
  }

  predicate LooksNumeric(s: string) {
    s != "" && AllDigits(Without(s, {'-', '.', ',', '$', ' '}))
  }

  /** A digit, or one of the five characters that may stand among digits. */
  predicate IsNumeric(c: char) {
    IsDigit(c) || c in ['-', '.', ',', '$', ' ']
  }

  lemma AllDigitsConcat(a: string, b: string)
    ensures AllDigits(a + b) <==> AllDigits(a) && AllDigits(b)
  {
    if AllDigits(a + b) {
      assert forall i | 0 <= i < |a| :: (a + b)[i] == a[i];
      assert forall i | 0 <= i < |b| :: (a + b)[|a| + i] == b[i];
    }
  }

  lemma {:induction false} NumericCharacters(s: string)
    ensures AllDigits(Without(s, {'-', '.', ',', '$', ' '})) <==> forall i | 0 <= i < |s| :: IsNumeric(s[i])
  {
    hide Without;
    var drop := {'-', '.', ',', '$', ' '};
    if s == "" {
      WithoutNothing(s, drop);
    } else {
      var front, c := s[..|s| - 1], s[|s| - 1];
      NumericCharacters(front);
      assert s == front + [c];
      WithoutConcat(front, [c], drop);
      WithoutOne(c, drop);
      AllDigitsConcat(Without(front, drop), Without([c], drop));
      assert IsNumeric(c) <==> AllDigits(Without([c], drop)) by {
        assert !(c in drop) ==> [c][0] == c;
      }
    }
  }

  lemma LooksNumericMeans(s: string)
    ensures LooksNumeric(s) <==> s != "" && forall i | 0 <= i < |s| :: IsNumeric(s[i])
  {
    NumericCharacters(s);
  }

  function AbsReal(v: real): real {
    if v < 0.0 then -v else v
  }

  /** Debits are negative and everything else positive; without a type column the
      statement's sign is simply flipped. */
  function SignedAmount(parsed: real, hasType: bool, kind: string): real {
    if !hasType then -parsed
    else if kind == "D" then -AbsReal(parsed)
    else AbsReal(parsed)
  }

  function ParseRow(readers: Readers, layout: Layout, hasType: bool, fields: seq<string>): Result<Row, Reason> {
    var offset := Offset(layout, |fields|);
    var expected := LastColumn(layout, hasType) + offset + 1;
    if |fields| < expected then Err(TooFewColumns(expected, |fields|))
    else
      ParseCells(readers, hasType, fields[layout.date + offset], fields[layout.description + offset],
                 fields[layout.amount + offset], if hasType then fields[layout.kind + offset] else "")
  }

  function ParseCells(readers: Readers, hasType: bool, date: string, description: string, amount: string,
                      kind: string): Result<Row, Reason>
  {
    var day := readers.date(date);
    if day.None? then Err(BadDate(Trim(date)))
    else if Trim(description) == "" then Err(NoDescription)
    else if !LooksNumeric(Trim(amount)) then Err(BadAmount(Trim(amount)))
    else
      var parsed := readers.amount(Trim(amount));
      if parsed.None? then Err(BadAmount(Trim(amount)))
      else Ok(Row(day.value, Trim(description), SignedAmount(parsed.value, hasType, Trim(kind))))
  }

  // ----- the file -----

  /** The first header, or the number of records when there is none. */
  function HeaderIndex(records: seq<Record>): (h: nat)
    ensures h <= |records|
    ensures forall i | 0 <= i < h :: !IsHeader(records[i])
    ensures h < |records| ==> IsHeader(records[h])
  {
    if records == [] || IsHeader(records[0]) then 0 else 1 + HeaderIndex(records[1..])
  }

  /** What one record contributes: nothing, a row, or a reject. */
  datatype Verdict = Ignored | Accepted(row: Row) | Refused(reject: Reject)

  function VerdictOn(readers: Readers, r: Record, layout: Option<Layout>, hasType: bool): Verdict {
    match r
    case Unreadable(line) => Refused(Reject(line, "", NotCsv))
    case Fields(line, fields) =>
      if layout.None? then Ignored
      else
        match ParseRow(readers, layout.value, hasType, fields)
        case Ok(row) => Accepted(row)
        case Err(reason) => Refused(Reject(line, Join(fields), reason))
  }

  /** The header's own layout governs every record after it. */
  function LayoutAt(records: seq<Record>, i: nat, hasType: bool): Option<Layout> {
    var h := HeaderIndex(records);
    if h < i && h < |records| then Some(LayoutOf(records[h].fields, hasType)) else None
  }

  function Verdicts(readers: Readers, records: seq<Record>, hasType: bool): (vs: seq<Verdict>)
    ensures |vs| == |records|
  {
    seq(|records|, i requires 0 <= i < |records| =>
      VerdictOn(readers, records[i], LayoutAt(records, i, hasType), hasType))
  }

  function RowsIn(vs: seq<Verdict>): seq<Row> {
    if vs == [] then []
    else RowsIn(vs[..|vs| - 1]) + if vs[|vs| - 1].Accepted? then [vs[|vs| - 1].row] else []
  }

  function RejectsIn(vs: seq<Verdict>): seq<Reject> {
    if vs == [] then []
    else RejectsIn(vs[..|vs| - 1]) + if vs[|vs| - 1].Refused? then [vs[|vs| - 1].reject] else []
  }

  /** The parser's loop: it looks for a header until it has one, and from then on
      turns every record into a row or a reject. */
  method ParseCardFormat(readers: Readers, records: seq<Record>, hasType: bool)
      returns (rows: seq<Row>, rejects: seq<Reject>)
    ensures rows == RowsIn(Verdicts(readers, records, hasType))
    ensures rejects == RejectsIn(Verdicts(readers, records, hasType))
  {
    hide ParseRow, Contains, ColumnNamed;
    ghost var verdicts := Verdicts(readers, records, hasType);
    ghost var h := HeaderIndex(records);
    rows, rejects := [], [];
    var foundHeader := false;
    var layout := DEFAULT_LAYOUT;
    for i := 0 to |records|
      invariant foundHeader <==> h < i
      invariant foundHeader ==> layout == LayoutOf(records[h].fields, hasType)
      invariant rows == RowsIn(verdicts[..i]) && rejects == RejectsIn(verdicts[..i])
    {
      assert verdicts[..i + 1][..i] == verdicts[..i];
      match records[i]
      case Unreadable(line) =>
        rejects := rejects + [Reject(line, "", NotCsv)];
      case Fields(line, fields) =>
        if !foundHeader {
          if IsHeader(records[i]) {
            layout := ReadHeader(fields, hasType);
            foundHeader := true;
          }
        } else {
          var parsed := ParseRow(readers, layout, hasType, fields);
          match parsed
          case Ok(row) => rows := rows + [row];
          case Err(reason) => rejects := rejects + [Reject(line, Join(fields), reason)];
        }
    }
    assert verdicts[..|records|] == verdicts;
  }

  // ----- every record once -----

  function CountDecided(vs: seq<Verdict>): nat {
    if vs == [] then 0 else CountDecided(vs[..|vs| - 1]) + if vs[|vs| - 1].Ignored? then 0 else 1
  }

  lemma {:induction false} RowsAndRejectsPartition(vs: seq<Verdict>)
    ensures |RowsIn(vs)| + |RejectsIn(vs)| == CountDecided(vs)
  {
    if vs != [] {
      RowsAndRejectsPartition(vs[..|vs| - 1]);
    }
  }

  lemma {:induction false} VerdictsInOrder(vs: seq<Verdict>, i: nat)
    requires i < |vs|
    ensures vs[i].Accepted? ==> |RowsIn(vs[..i])| < |RowsIn(vs)| && RowsIn(vs)[|RowsIn(vs[..i])|] == vs[i].row
    ensures vs[i].Refused? ==>
              |RejectsIn(vs[..i])| < |RejectsIn(vs)| && RejectsIn(vs)[|RejectsIn(vs[..i])|] == vs[i].reject
  {
    var n := |vs| - 1;
    if i < n {
      VerdictsInOrder(vs[..n], i);
      assert vs[..n][..i] == vs[..i];
    }
  }

  /** A record becomes a row or a reject exactly when it is unreadable or a
      readable one past the header; it lands at its place in file order; and
      nothing else is produced. */
  lemma EveryRecordOnce(readers: Readers, records: seq<Record>, hasType: bool, vs: seq<Verdict>, i: nat)
    requires vs == Verdicts(readers, records, hasType) && i < |records|
    ensures !vs[i].Ignored? <==> records[i].Unreadable? || HeaderIndex(records) < i
    ensures vs[i].Accepted? ==> |RowsIn(vs[..i])| < |RowsIn(vs)| && RowsIn(vs)[|RowsIn(vs[..i])|] == vs[i].row
    ensures vs[i].Refused? ==>
              |RejectsIn(vs[..i])| < |RejectsIn(vs)| && RejectsIn(vs)[|RejectsIn(vs[..i])|] == vs[i].reject
    ensures |RowsIn(vs)| + |RejectsIn(vs)| == CountDecided(vs)
    ensures vs[i].Refused? ==>
              && vs[i].reject.line == records[i].line
              && vs[i].reject.content == (if records[i].Fields? then Join(records[i].fields) else "")
              && (records[i].Unreadable? ==> vs[i].reject.reason == NotCsv)
  {
    hide ParseRow, Join;
    RowsAndRejectsPartition(vs);
    VerdictsInOrder(vs, i);
  }

  // ----- what a row says -----

  /** A row is accepted exactly when it reaches its last column, its date can be read, it
      has a description, and its amount looks like a number and is one. */
  lemma AcceptedExactly(readers: Readers, layout: Layout, hasType: bool, fields: seq<string>)
    ensures var o := Offset(layout, |fields|);
            var reaches := && layout.date + o < |fields| && layout.description + o < |fields|
                           && layout.amount + o < |fields| && (hasType ==> layout.kind + o < |fields|);
            var read := && reaches
                        && readers.date(fields[layout.date + o]).Some?
                        && Trim(fields[layout.description + o]) != ""
                        && LooksNumeric(Trim(fields[layout.amount + o]))
                        && readers.amount(Trim(fields[layout.amount + o])).Some?;
            ParseRow(readers, layout, hasType, fields).Ok? <==> read
  {
    hide Trim, LooksNumeric;
  }

  /** An accepted row has the date its cell is read as, its trimmed description, and the
      amount its cell is read as, with the sign its type gives it. */
  lemma AcceptedRowReads(readers: Readers, layout: Layout, hasType: bool, fields: seq<string>)
    requires ParseRow(readers, layout, hasType, fields).Ok?
    ensures var (o, row) := (Offset(layout, |fields|), ParseRow(readers, layout, hasType, fields).value);
            && layout.date + o < |fields| && layout.description + o < |fields| && layout.amount + o < |fields|
            && readers.date(fields[layout.date + o]) == Some(row.date)
            && row.description == Trim(fields[layout.description + o]) && row.description != ""
            && var parsed := readers.amount(Trim(fields[layout.amount + o]));
               && parsed.Some?
               && (!hasType ==> row.amount == 0.0 - parsed.value)
               && (hasType ==>
                     && layout.kind + o < |fields|
                     && var magnitude := if parsed.value < 0.0 then 0.0 - parsed.value else parsed.value;
                        row.amount == if Trim(fields[layout.kind + o]) == "D" then 0.0 - magnitude else magnitude)
  {
    hide Trim, LooksNumeric;
  }

  /** What a refused row is refused for: the first of these that it fails. */
  lemma RefusedFor(readers: Readers, layout: Layout, hasType: bool, fields: seq<string>)
    requires ParseRow(readers, layout, hasType, fields).Err?
    ensures var (o, reason) := (Offset(layout, |fields|), ParseRow(readers, layout, hasType, fields).error);
            if reason.TooFewColumns?
            then && reason.found == |fields| < reason.expected
                 && (forall c | c in [layout.date, layout.description, layout.amount] :: c + o < reason.expected)
                 && (hasType ==> layout.kind + o < reason.expected)
                 && (reason.expected - o - 1 in [layout.date, layout.description, layout.amount]
                     || (hasType && reason.expected - o - 1 == layout.kind))
            else && layout.date + o < |fields| && layout.description + o < |fields| && layout.amount + o < |fields|
                 && (reason.BadDate? ==>
                       && reason.text == Trim(fields[layout.date + o])
                       && readers.date(fields[layout.date + o]).None?)
                 && (reason.NoDescription? ==> Trim(fields[layout.description + o]) == "")
                 && (reason.BadAmount? ==>
                       && reason.text == Trim(fields[layout.amount + o])
                       && (LooksNumeric(reason.text) ==> readers.amount(reason.text).None?))
                 && reason != NotCsv
  {
    hide Trim, LooksNumeric;
  }

  /** What the bank writes as a four-digit year is stored sortable, and is that day. */
  lemma BankRowsAreIso(layout: Layout, hasType: bool, fields: seq<string>, m: string, d: string, y: string)
    requires m != "" && AllDigits(m) && d != "" && AllDigits(d) && |y| == 4 && AllDigits(y)
    requires layout.date + Offset(layout, |fields|) < |fields|
    requires fields[layout.date + Offset(layout, |fields|)] == m + "/" + (d + "/" + y)
    ensures var parsed := ParseRow(BANK_READERS, layout, hasType, fields);
            parsed.Ok? ==>
              var date := parsed.value.date;
              && IsIso(date) && Value(date[..4]) == Value(y) && Value(date[5..7]) == Value(m)
              && Value(date[8..]) == Value(d)
  {
    hide ParseRow, ParseDateMdy, IsoDate, Value, IsIso;
    if ParseRow(BANK_READERS, layout, hasType, fields).Ok? {
      AcceptedRowReads(BANK_READERS, layout, hasType, fields);
      ParseDateMdyReads(m, d, y);
      FourDigitYear(y);
      IsoDateParts(Value(y), Value(m), Value(d));
    }
  }

  // ----- signs -----

  /** An accepted row keeps the magnitude its amount cell reads as. With a type
      column `D` makes it negative and anything else positive, whatever the cell
      says; without one the cell's sign is flipped. */
  lemma SignLaws(readers: Readers, hasType: bool, date: string, description: string, amount: string, kind: string)
    requires ParseCells(readers, hasType, date, description, amount, kind).Ok?
    ensures readers.amount(Trim(amount)).Some?
    ensures var parsed := readers.amount(Trim(amount)).value;
            var signed := ParseCells(readers, hasType, date, description, amount, kind).value.amount;
            && AbsReal(signed) == AbsReal(parsed)
            && (hasType ==> if Trim(kind) == "D" then signed <= 0.0 else signed >= 0.0)
            && (!hasType ==> signed + parsed == 0.0)
  {
    hide Trim, LooksNumeric;
  }

  // ----- realignment -----

  /** The same row with its first field broken at commas. */
  predicate IsSplitOf(broken: seq<string>, fields: seq<string>) {
    && fields != [] && |broken| >= |fields|
    && broken[|broken| - |fields| + 1..] == fields[1..]
    && Join(broken[..|broken| - |fields| + 1]) == fields[0]
  }

  lemma {:induction false} JoinConcat(a: seq<string>, b: seq<string>)
    requires a != []
    ensures Join(a + b) == if b == [] then Join(a) else Join(a) + "," + Join(b)
  {
    if b == [] {
      assert a + b == a;
    } else if |a| == 1 {
      assert a + b == [a[0]] + b && (a + b)[1..] == b;
    } else {
      JoinConcat(a[1..], b);
      assert (a + b)[1..] == a[1..] + b;
      assert a[0] + "," + (Join(a[1..]) + "," + Join(b)) == (a[0] + "," + Join(a[1..])) + "," + Join(b);
    }
  }

  lemma SplitKeepsContent(broken: seq<string>, fields: seq<string>)
    requires IsSplitOf(broken, fields)
    ensures Join(broken) == Join(fields)
  {
    var k := |broken| - |fields| + 1;
    assert broken == broken[..k] + broken[k..];
    JoinConcat(broken[..k], broken[k..]);
    assert fields == [fields[0]] + fields[1..];
    JoinConcat([fields[0]], fields[1..]);
  }

  /** Columns all inside the header and none of them the first. */
  predicate Realignable(layout: Layout, hasType: bool) {
    && 1 <= layout.date < layout.count && 1 <= layout.description < layout.count
    && 1 <= layout.amount < layout.count && (hasType ==> 1 <= layout.kind < layout.count)
  }

  /** However many pieces the commas break the first field into, the row parses
      to the same transaction or the same rejection as the row unbroken. */
  lemma RealignmentUndoesSplit(readers: Readers, layout: Layout, hasType: bool, fields: seq<string>,
                               broken: seq<string>)
    requires Realignable(layout, hasType) && |fields| >= layout.count && IsSplitOf(broken, fields)
    ensures ParseRow(readers, layout, hasType, broken) == ParseRow(readers, layout, hasType, fields)
  {
    hide ParseCells, Join;
    var k := |broken| - |fields|;
    assert Offset(layout, |broken|) == Offset(layout, |fields|) + k;
    forall c | 1 <= c < |fields| ensures broken[c + k] == fields[c] {
      assert broken[k + 1..][c - 1] == fields[1..][c - 1];
    }
  }

  /** Rows of `n` fields keep their meaning when the first breaks into `k` more. */
  ghost predicate AlwaysRealigned(readers: Readers, layout: Layout, hasType: bool, n: nat, k: nat) {
    forall fields, broken | |fields| == n && |broken| == n + k && IsSplitOf(broken, fields) ::
      ParseRow(readers, layout, hasType, broken) == ParseRow(readers, layout, hasType, fields)
  }

  /** `b` in every cell but one. */
  function Marked(size: nat, at: nat): (cells: seq<string>)
    ensures |cells| == size
    ensures forall i | 0 <= i < size :: cells[i] == if i == at then "a" else "b"
  {
    seq(size, i => if i == at then "a" else "b")
  }

  function Rejoined(broken: seq<string>, k: nat): (fields: seq<string>)
    requires k < |broken|
    ensures IsSplitOf(broken, fields) && |fields| == |broken| - k
    ensures forall c | 1 <= c < |fields| :: fields[c] == broken[c + k]
  {
    var fields := [Join(broken[..k + 1])] + broken[k + 1..];
    assert fields[1..] == broken[k + 1..];
    fields
  }

  lemma ShortRowDiffers(readers: Readers, layout: Layout, hasType: bool, n: nat, k: nat)
    requires Realignable(layout, hasType) && 1 <= n < layout.count && k >= 1
    requires readers.date("a").None? && readers.date("b").None?
    ensures var broken := Marked(n + k, layout.date + k);
            ParseRow(readers, layout, hasType, broken) != ParseRow(readers, layout, hasType, Rejoined(broken, k))
  {
    hide Join, IsSplitOf, LooksNumeric;
    assert Trim("a") == "a" && Trim("b") == "b" by {
      TrimKeeps("a");
      TrimKeeps("b");
    }
  }

  /** Commas in the first field leave every row of a given width alone exactly
      when that width is at least the header's. */
  lemma RealignmentExactly(readers: Readers, layout: Layout, hasType: bool, n: nat, k: nat)
    requires Realignable(layout, hasType) && n >= 1 && k >= 1
    requires readers.date("a").None? && readers.date("b").None?
    ensures AlwaysRealigned(readers, layout, hasType, n, k) <==> n >= layout.count
  {
    hide ParseRow, Realignable;
    if n >= layout.count {
      forall fields, broken | |fields| == n && |broken| == n + k && IsSplitOf(broken, fields)
        ensures ParseRow(readers, layout, hasType, broken) == ParseRow(readers, layout, hasType, fields)
      {
        RealignmentUndoesSplit(readers, layout, hasType, fields, broken);
      }
    } else {
      ShortRowDiffers(readers, layout, hasType, n, k);
    }
  }

  // ----- what becomes of accepted rows -----

  /** Accepted rows of `n` fields stay the same transactions when the first field
      breaks into `k` more. */
  ghost predicate AcceptedRealigned(readers: Readers, layout: Layout, hasType: bool, n: nat, k: nat) {
    forall fields, broken | |fields| == n && |broken| == n + k && IsSplitOf(broken, fields)
                            && ParseRow(readers, layout, hasType, fields).Ok? ::
      ParseRow(readers, layout, hasType, broken) == ParseRow(readers, layout, hasType, fields)
  }

  /** A date and an amount in their columns and `b` everywhere else, shifted by `k`. */
  function Filled(layout: Layout, size: nat, k: nat, date: string, amount: string): (cells: seq<string>)
    ensures |cells| == size
  {
    seq(size, i => if i == layout.date + k then date else if i == layout.amount + k then amount else "b")
  }

  predicate ReadsDatesAndAmounts(readers: Readers, date: string, amount: string) {
    && readers.date(date).Some? && readers.date(amount).None? && readers.date("b").None?
    && LooksNumeric(Trim(amount)) && readers.amount(Trim(amount)).Some? && Trim(date) != ""
  }

  lemma CellsAccepted(readers: Readers, hasType: bool, date: string, description: string, amount: string, kind: string)
    requires readers.date(date).Some? && Trim(description) != ""
    requires LooksNumeric(Trim(amount)) && readers.amount(Trim(amount)).Some?
    ensures ParseCells(readers, hasType, date, description, amount, kind).Ok?
  {
  }

  lemma CellsUndated(readers: Readers, hasType: bool, date: string, description: string, amount: string, kind: string)
    requires readers.date(date).None?
    ensures ParseCells(readers, hasType, date, description, amount, kind) == Err(BadDate(Trim(date)))
  {
  }

  lemma IntactAccepted(readers: Readers, layout: Layout, hasType: bool, fields: seq<string>, date: string,
                       amount: string)
    requires LastColumn(layout, hasType) < |fields| < layout.count
    requires ReadsDatesAndAmounts(readers, date, amount)
    requires fields[layout.date] == date && fields[layout.amount] == amount
    requires fields[layout.description] == date || fields[layout.description] == amount
          || fields[layout.description] == "b"
    ensures ParseRow(readers, layout, hasType, fields).Ok?
  {
    hide ParseCells, LooksNumeric, Trim;
    LetterIsTrim();
    AmountIsNotBlank(amount);
    CellsAccepted(readers, hasType, date, fields[layout.description], amount,
                  if hasType then fields[layout.kind] else "");
  }

  lemma BrokenRefused(readers: Readers, layout: Layout, hasType: bool, broken: seq<string>)
    requires layout.date + Offset(layout, |broken|) < |broken|
    requires readers.date(broken[layout.date + Offset(layout, |broken|)]).None?
    ensures ParseRow(readers, layout, hasType, broken).Err?
  {
    hide ParseCells;
    var offset := Offset(layout, |broken|);
    if |broken| >= LastColumn(layout, hasType) + offset + 1 {
      CellsUndated(readers, hasType, broken[layout.date + offset], broken[layout.description + offset],
                   broken[layout.amount + offset], if hasType then broken[layout.kind + offset] else "");
    }
  }

  /** An accepted row too short for the header loses its transaction to a comma. */
  lemma ShortRowLost(readers: Readers, layout: Layout, hasType: bool, n: nat, k: nat, date: string, amount: string)
    requires Realignable(layout, hasType) && layout.date != layout.amount
    requires LastColumn(layout, hasType) < n < layout.count && k >= 1
    requires ReadsDatesAndAmounts(readers, date, amount)
    ensures var broken := Filled(layout, n + k, k, date, amount);
            && ParseRow(readers, layout, hasType, Rejoined(broken, k)).Ok?
            && ParseRow(readers, layout, hasType, broken).Err?
  {
    hide Join, IsSplitOf, ParseRow, Filled, Rejoined;
    var broken := Filled(layout, n + k, k, date, amount);
    FilledCells(layout, hasType, n, k, date, amount);
    IntactAccepted(readers, layout, hasType, Rejoined(broken, k), date, amount);
    BrokenRefused(readers, layout, hasType, broken);
  }

  /** Whole, the row has date and amount in place; broken, no date where one is read. */
  lemma FilledCells(layout: Layout, hasType: bool, n: nat, k: nat, date: string, amount: string)
    requires Realignable(layout, hasType) && layout.date != layout.amount
    requires LastColumn(layout, hasType) < n < layout.count && k >= 1
    ensures var broken := Filled(layout, n + k, k, date, amount);
            var fields := Rejoined(broken, k);
            && fields[layout.date] == date && fields[layout.amount] == amount
            && (fields[layout.description] == date || fields[layout.description] == amount
                || fields[layout.description] == "b")
            && layout.date + Offset(layout, n + k) < n + k
            && (broken[layout.date + Offset(layout, n + k)] == amount
                || broken[layout.date + Offset(layout, n + k)] == "b")
  {
    hide Join, IsSplitOf;
  }

  lemma LetterIsTrim()
    ensures Trim("b") == "b"
  {
    TrimKeeps("b");
  }

  lemma AmountIsNotBlank(amount: string)
    requires LooksNumeric(Trim(amount))
    ensures Trim(amount) != ""
  {
  }

  /** Accepted rows keep their transaction whatever commas do to their first field
      exactly when they are as wide as the header, or of a width no row is accepted at. */
  lemma AcceptedRealignmentExactly(readers: Readers, layout: Layout, hasType: bool, n: nat, k: nat, date: string,
                                   amount: string)
    requires Realignable(layout, hasType) && layout.date != layout.amount && k >= 1
    requires ReadsDatesAndAmounts(readers, date, amount)
    ensures AcceptedRealigned(readers, layout, hasType, n, k)
       <==> n >= layout.count || n <= LastColumn(layout, hasType)
  {
    hide Realignable, ParseCells, ReadsDatesAndAmounts, Join;
    if LastColumn(layout, hasType) < n < layout.count {
      ShortRowLost(readers, layout, hasType, n, k, date, amount);
    } else {
      forall fields, broken | |fields| == n && |broken| == n + k && IsSplitOf(broken, fields)
                              && ParseRow(readers, layout, hasType, fields).Ok?
        ensures ParseRow(readers, layout, hasType, broken) == ParseRow(readers, layout, hasType, fields)
      {
        RealignmentUndoesSplit(readers, layout, hasType, fields, broken);
      }
    }
  }

  // ----- the same of the bank's own dates and amounts -----

  const SOME_DATE := "1/2/2025"
  const SOME_AMOUNT := "$4.50"

  lemma SomeDateDigits()
    ensures Value("1") == 1 && Value("2") == 2 && Value("2025") == 2025
  {
    assert "1"[..0] == "" && "2"[..0] == "";
    assert "2025"[..3] == "202" && "202"[..2] == "20" && "20"[..1] == "2";
    assert Value("20") == 20;
    assert Value("202") == 202;
  }

  lemma SomeDateReads()
    ensures BANK_READERS.date(SOME_DATE).Some?
  {
    hide ParseDateMdy, Value, IsoDate;
    SomeDateDigits();
    ParseDateMdyReads("1", "2", "2025");
    assert SOME_DATE == "1" + "/" + ("2" + "/" + "2025");
  }

  lemma SomeAmountReads()
    ensures Trim(SOME_AMOUNT) == SOME_AMOUNT && BANK_READERS.amount(SOME_AMOUNT) == Some(450 as real / 100.0)
  {
    hide ParseAmount;
    assert Text(4) == "4" && Padded(5, 1) == "5" by { assert Padded(0, 0) == ""; }
    assert Padded(50, 2) == "50";
    assert MoneyText(450) == SOME_AMOUNT;
    ParserUndoesPrinter(450);
    TrimKeeps(SOME_AMOUNT);
  }

  lemma SomeAmountLooksNumeric()
    ensures LooksNumeric(SOME_AMOUNT)
  {
    var drop := {'-', '.', ',', '$', ' '};
    assert "$4.50"[..4] == "$4.5" && "$4.5"[..3] == "$4." && "$4."[..2] == "$4" && "$4"[..1] == "$" && "$"[..0] == "";
    assert Without("$4", drop) == "4";
    assert Without("$4.5", drop) == "45";
    assert Without("$4.50", drop) == "450";
  }

  lemma NoSlashNoDate(s: string)
    requires '/' !in s && Tight(s)
    ensures ParseDateMdy(s).None?
  {
    TrimKeeps(s);
    SplitOnNothing(s, '/');
  }

  /** The bank's readers read a date and an amount, and take neither for the other. */
  lemma BankReads()
    ensures ReadsDatesAndAmounts(BANK_READERS, SOME_DATE, SOME_AMOUNT)
    ensures BANK_READERS.date("a").None? && BANK_READERS.date("b").None?
  {
    hide ParseDateMdy, ParseAmount, LooksNumeric, Trim;
    SomeDateReads();
    SomeAmountReads();
    SomeAmountLooksNumeric();
    TrimKeeps(SOME_DATE);
    NoSlashNoDate(SOME_AMOUNT);
    NoSlashNoDate("a");
    NoSlashNoDate("b");
  }

  /** Both theorems for statements as the bank writes them. */
  lemma BankRealignmentExactly(layout: Layout, hasType: bool, n: nat, k: nat)
    requires Realignable(layout, hasType) && n >= 1 && k >= 1
    ensures AlwaysRealigned(BANK_READERS, layout, hasType, n, k) <==> n >= layout.count
    ensures layout.date != layout.amount ==>
              var kept := n >= layout.count || n <= LastColumn(layout, hasType);
              AcceptedRealigned(BANK_READERS, layout, hasType, n, k) <==> kept
  {
    hide AlwaysRealigned, AcceptedRealigned, Realignable, ReadsDatesAndAmounts;
    BankReads();
    RealignmentExactly(BANK_READERS, layout, hasType, n, k);
    if layout.date != layout.amount {
      AcceptedRealignmentExactly(BANK_READERS, layout, hasType, n, k, SOME_DATE, SOME_AMOUNT);
    }
  }

  /** Records alike, or alike but for commas in the first field of a full row. */
  predicate SameRow(broken: Record, r: Record, count: nat) {
    || broken == r
    || (broken.Fields? && r.Fields? && broken.line == r.line && |r.fields| >= count
        && IsSplitOf(broken.fields, r.fields))
  }

  /** Two files alike up to the header at `h`, and alike but for commas after it. */
  predicate SameButForCommas(broken: seq<Record>, records: seq<Record>, h: nat, count: nat) {
    && |broken| == |records|
    && (forall i | 0 <= i <= h && i < |records| :: broken[i] == records[i])
    && (forall i | h < i < |records| :: SameRow(broken[i], records[i], count))
  }

  lemma {:induction false} HeaderUnmoved(broken: seq<Record>, records: seq<Record>)
    requires |broken| == |records|
    requires forall i | 0 <= i <= HeaderIndex(records) && i < |records| :: broken[i] == records[i]
    ensures HeaderIndex(broken) == HeaderIndex(records)
  {
    if records != [] && !IsHeader(records[0]) {
      assert broken[0] == records[0];
      forall i | 0 <= i <= HeaderIndex(records[1..]) && i < |records| - 1
        ensures broken[1..][i] == records[1..][i]
      {
        assert broken[i + 1] == records[i + 1];
      }
      HeaderUnmoved(broken[1..], records[1..]);
    }
  }

  lemma SameRowSameVerdict(readers: Readers, broken: Record, r: Record, layout: Layout, hasType: bool)
    requires Realignable(layout, hasType) && SameRow(broken, r, layout.count)
    ensures VerdictOn(readers, broken, Some(layout), hasType) == VerdictOn(readers, r, Some(layout), hasType)
  {
    hide ParseRow, Join, IsSplitOf, Realignable;
    if broken != r {
      SplitKeepsContent(broken.fields, r.fields);
      RealignmentUndoesSplit(readers, layout, hasType, r.fields, broken.fields);
    }
  }

  lemma SameVerdictAt(readers: Readers, broken: seq<Record>, records: seq<Record>, hasType: bool, h: nat, i: nat)
    requires h == HeaderIndex(records) == HeaderIndex(broken) < |records| && i < |records|
    requires Realignable(LayoutOf(records[h].fields, hasType), hasType)
    requires SameButForCommas(broken, records, h, |records[h].fields|)
    ensures VerdictOn(readers, broken[i], LayoutAt(broken, i, hasType), hasType)
         == VerdictOn(readers, records[i], LayoutAt(records, i, hasType), hasType)
  {
    hide VerdictOn, SameRow, Realignable, Contains;
    if h < i {
      SameRowSameVerdict(readers, broken[i], records[i], LayoutOf(records[h].fields, hasType), hasType);
    }
  }

  /** The whole file: unquoted commas in cardholder names change neither the rows
      nor the rejects, nor the text a reject keeps. */
  lemma CommasDoNotMatter(readers: Readers, broken: seq<Record>, records: seq<Record>, hasType: bool)
    requires HeaderIndex(records) < |records|
    requires Realignable(LayoutOf(records[HeaderIndex(records)].fields, hasType), hasType)
    requires SameButForCommas(broken, records, HeaderIndex(records), |records[HeaderIndex(records)].fields|)
    ensures Verdicts(readers, broken, hasType) == Verdicts(readers, records, hasType)
  {
    hide VerdictOn, SameRow, Realignable, Contains, LayoutAt, LayoutOf;
    HeaderUnmoved(broken, records);
    forall i | 0 <= i < |records|
      ensures Verdicts(readers, broken, hasType)[i] == Verdicts(readers, records, hasType)[i]
    {
      SameVerdictAt(readers, broken, records, hasType, HeaderIndex(records), i);
    }
  }

  /** A transaction lost: with five columns in the header and four in the row, the
      coffee is accepted until the cardholder's name holds a comma. */
  lemma ShortRowsMisalign()
    ensures var layout := Layout(5, 1, 2, 3, 9);
            var fields := ["ACME, LLC", SOME_DATE, "COFFEE", SOME_AMOUNT];
            var broken := ["ACME", " LLC", SOME_DATE, "COFFEE", SOME_AMOUNT];
            && Realignable(layout, false) && IsSplitOf(broken, fields)
            && ParseRow(BANK_READERS, layout, false, fields).Ok?
            && ParseRow(BANK_READERS, layout, false, fields).value.description == "COFFEE"
            && ParseRow(BANK_READERS, layout, false, broken) == Err(BadDate("LLC"))
  {
    hide ParseDateMdy, ParseAmount, LooksNumeric, Trim, SignedAmount;
    var fields := ["ACME, LLC", SOME_DATE, "COFFEE", SOME_AMOUNT];
    var broken := ["ACME", " LLC", SOME_DATE, "COFFEE", SOME_AMOUNT];
    BankReads();
    SomeDateReads();
    SomeAmountReads();
    SpacedName();
    assert broken[..2] == ["ACME", " LLC"] && broken[2..] == fields[1..];
    assert Join(["ACME", " LLC"]) == "ACME" + "," + Join([" LLC"]) by { assert ["ACME", " LLC"][1..] == [" LLC"]; }
    assert "ACME" + "," + " LLC" == "ACME, LLC";
  }

  lemma SpacedName()
    ensures Trim(" LLC") == "LLC" && Trim("COFFEE") == "COFFEE" && ParseDateMdy(" LLC").None?
  {
    TrimKeeps("COFFEE");
    TrimKeeps("LLC");
    assert " LLC"[1..] == "LLC";
    assert TrimStart("LLC") == "LLC";
    SplitOnNothing("LLC", '/');
  }
}
