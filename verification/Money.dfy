/**
 Money as text, both ways: the printer with its thousands separators, and the
 parser statements are read with. Amounts are integer cents on the printing side
 and exact decimals on the parsing side; rounding to `f64` is not modelled.
 */
module Money {
  import opened Outcomes
  import opened Decimal
  import opened TextOps

  // ----- printing -----

  /** Commas between groups of three, counted from the right. */
  function Grouped(s: string): string {
    if |s| <= 3 then s else Grouped(s[..|s| - 3]) + "," + s[|s| - 3..]
  }

  /** `-$1,234.56`: sign, dollar, grouped whole part, point, cents. */
  function Printed(negative: bool, whole: string, fraction: string): string {
    (if negative then "-$" else "$") + Grouped(whole) + "." + fraction
  }

  function MoneyText(cents: int): string {
    var abs: nat := if cents < 0 then -cents else cents;
    Printed(cents < 0, Text(abs / 100), Padded(abs % 100, 2))
  }

  lemma SignInFront(whole: string, fraction: string)
    ensures Printed(true, whole, fraction) == "-" + Printed(false, whole, fraction)
    ensures Printed(false, whole, fraction) == "$" + Grouped(whole) + "." + fraction
  {
    hide Grouped;
    var rest := Grouped(whole) + "." + fraction;
    assert Printed(true, whole, fraction) == "-$" + rest && Printed(false, whole, fraction) == "$" + rest;
    assert "-$" + rest == "-" + ("$" + rest);
  }

  /** The sign stands before the dollar, and the two digits of the cents behind the point. */
  lemma MoneyLooks(cents: nat)
    ensures cents > 0 ==> MoneyText(0 - cents) == "-" + MoneyText(cents)
    ensures MoneyText(cents) == "$" + Grouped(Text(cents / 100)) + "." + Padded(cents % 100, 2)
  {
    hide Printed, Grouped, Text, Padded;
    SignInFront(Text(cents / 100), Padded(cents % 100, 2));
  }

  function NumberText(n: int): string {
    if n < 0 then "-" + Grouped(Text(-n)) else Grouped(Text(n))
  }

  lemma NumberLooks(n: nat)
    ensures NumberText(n) == Grouped(Text(n)) && (n > 0 ==> NumberText(0 - n) == "-" + NumberText(n))
  {
    hide Grouped, Text;
  }

  function Reversed(s: string): string {
    if s == "" then "" else Reversed(s[1..]) + [s[0]]
  }

  lemma {:induction false} ReversedPush(s: string, c: char)
    ensures Reversed(s + [c]) == [c] + Reversed(s)
  {
    if s != "" {
      assert (s + [c])[1..] == s[1..] + [c];
      ReversedPush(s[1..], c);
    }
  }

  /** A digit put in front opens a new group exactly after each full three. */
  lemma {:induction false} GroupedPrepend(c: char, t: string)
    ensures Grouped([c] + t) == if |t| > 0 && |t| % 3 == 0 then [c] + "," + Grouped(t) else [c] + Grouped(t)
  {
    hide Grouped;
    if |t| < 3 {
      GroupedShort([c] + t);
      GroupedShort(t);
    } else {
      var front, back := t[..|t| - 3], t[|t| - 3..];
      assert [c] + t == ([c] + front) + back;
      GroupedSplit([c] + front, back);
      if front == "" {
        assert [c] + front == [c] && back == t;
        GroupedShort([c]);
        GroupedShort(t);
      } else {
        assert t == front + back;
        GroupedSplit(front, back);
        GroupedPrepend(c, front);
        Reassociate(c, Grouped(front), back);
      }
    }
  }

  lemma GroupedShort(s: string)
    requires |s| <= 3
    ensures Grouped(s) == s
  {
  }

  lemma GroupedSplit(front: string, back: string)
    requires front != "" && |back| == 3
    ensures Grouped(front + back) == Grouped(front) + "," + back
  {
    var s := front + back;
    assert s[..|s| - 3] == front && s[|s| - 3..] == back;
  }

  lemma Reassociate(c: char, g: string, back: string)
    ensures ([c] + g) + "," + back == [c] + (g + "," + back)
    ensures ([c] + "," + g) + "," + back == [c] + "," + (g + "," + back)
  {
  }

  lemma NothingPrinted(digits: string)
    ensures Reversed("") == Grouped(digits[|digits|..])
  {
    GroupedShort("");
  }

  /** The printer's loop: characters from the right, a comma before every third. */
  method GroupThousands(digits: string) returns (withCommas: string)
    ensures withCommas == Grouped(digits)
  {
    hide Grouped, Reversed;
    var backwards := "";
    var i := 0;
    NothingPrinted(digits);
    while i < |digits|
      invariant i <= |digits|
      invariant Reversed(backwards) == Grouped(digits[|digits| - i..])
    {
      var c := digits[|digits| - 1 - i];
      ghost var rest := digits[|digits| - i..];
      GroupedPrepend(c, rest);
      assert digits[|digits| - 1 - i..] == [c] + rest && |rest| == i;
      Reassociate(c, Grouped(rest), "");
      if i > 0 && i % 3 == 0 {
        ReversedPush(backwards, ',');
        backwards := backwards + [','];
      }
      ReversedPush(backwards, c);
      backwards := backwards + [c];
      i := i + 1;
    }
    assert digits[0..] == digits;
    withCommas := ReverseText(backwards);
  }

  method ReverseText(s: string) returns (r: string)
    ensures r == Reversed(s)
  {
    r := "";
    for i := 0 to |s|
      invariant r == Reversed(s[..i])
    {
      assert s[..i + 1] == s[..i] + [s[i]];
      ReversedPush(s[..i], s[i]);
      r := [s[i]] + r;
    }
    assert s[..|s|] == s;
  }

  method Money(cents: int) returns (s: string)
    ensures s == MoneyText(cents)
  {
    var abs := if cents < 0 then -cents else cents;
    var whole := GroupThousands(Text(abs / 100));
    var fraction := Padded(abs % 100, 2);
    if cents < 0 {
      s := "-$" + whole + "." + fraction;
    } else {
      s := "$" + whole + "." + fraction;
    }
  }

  method Number(n: int) returns (s: string)
    ensures s == NumberText(n)
  {
    var whole := GroupThousands(Text(if n < 0 then -n else n));
    s := if n < 0 then "-" + whole else whole;
  }

  lemma LastGroup(h: string, back: string, p: nat)
    requires |back| == 3 && ',' !in back && p < |h| + 4
    ensures var g := h + "," + back;
            && (p < |h| ==> g[p] == h[p])
            && (p >= |h| ==> (g[p] == ',' <==> |g| - p == 4))
  {
    var g := h + "," + back;
    if p > |h| {
      assert g[p] == back[p - |h| - 1];
    }
  }

  predicate CommaEveryFourth(g: string) {
    forall p | 0 <= p < |g| :: g[p] == ',' <==> (|g| - p) % 4 == 0
  }

  lemma FourthPlace(g: nat, h: nat, p: nat)
    requires g == h + 4 && p < g
    ensures p < h ==> ((g - p) % 4 == 0 <==> (h - p) % 4 == 0)
    ensures p >= h ==> ((g - p) % 4 == 0 <==> g - p == 4)
  {
  }

  lemma OneMoreGroup(h: string, back: string)
    requires |back| == 3 && ',' !in back && CommaEveryFourth(h)
    ensures CommaEveryFourth(h + "," + back)
  {
    var g := h + "," + back;
    forall p | 0 <= p < |g|
      ensures g[p] == ',' <==> (|g| - p) % 4 == 0
    {
      LastGroup(h, back, p);
      FourthPlace(|g|, |h|, p);
    }
  }

  lemma FewNoComma(s: string)
    requires |s| <= 3 && ',' !in s
    ensures CommaEveryFourth(s)
  {
    forall p | 0 <= p < |s|
      ensures s[p] == ',' <==> (|s| - p) % 4 == 0
    {
      assert 1 <= |s| - p <= 3;
    }
  }

  lemma ThirdsGrow(n: nat)
    requires n > 3
    ensures (n - 1) / 3 == (n - 4) / 3 + 1
  {
  }

  /** Counting from the right, every fourth character is a comma and no other is. */
  lemma {:induction false} GroupsAreThrees(s: string)
    requires s != "" && ',' !in s
    ensures |Grouped(s)| == |s| + (|s| - 1) / 3
    ensures CommaEveryFourth(Grouped(s))
  {
    hide Grouped, CommaEveryFourth;
    if |s| <= 3 {
      GroupedShort(s);
      FewNoComma(s);
    } else {
      var front, back := s[..|s| - 3], s[|s| - 3..];
      assert s == front + back && ',' !in front && ',' !in back;
      GroupsAreThrees(front);
      GroupedSplit(front, back);
      OneMoreGroup(Grouped(front), back);
      ThirdsGrow(|s|);
    }
  }

  lemma WithoutComma(drop: set<char>)
    requires ',' in drop
    ensures Without(",", drop) == ""
  {
    assert ","[..0] == "";
  }

  /** Stripping the commas recovers the digits. */
  lemma {:induction false} StrippingUngroups(s: string, drop: set<char>)
    requires ',' in drop && forall i | 0 <= i < |s| :: s[i] !in drop
    ensures Without(Grouped(s), drop) == s
  {
    hide Without;
    if |s| <= 3 {
      WithoutNothing(s, drop);
    } else {
      var front, back := s[..|s| - 3], s[|s| - 3..];
      StrippingUngroups(front, drop);
      WithoutConcat(Grouped(front) + ",", back, drop);
      WithoutConcat(Grouped(front), ",", drop);
      WithoutNothing(back, drop);
      WithoutComma(drop);
      assert s == front + back;
    }
  }

  // ----- parsing -----

  /** `v` times ten to the `exponent`. */
  function Scaled(v: real, exponent: int): real
    decreases if exponent < 0 then -exponent else exponent
  {
    if exponent == 0 then v
    else if exponent > 0 then 10.0 * Scaled(v, exponent - 1)
    else Scaled(v, exponent + 1) / 10.0
  }

  /** How far a left-to-right scan of an unsigned decimal has come: digits read
      as a whole number, how many of them after the point, and the exponent. */
  datatype Scan =
    | Bad
    | Mantissa(value: nat, digits: nat, point: bool, places: nat)
    | Exponent(value: nat, places: nat, begun: bool, negative: bool, digits: nat, exponent: nat)

  function ScanStep(scan: Scan, c: char): Scan {
    match scan
    case Bad => Bad
    case Mantissa(v, n, point, places) =>
      if IsDigit(c) then Mantissa(10 * v + DigitValue(c), n + 1, point, if point then places + 1 else 0)
      else if c == '.' && !point then Mantissa(v, n, true, 0)
      else if c in {'e', 'E'} && n > 0 then Exponent(v, places, false, false, 0, 0)
      else Bad
    case Exponent(v, places, begun, negative, n, exponent) =>
      if IsDigit(c) then Exponent(v, places, true, negative, n + 1, 10 * exponent + DigitValue(c))
      else if c in {'+', '-'} && !begun then Exponent(v, places, true, c == '-', 0, 0)
      else Bad
  }

  function ScanDecimal(s: string): Scan {
    if s == "" then Mantissa(0, 0, false, 0) else ScanStep(ScanDecimal(s[..|s| - 1]), s[|s| - 1])
  }

  function ParseUnsigned(s: string): Option<real> {
    match ScanDecimal(s)
    case Bad => None
    case Mantissa(v, n, _, places) => if n == 0 then None else Some(Scaled(v as real, 0 - places))
    case Exponent(v, places, _, negative, n, exponent) =>
      if n == 0 then None else Some(Scaled(v as real, (if negative then 0 - exponent else exponent) - places))
  }

  function Negated(v: Option<real>): Option<real> {
    match v
    case None => None
    case Some(x) => Some(-x)
  }

  /** `f64::from_str`: sign, mantissa, exponent. Its spellings of infinity and
      not-a-number are not numbers here. */
  function ParseFloat(s: string): Option<real> {
    if s != "" && s[0] == '-' then Negated(ParseUnsigned(s[1..]))
    else if s != "" && s[0] == '+' then ParseUnsigned(s[1..])
    else ParseUnsigned(s)
  }

  /** Parentheses around the whole negate what is inside. */
  function ParseStripped(s: string): Option<real> {
    if |s| >= 2 && s[0] == '(' && s[|s| - 1] == ')' then Negated(ParseFloat(Trim(s[1..|s| - 1])))
    else ParseFloat(s)
  }

  const STRIPPED := {',', '"', '$'}

  function ParseAmount(raw: string): Option<real> {
    ParseStripped(Trim(Without(raw, STRIPPED)))
  }

  // ----- the parser undoes the printer -----

  /** What is left of the printed text once the parser has stripped it. */
  function Bare(negative: bool, whole: string, fraction: string): string {
    if negative then "-" + (whole + "." + fraction) else whole + "." + fraction
  }

  lemma WithoutParts(a: string, b: string, c: string, d: string, drop: set<char>)
    ensures Without(a + b + c + d, drop) == Without(a, drop) + Without(b, drop) + Without(c, drop) + Without(d, drop)
  {
    WithoutConcat(a + b + c, d, drop);
    WithoutConcat(a + b, c, drop);
    WithoutConcat(a, b, drop);
  }

  lemma DigitsKept(s: string)
    requires AllDigits(s)
    ensures Without(s, STRIPPED) == s
  {
    WithoutNothing(s, STRIPPED);
  }

  lemma GroupingStripped(s: string)
    requires AllDigits(s)
    ensures Without(Grouped(s), STRIPPED) == s
  {
    StrippingUngroups(s, STRIPPED);
  }

  lemma StrippedSign()
    ensures Without("$", STRIPPED) == "" && Without("-$", STRIPPED) == "-"
  {
    assert "-$"[..1] == "-" && "-"[..0] == "" && "$"[..0] == "";
    assert Without("-", STRIPPED) == "-";
  }

  lemma PointKept()
    ensures Without(".", STRIPPED) == "."
  {
    WithoutNothing(".", STRIPPED);
  }

  lemma StrippedAfterSign(sign: string, kept: string, whole: string, fraction: string)
    requires AllDigits(whole) && AllDigits(fraction) && Without(sign, STRIPPED) == kept
    ensures Without(sign + Grouped(whole) + "." + fraction, STRIPPED) == kept + (whole + "." + fraction)
  {
    hide Without, Grouped;
    WithoutParts(sign, Grouped(whole), ".", fraction, STRIPPED);
    GroupingStripped(whole);
    DigitsKept(fraction);
    PointKept();
    Regrouped(kept, whole, ".", fraction);
  }

  lemma Regrouped(a: string, b: string, c: string, d: string)
    ensures a + b + c + d == a + (b + c + d)
  {
  }

  lemma StrippedPrint(negative: bool, whole: string, fraction: string)
    requires AllDigits(whole) && AllDigits(fraction)
    ensures Without(Printed(negative, whole, fraction), STRIPPED) == Bare(negative, whole, fraction)
  {
    StrippedSign();
    if negative {
      StrippedAfterSign("-$", "-", whole, fraction);
    } else {
      StrippedAfterSign("$", "", whole, fraction);
    }
  }

  lemma {:induction false} ScanDigits(whole: string)
    requires AllDigits(whole)
    ensures ScanDecimal(whole) == Mantissa(Value(whole), |whole|, false, 0)
  {
    if whole != "" {
      ScanDigits(whole[..|whole| - 1]);
    }
  }

  lemma ScanPush(s: string, c: char)
    ensures ScanDecimal(s + [c]) == ScanStep(ScanDecimal(s), c)
  {
    assert (s + [c])[..|s|] == s;
  }

  lemma {:induction false} ScanPoint(whole: string, fraction: string)
    requires AllDigits(whole) && AllDigits(fraction)
    ensures ScanDecimal(whole + "." + fraction)
         == Mantissa(Value(whole + fraction), |whole| + |fraction|, true, |fraction|)
  {
    hide ScanDecimal;
    if fraction == "" {
      ScanDigits(whole);
      ScanPush(whole, '.');
      assert whole + "." + fraction == whole + ['.'] && whole + fraction == whole;
    } else {
      var n := |fraction| - 1;
      ScanPoint(whole, fraction[..n]);
      ScanPush(whole + "." + fraction[..n], fraction[n]);
      assert whole + "." + fraction == (whole + "." + fraction[..n]) + [fraction[n]];
      assert (whole + fraction)[..|whole| + n] == whole + fraction[..n];
    }
  }

  lemma ParsePoint(whole: string, fraction: string)
    requires whole != "" && AllDigits(whole) && AllDigits(fraction)
    ensures ParseUnsigned(whole + "." + fraction) == Some(Scaled(Value(whole + fraction) as real, 0 - |fraction|))
  {
    ScanPoint(whole, fraction);
  }

  lemma SignApplies(body: string, value: real)
    requires body != "" && IsDigit(body[0]) && ParseUnsigned(body) == Some(value)
    ensures ParseFloat(body) == Some(value) && ParseFloat("-" + body) == Some(-value)
  {
    assert ("-" + body)[1..] == body;
  }

  function Signed(negative: bool, value: real): real {
    if negative then -value else value
  }

  lemma BareParses(negative: bool, whole: string, fraction: string, value: real)
    requires whole != "" && IsDigit(whole[0])
    requires ParseUnsigned(whole + "." + fraction) == Some(value)
    ensures ParseFloat(Bare(negative, whole, fraction)) == Some(Signed(negative, value))
  {
    var body := whole + "." + fraction;
    assert body[0] == whole[0];
    SignApplies(body, value);
  }

  predicate Tight(s: string) {
    s != "" && !IsSpace(s[0]) && !IsSpace(s[|s| - 1])
  }

  lemma BareIsTight(negative: bool, whole: string, fraction: string)
    requires whole != "" && AllDigits(whole) && fraction != "" && AllDigits(fraction)
    ensures Tight(Bare(negative, whole, fraction)) && Bare(negative, whole, fraction)[0] != '('
  {
    var s := Bare(negative, whole, fraction);
    assert s[0] == if negative then '-' else whole[0];
    assert s[|s| - 1] == fraction[|fraction| - 1];
  }

  lemma ParsesAsStripped(raw: string, bare: string)
    requires Without(raw, STRIPPED) == bare && Tight(bare)
    ensures ParseAmount(raw) == ParseStripped(bare)
  {
    TrimKeeps(bare);
  }

  lemma ParenthesesStripped(bare: string)
    requires Tight(bare)
    ensures ParseStripped("(" + bare + ")") == Negated(ParseFloat(bare))
  {
    assert ("(" + bare + ")")[1..|bare| + 1] == bare;
    TrimKeeps(bare);
  }

  lemma ParenthesesKept()
    ensures Without("(", STRIPPED) == "(" && Without(")", STRIPPED) == ")"
  {
    WithoutNothing("(", STRIPPED);
    WithoutNothing(")", STRIPPED);
  }

  lemma StrippedParentheses(inner: string)
    ensures Without("(" + inner + ")", STRIPPED) == "(" + Without(inner, STRIPPED) + ")"
  {
    ParenthesesKept();
    WithoutConcat("(" + inner, ")", STRIPPED);
    WithoutConcat("(", inner, STRIPPED);
  }

  lemma ParenthesizedParses(raw: string, bare: string, value: real)
    requires Without(raw, STRIPPED) == bare && Tight(bare)
    requires ParseFloat(bare) == Some(value)
    ensures ParseAmount("(" + raw + ")") == Some(-value)
  {
    hide Without, ParseFloat;
    StrippedParentheses(raw);
    ParsesAsStripped("(" + raw + ")", "(" + bare + ")");
    ParenthesesStripped(bare);
  }

  lemma UnparenthesizedParses(raw: string, bare: string, value: real)
    requires Without(raw, STRIPPED) == bare && Tight(bare) && bare[0] != '('
    requires ParseFloat(bare) == Some(value)
    ensures ParseAmount(raw) == Some(value)
  {
    ParsesAsStripped(raw, bare);
  }

  lemma CentsOf(abs: nat)
    ensures Value(Text(abs / 100) + Padded(abs % 100, 2)) == abs
  {
    ValueConcat(Text(abs / 100), Padded(abs % 100, 2));
    assert Power10(2) == 100 by { assert Power10(1) == 10; }
    PaddedValue(abs % 100, 2);
  }

  lemma PrintedParses(negative: bool, whole: string, fraction: string, value: real, raw: string)
    requires whole != "" && AllDigits(whole) && fraction != "" && AllDigits(fraction)
    requires ParseUnsigned(whole + "." + fraction) == Some(value)
    requires raw == Printed(negative, whole, fraction)
    ensures ParseAmount(raw) == Some(Signed(negative, value))
    ensures ParseAmount("(" + raw + ")") == Some(-Signed(negative, value))
  {
    hide Printed, Bare, Without, ParseAmount, ParseFloat, ParseUnsigned;
    var bare := Bare(negative, whole, fraction);
    StrippedPrint(negative, whole, fraction);
    BareIsTight(negative, whole, fraction);
    BareParses(negative, whole, fraction, value);
    UnparenthesizedParses(raw, bare, Signed(negative, value));
    ParenthesizedParses(raw, bare, Signed(negative, value));
  }

  lemma Hundredths(n: nat)
    ensures Scaled(n as real, 0 - 2) == n as real / 100.0
  {
    assert Scaled(n as real, 0 - 1) == n as real / 10.0;
  }

  lemma MagnitudeParses(abs: nat)
    ensures ParseUnsigned(Text(abs / 100) + "." + Padded(abs % 100, 2)) == Some(abs as real / 100.0)
  {
    hide *;
    CentsOf(abs);
    Hundredths(abs);
    ParsePoint(Text(abs / 100), Padded(abs % 100, 2));
  }

  lemma MagnitudeReads(negative: bool, abs: nat, raw: string)
    requires raw == Printed(negative, Text(abs / 100), Padded(abs % 100, 2))
    ensures var value := Signed(negative, abs as real / 100.0);
            ParseAmount(raw) == Some(value) && ParseAmount("(" + raw + ")") == Some(-value)
  {
    hide *;
    var whole, fraction := Text(abs / 100), Padded(abs % 100, 2);
    MagnitudeParses(abs);
    PrintedParses(negative, whole, fraction, abs as real / 100.0, raw);
  }

  lemma MoneyReads(cents: int, raw: string)
    requires raw == MoneyText(cents)
    ensures ParseAmount(raw) == Some(cents as real / 100.0)
    ensures ParseAmount("(" + raw + ")") == Some(-(cents as real / 100.0))
  {
    hide ParseAmount, Printed, Grouped, Text, Padded;
    if cents < 0 {
      MagnitudeReads(true, -cents, raw);
    } else {
      MagnitudeReads(false, cents, raw);
    }
  }

  /** Every amount, of either sign, reads back as itself, and in parentheses as
      its negation. */
  lemma ParserUndoesPrinter(cents: int)
    ensures ParseAmount(MoneyText(cents)) == Some(cents as real / 100.0)
    ensures ParseAmount("(" + MoneyText(cents) + ")") == Some(-(cents as real / 100.0))
  {
    hide ParseAmount;
    var raw := MoneyText(cents);
    MoneyReads(cents, raw);
  }

  // ----- everything else the parser reads -----

  /** Scaling is by powers of ten. */
  lemma {:induction false} ScaledByPowers(v: real, n: nat)
    ensures Scaled(v, n) == v * Power10(n) as real
    ensures Scaled(v, 0 - n) * Power10(n) as real == v
  {
    if n > 0 {
      ScaledByPowers(v, n - 1);
      Tenfold(v, Power10(n - 1), Scaled(v, 1 - n));
      assert 0 - n + 1 == 1 - n == 0 - (n - 1);
    }
  }

  lemma Tenfold(v: real, p: nat, down: real)
    ensures 10.0 * (v * p as real) == v * (10 * p) as real
    ensures down / 10.0 * (10 * p) as real == down * p as real
  {
  }

  lemma {:induction false} ScanExponent(head: string, value: nat, places: nat, negative: bool, digits: string)
    requires AllDigits(digits)
    requires ScanDecimal(head) == Exponent(value, places, true, negative, 0, 0)
          || (!negative && ScanDecimal(head) == Exponent(value, places, false, false, 0, 0))
    ensures digits != "" ==>
              ScanDecimal(head + digits) == Exponent(value, places, true, negative, |digits|, Value(digits))
  {
    hide ScanDecimal;
    if digits != "" {
      var n := |digits| - 1;
      ScanExponent(head, value, places, negative, digits[..n]);
      ScanPush(head + digits[..n], digits[n]);
      assert head + digits == (head + digits[..n]) + [digits[n]];
      if n == 0 {
        assert head + digits[..n] == head;
      }
    }
  }

  lemma ExponentBegins(mantissa: string, value: nat, places: nat, letter: char, sign: string)
    requires ScanDecimal(mantissa).Mantissa? && ScanDecimal(mantissa).digits > 0
    requires ScanDecimal(mantissa).value == value && ScanDecimal(mantissa).places == places
    requires letter in ['e', 'E'] && sign in ["", "+", "-"]
    ensures ScanDecimal(mantissa + [letter] + sign)
         == Exponent(value, places, sign != "", sign == "-", 0, 0)
  {
    hide ScanDecimal;
    ScanPush(mantissa, letter);
    if sign == "" {
      assert mantissa + [letter] + sign == mantissa + [letter];
    } else {
      assert sign == [sign[0]];
      ScanPush(mantissa + [letter], sign[0]);
    }
  }

  lemma ExponentParses(s: string, value: nat, places: nat, negative: bool, digits: nat, exponent: nat)
    requires ScanDecimal(s) == Exponent(value, places, true, negative, digits, exponent) && digits > 0
    ensures ParseUnsigned(s) == Some(Scaled(value as real, (if negative then 0 - exponent else exponent) - places))
  {
    hide ScanDecimal, Scaled;
  }

  /** With an exponent, marked by either letter and with any sign or none, the point moves. */
  lemma ExponentReads(whole: string, fraction: string, letter: char, sign: string, digits: string)
    requires AllDigits(whole) && AllDigits(fraction) && AllDigits(digits) && whole != "" && digits != ""
    requires letter in ['e', 'E'] && sign in ["", "+", "-"]
    ensures var shift := if sign == "-" then 0 - Value(digits) else Value(digits);
            ParseUnsigned(whole + "." + fraction + [letter] + sign + digits)
              == Some(Scaled(Value(whole + fraction) as real, shift - |fraction|))
  {
    hide *;
    var mantissa := whole + "." + fraction;
    MantissaReads(whole, fraction);
    ExponentBegins(mantissa, Value(whole + fraction), |fraction|, letter, sign);
    ExponentFrom(mantissa + [letter] + sign, Value(whole + fraction), |fraction|, sign != "", sign == "-", digits);
  }

  lemma MantissaReads(whole: string, fraction: string)
    requires AllDigits(whole) && AllDigits(fraction) && whole != ""
    ensures AllDigits(whole + fraction)
    ensures var scan := ScanDecimal(whole + "." + fraction);
            && scan.Mantissa? && scan.digits > 0 && scan.value == Value(whole + fraction) && scan.places == |fraction|
  {
    ScanPoint(whole, fraction);
  }

  lemma ExponentFrom(head: string, value: nat, places: nat, begun: bool, negative: bool, digits: string)
    requires AllDigits(digits) && digits != "" && (negative ==> begun)
    requires ScanDecimal(head) == Exponent(value, places, begun, negative, 0, 0)
    ensures var shift := if negative then 0 - Value(digits) else Value(digits);
            ParseUnsigned(head + digits) == Some(Scaled(value as real, shift - places))
  {
    hide ScanDecimal, Scaled, Value, ParseUnsigned;
    ScanExponent(head, value, places, negative, digits);
    ExponentParses(head + digits, value, places, negative, |digits|, Value(digits));
  }

  /** A plus sign in front changes nothing, a minus negates, and a second sign is refused. */
  lemma SignReads(body: string)
    ensures ParseFloat("+" + body) == ParseUnsigned(body) && ParseFloat("-" + body) == Negated(ParseUnsigned(body))
    ensures body != "" && body[0] in ['+', '-'] ==> ParseUnsigned(body) == None
  {
    assert ("+" + body)[1..] == body && ("-" + body)[1..] == body;
    if body != "" && body[0] in ['+', '-'] {
      assert ScanDecimal("") == Mantissa(0, 0, false, 0) && [body[0]][..0] == "";
      assert ScanDecimal([body[0]]) == Bad;
      BadStays([body[0]], body[1..]);
      assert [body[0]] + body[1..] == body;
    }
  }

  lemma {:induction false} BadStays(a: string, b: string)
    requires ScanDecimal(a) == Bad
    ensures ScanDecimal(a + b) == Bad
  {
    if b == "" {
      assert a + b == a;
    } else {
      BadStays(a, b[..|b| - 1]);
      ScanPush(a + b[..|b| - 1], b[|b| - 1]);
      assert a + b == (a + b[..|b| - 1]) + [b[|b| - 1]];
    }
  }

  /** A second point is refused, and so are no digits at all and an exponent without any. */
  lemma MalformedRefused(whole: string, fraction: string, rest: string, letter: char, sign: string)
    requires AllDigits(whole) && AllDigits(fraction) && whole != ""
    requires letter in ['e', 'E'] && sign in ["", "+", "-"]
    ensures ParseUnsigned(whole + "." + fraction + "." + rest) == None
    ensures ParseUnsigned("") == None && ParseUnsigned(".") == None
    ensures ParseUnsigned(whole + "." + fraction + [letter] + sign) == None
  {
    hide ScanDecimal, Value;
    var mantissa := whole + "." + fraction;
    ScanPoint(whole, fraction);
    ScanPush(mantissa, '.');
    BadStays(mantissa + ['.'], rest);
    assert mantissa + "." + rest == mantissa + ['.'] + rest;
    ScanPoint("", "");
    assert "" + "." + "" == ".";
    ScanDigits("");
    MantissaReads(whole, fraction);
    ExponentBegins(mantissa, Value(whole + fraction), |fraction|, letter, sign);
  }

  /** Any other character is refused, wherever it stands. */
  lemma ForeignRefused(a: string, c: char, b: string)
    requires !IsDigit(c) && c !in ['.', 'e', 'E', '+', '-']
    ensures ParseUnsigned(a + [c] + b) == None
  {
    ScanPush(a, c);
    BadStays(a + [c], b);
  }

  /** Commas, quotes and dollar signs do not count, wherever they stand. */
  lemma StrippedAnywhere(a: string, c: char, b: string)
    requires c in [',', '"', '$']
    ensures ParseAmount(a + [c] + b) == ParseAmount(a + b)
  {
    hide ParseStripped, Without;
    WithoutConcat(a + [c], b, STRIPPED);
    WithoutConcat(a, [c], STRIPPED);
    WithoutConcat(a, b, STRIPPED);
    WithoutOne(c, STRIPPED);
    assert Without(a, STRIPPED) + "" == Without(a, STRIPPED);
  }

  /** Nor do blanks around an amount, or just inside its parentheses. */
  lemma BlanksAround(before: string, amount: string, after: string)
    requires Blank(before) && Blank(after)
    ensures ParseAmount(before + amount + after) == ParseAmount(amount)
    ensures ParseStripped("(" + (before + amount + after) + ")") == ParseStripped("(" + amount + ")")
  {
    hide ParseFloat, Trim;
    BlanksKept(before);
    BlanksKept(after);
    WithoutConcat(before + amount, after, STRIPPED);
    WithoutConcat(before, amount, STRIPPED);
    TrimAround(before, Without(amount, STRIPPED), after);
    TrimAround(before, amount, after);
    InsideParentheses(before + amount + after);
    InsideParentheses(amount);
  }

  lemma BlanksKept(s: string)
    requires Blank(s)
    ensures Without(s, STRIPPED) == s
  {
    WithoutNothing(s, STRIPPED);
  }

  lemma InsideParentheses(body: string)
    ensures ParseStripped("(" + body + ")") == Negated(ParseFloat(Trim(body)))
  {
    assert ("(" + body + ")")[1..|body| + 1] == body;
  }

  // ----- plain numbers -----

  lemma DigitsParse(digits: string)
    requires digits != "" && AllDigits(digits)
    ensures ParseUnsigned(digits) == Some(Value(digits) as real)
  {
    ScanDigits(digits);
  }

  lemma SignedStripped(negative: bool, digits: string, raw: string)
    requires AllDigits(digits) && raw == (if negative then "-" else "") + Grouped(digits)
    ensures Without(raw, STRIPPED) == (if negative then "-" else "") + digits
  {
    hide Without, Grouped;
    GroupingStripped(digits);
    if negative {
      WithoutConcat("-", Grouped(digits), STRIPPED);
      WithoutNothing("-", STRIPPED);
    } else {
      assert raw == Grouped(digits);
    }
  }

  lemma SignedIsTight(negative: bool, digits: string)
    requires digits != "" && AllDigits(digits)
    ensures var s := (if negative then "-" else "") + digits; Tight(s) && s[0] != '('
  {
    var s := (if negative then "-" else "") + digits;
    assert s[0] == if negative then '-' else digits[0];
    assert s[|s| - 1] == digits[|digits| - 1];
  }

  lemma SignedDigitsRead(negative: bool, digits: string, raw: string)
    requires digits != "" && AllDigits(digits) && raw == (if negative then "-" else "") + Grouped(digits)
    ensures ParseAmount(raw) == Some(Signed(negative, Value(digits) as real))
  {
    hide Without, Grouped, ParseUnsigned, ParseAmount, Value;
    SignedStripped(negative, digits, raw);
    DigitsParse(digits);
    SignApplies(digits, Value(digits) as real);
    assert "" + digits == digits;
    SignedIsTight(negative, digits);
    UnparenthesizedParses(raw, (if negative then "-" else "") + digits, Signed(negative, Value(digits) as real));
  }

  /** A printed number, of either sign and with its commas, reads back as itself. */
  lemma NumberReads(n: int)
    ensures ParseAmount(NumberText(n)) == Some(n as real)
  {
    hide ParseAmount, Grouped;
    var abs: nat := if n < 0 then -n else n;
    assert "" + Grouped(Text(abs)) == Grouped(Text(abs));
    SignedDigitsRead(n < 0, Text(abs), NumberText(n));
  }
}
