/** The BRL printer and the parser of the admin form: shared/money.py and
    apps/billing/admin_form_fields.py:61-83. Amounts with two decimals are counts of cents. */
module Money {
  import opened Prelude
  import opened Text
  import Rounding

  /** The default decimal context keeps 28 digits; quantize raises beyond it. */
  const CONTEXT_LIMIT: int := 10_000_000_000_000_000_000_000_000_000

  datatype MoneyError = Required | Invalid | NotPositive | InvalidOperation

  function Quantize(value: real): Result<int, MoneyError> {
    var cents := Rounding.QMoney(value);
    if -CONTEXT_LIMIT < cents < CONTEXT_LIMIT then Ok(cents) else Err(InvalidOperation)
  }

  function ReaisToCents(value: real): Result<int, MoneyError> {
    match Quantize(value)
    case Err(e) => Err(e)
    case Ok(cents) => if cents <= 0 then Err(NotPositive) else Ok(cents)
  }

  /** Thousands separated by commas, as the ",.2f" format prints them. */
  function Grouped(n: nat): (r: string)
    ensures r != "" && forall c :: c in r ==> IsDigit(c) || c == ','
    ensures IsDigit(r[0])
  {
    if n < 1000 then Decimal(n) else Grouped(n / 1000) + "," + (assert Pow10(3) == 1000; Padded(n % 1000, 3))
  }

  function Printed(cents: nat): string {
    assert Pow10(2) == 100;
    ReplaceChar(Grouped(cents / 100), ',', '.') + "," + Padded(cents % 100, 2)
  }

  function Marked(amount: string): string { "R$" + (" " + amount) }

  function FormatBrl(cents: int): string {
    if cents < 0 then "-" + Marked(Printed(-cents)) else Marked(Printed(cents))
  }

  function FormatBrlFromCents(cents: Option<int>): Result<string, MoneyError> {
    match cents
    case None => Ok("\U{2014}")
    case Some(c) =>
      match Quantize(c as real / 100.0)
      case Err(e) => Err(e)
      case Ok(amount) => Ok(FormatBrl(amount))
  }

  // ---- the parser -----------------------------------------------------------------------------

  function IndexOf(s: string, c: char): (i: nat)
    ensures i <= |s| && (i < |s| ==> s[i] == c) && (forall j :: 0 <= j < i ==> s[j] != c)
  {
    if s == "" || s[0] == c then 0 else 1 + IndexOf(s[1..], c)
  }

  /** Digits, optionally followed by a point and one or two digits; the value counts cents. */
  function ParseAmount(s: string): Option<nat> {
    var dot := IndexOf(s, '.');
    var whole, frac := s[..dot], if dot < |s| then s[dot + 1..] else "00";
    if whole == "" || !AllDigits(whole) || !AllDigits(frac) || |frac| < 1 || |frac| > 2 then None
    else Some(ParseNat(whole) * 100 + if |frac| == 1 then ParseNat(frac) * 10 else ParseNat(frac))
  }

  function NormalizeSeparators(text: string): string {
    if '.' in text && ',' in text then ReplaceChar(RemoveChar(text, '.'), ',', '.')
    else if ',' in text then ReplaceChar(text, ',', '.')
    else text
  }

  function ParseValorReaisToCents(raw: string): Result<int, MoneyError> {
    var text := Unmarked(raw);
    if text == "" then Err(Required)
    else match ParseAmount(NormalizeSeparators(text))
      case None => Err(Invalid)
      case Some(cents) => ReaisToCents(cents as real / 100.0)
  }

  // ---- what the printer prints ------------------------------------------------------------------

  /** One to three digits, then groups of exactly three digits behind separators. */
  predicate WellGrouped(s: string, sep: char) {
    if |s| <= 3 then s != "" && AllDigits(s)
    else |s| > 4 && s[|s| - 4] == sep && AllDigits(s[|s| - 3..]) && WellGrouped(s[..|s| - 4], sep)
  }

  lemma {:induction false} ReplaceConcat(s: string, t: string, c: char, d: char)
    ensures ReplaceChar(s + t, c, d) == ReplaceChar(s, c, d) + ReplaceChar(t, c, d)
  {
  }

  lemma ReplaceAbsent(s: string, c: char, d: char)
    requires c !in s
    ensures ReplaceChar(s, c, d) == s
  {
  }

  /** Three digits in a row are the padded numeral. */
  lemma ThreeDigits(low: nat)
    requires low < 1000
    ensures Pow10(3) == 1000
    ensures Padded(low, 3) == [Digit(low / 100 % 10)] + [Digit(low / 10 % 10)] + [Digit(low % 10)]
  {
    assert Pow10(2) == 100 && Pow10(1) == 10 && Pow10(0) == 1;
    var tens, hundreds := low / 10, low / 100;
    assert tens / 10 == hundreds && hundreds % 10 == hundreds;
    assert Padded(hundreds, 1) == Padded(hundreds / 10, 0) + [Digit(hundreds % 10)] == [Digit(hundreds % 10)];
    assert Padded(tens, 2) == Padded(hundreds, 1) + [Digit(tens % 10)];
    assert Padded(low, 3) == Padded(tens, 2) + [Digit(low % 10)];
  }

  lemma LastDigit(high: nat, d: nat)
    requires high > 0 && d < 10
    ensures Decimal(10 * high + d) == Decimal(high) + [Digit(d)]
  {
  }

  lemma Split(high: nat, low: nat)
    requires low < 1000
    ensures high * 1000 + low == 10 * (10 * (10 * high + low / 100 % 10) + low / 10 % 10) + low % 10
  {
  }

  lemma PaddedIsDecimalTail(high: nat, low: nat)
    requires high > 0 && low < 1000
    ensures Pow10(3) == 1000 && Decimal(high) + Padded(low, 3) == Decimal(high * 1000 + low)
  {
    var x, y, z := low / 100 % 10, low / 10 % 10, low % 10;
    ThreeDigits(low);
    Split(high, low);
    LastDigit(high, x);
    LastDigit(10 * high + x, y);
    LastDigit(10 * (10 * high + x) + y, z);
  }

  /** Replacing the commas of a grouped numeral group by group. */
  lemma ReplaceGrouped(n: nat)
    requires n >= 1000
    ensures Pow10(3) == 1000
    ensures ReplaceChar(Grouped(n), ',', '.') == ReplaceChar(Grouped(n / 1000), ',', '.') + "." + Padded(n % 1000, 3)
  {
    assert Pow10(3) == 1000;
    var tail := Padded(n % 1000, 3);
    ReplaceConcat(Grouped(n / 1000) + ",", tail, ',', '.');
    ReplaceConcat(Grouped(n / 1000), ",", ',', '.');
    ReplaceAbsent(tail, ',', '.');
  }

  /** `g` is the numeral `d` with a point before every third digit. */
  predicate GroupedForm(g: string, d: string) {
    WellGrouped(g, '.') && RemoveChar(g, '.') == d && g != "" && IsDigit(g[0]) && ',' !in g
  }

  lemma AddGroup(head: string, d: string, tail: string)
    requires GroupedForm(head, d) && AllDigits(tail) && |tail| == 3
    ensures GroupedForm(head + "." + tail, d + tail)
  {
    var g := head + "." + tail;
    assert g[|g| - 3..] == tail && g[..|g| - 4] == head;
    RemoveCharConcat(head + ".", tail, '.');
    RemoveCharConcat(head, ".", '.');
    RemoveCharAbsent(tail, '.');
    assert RemoveChar(".", '.') == "";
  }

  /** The printed integer part is the plain numeral with a point before every third digit. */
  lemma {:induction false} GroupsOfThree(n: nat)
    ensures GroupedForm(ReplaceChar(Grouped(n), ',', '.'), Decimal(n))
  {
    if n < 1000 {
      ReplaceAbsent(Decimal(n), ',', '.');
      RemoveCharAbsent(Decimal(n), '.');
      ShortNumeral(n);
    } else {
      GroupsOfThree(n / 1000);
      ReplaceGrouped(n);
      AddGroup(ReplaceChar(Grouped(n / 1000), ',', '.'), Decimal(n / 1000), Padded(n % 1000, 3));
      PaddedIsDecimalTail(n / 1000, n % 1000);
    }
  }

  lemma ShortNumeral(n: nat)
    requires n < 1000
    ensures 1 <= |Decimal(n)| <= 3 && WellGrouped(Decimal(n), '.')
  {
    if n >= 10 { if n >= 100 { assert |Decimal(n / 10 / 10)| == 1; } else { assert |Decimal(n / 10)| == 1; } }
  }

  // ---- round trip ---------------------------------------------------------------------------------

  lemma QuantizeCents(c: int)
    ensures Quantize(c as real / 100.0) == if -CONTEXT_LIMIT < c < CONTEXT_LIMIT then Ok(c) else Err(InvalidOperation)
  {
    assert c as real / 100.0 * 100.0 == c as real;
    Rounding.HalfUpIsNearest(c as real, c);
  }

  lemma PrintedShape(cents: nat)
    ensures var p := Printed(cents);
      && |p| >= 4 && IsDigit(p[0]) && IsDigit(p[|p| - 1])
      && ',' in p && forall c :: c in p ==> IsDigit(c) || c == '.' || c == ','
  {
    GroupsOfThree(cents / 100);
    assert Pow10(2) == 100;
    var p, f := Printed(cents), Padded(cents % 100, 2);
    assert p[|p| - 1] == f[1] && p[|p| - 3] == ',';
  }

  lemma DigitsLackSeparators(s: string)
    requires AllDigits(s)
    ensures ',' !in s && '.' !in s
  {
  }

  /** Joining digits with a comma or a point commutes with the parser's two rewrites. */
  lemma PointsRemoved(g: string, frac: string)
    requires AllDigits(frac)
    ensures RemoveChar(g + "," + frac, '.') == RemoveChar(g, '.') + "," + frac
  {
    DigitsLackSeparators(frac);
    RemoveCharConcat(g + ",", frac, '.');
    RemoveCharConcat(g, ",", '.');
    RemoveCharAbsent(frac, '.');
    RemoveCharAbsent(",", '.');
  }

  lemma CommaToPoint(whole: string, frac: string)
    requires AllDigits(whole) && AllDigits(frac)
    ensures ReplaceChar(whole + "," + frac, ',', '.') == whole + "." + frac
  {
    DigitsLackSeparators(whole);
    DigitsLackSeparators(frac);
    ReplaceConcat(whole + ",", frac, ',', '.');
    ReplaceConcat(whole, ",", ',', '.');
    ReplaceAbsent(whole, ',', '.');
    ReplaceAbsent(frac, ',', '.');
  }

  lemma IndexOfFirst(s: string, c: char, i: nat)
    requires i < |s| && s[i] == c && forall j :: 0 <= j < i ==> s[j] != c
    ensures IndexOf(s, c) == i
  {
  }

  lemma AmountOfPlain(whole: string, frac: string)
    requires whole != "" && AllDigits(whole) && AllDigits(frac) && |frac| == 2
    ensures ParseAmount(whole + "." + frac) == Some(ParseNat(whole) * 100 + ParseNat(frac))
  {
    DigitsLackSeparators(whole);
    var s := whole + "." + frac;
    IndexOfFirst(s, '.', |whole|);
    assert s[..|whole|] == whole && s[|whole| + 1..] == frac;
  }

  /** Removing the points and turning the comma into a point leaves a plain amount. */
  lemma PrintedNormalizes(cents: nat)
    ensures Pow10(2) == 100
    ensures NormalizeSeparators(Printed(cents)) == Decimal(cents / 100) + "." + Padded(cents % 100, 2)
  {
    assert Pow10(2) == 100;
    var whole, p, f := cents / 100, Printed(cents), Padded(cents % 100, 2);
    var g := ReplaceChar(Grouped(whole), ',', '.');
    GroupsOfThree(whole);
    PrintedShape(cents);
    PointsRemoved(g, f);
    CommaToPoint(Decimal(whole), f);
    if '.' !in p {
      RemoveCharAbsent(p, '.');
    }
  }

  lemma PrintedParses(cents: nat)
    ensures ParseAmount(NormalizeSeparators(Printed(cents))) == Some(cents)
  {
    PrintedNormalizes(cents);
    PlainParses(cents);
  }

  lemma PlainParses(cents: nat)
    ensures Pow10(2) == 100
    ensures ParseAmount(Decimal(cents / 100) + "." + Padded(cents % 100, 2)) == Some(cents)
  {
    assert Pow10(2) == 100;
    AmountOfPlain(Decimal(cents / 100), Padded(cents % 100, 2));
    ParseDecimal(cents / 100);
    ParsePadded(cents % 100, 2);
  }

  predicate PrintedText(p: string) {
    && p != "" && IsDigit(p[0]) && IsDigit(p[|p| - 1])
    && forall c :: c in p ==> IsDigit(c) || c == '.' || c == ','
  }

  /** The text the parser keeps of a printed amount: the currency mark is gone. */
  function Unmarked(raw: string): string {
    Strip(RemovePair(RemovePair(Strip(raw), 'R', '$'), 'r', '$'))
  }

  lemma PairRemoved(rest: string)
    requires 'R' !in rest
    ensures RemovePair("R$" + rest, 'R', '$') == rest
  {
    assert ("R$" + rest)[2..] == rest;
    RemovePairAbsent(rest, 'R', '$');
  }

  lemma RemovePairSkips(c: char, s: string, a: char, b: char)
    requires s != "" && c != a
    ensures RemovePair([c] + s, a, b) == [c] + RemovePair(s, a, b)
  {
    assert ([c] + s)[1..] == s;
  }

  predicate Trimmed(s: string) { s != "" && !IsSpace(s[0]) && !IsSpace(s[|s| - 1]) }

  lemma SpaceStripped(p: string)
    requires Trimmed(p)
    ensures Strip(" " + p) == p
  {
    assert (" " + p)[1..] == p;
    assert StripLeft(" " + p) == StripLeft(p);
    StripTrimmed(p);
  }

  lemma UnmarkedSteps(raw: string, left: string)
    requires Trimmed(raw) && RemovePair(raw, 'R', '$') == left && 'r' !in left
    ensures Unmarked(raw) == Strip(left)
  {
    StripTrimmed(raw);
    RemovePairAbsent(left, 'r', '$');
  }

  lemma MarkIsRemoved(p: string)
    requires PrintedText(p)
    ensures Unmarked(Marked(p)) == p
  {
    var spaced := " " + p;
    SpacedText(p);
    PairRemoved(spaced);
    MarkTrims(spaced);
    UnmarkedSteps("R$" + spaced, spaced);
    SpaceStripped(p);
  }

  lemma SpacedText(p: string)
    requires PrintedText(p)
    ensures var s := " " + p; s != "" && !IsSpace(s[|s| - 1]) && 'R' !in s && 'r' !in s
  {
  }

  lemma MarkTrims(s: string)
    requires s != "" && !IsSpace(s[|s| - 1])
    ensures Trimmed("R$" + s)
  {
  }

  /** A sign in front survives the removal of the mark behind it. */
  lemma SignSurvives(marked: string, rest: string)
    requires marked != "" && !IsSpace(marked[|marked| - 1]) && RemovePair(marked, 'R', '$') == rest
    requires rest != "" && !IsSpace(rest[|rest| - 1]) && 'r' !in rest
    ensures Unmarked("-" + marked) == "-" + rest
  {
    RemovePairSkips('-', marked, 'R', '$');
    SignTrims(marked);
    SignTrims(rest);
    UnmarkedSteps("-" + marked, "-" + rest);
    StripTrimmed("-" + rest);
  }

  lemma SignTrims(s: string)
    requires s != "" && !IsSpace(s[|s| - 1])
    ensures Trimmed("-" + s) && ('r' !in s ==> 'r' !in "-" + s)
  {
  }

  lemma SignIsKept(p: string)
    requires PrintedText(p)
    ensures Unmarked("-" + Marked(p)) == "-" + (" " + p)
  {
    PairRemoved(" " + p);
    SignSurvives(Marked(p), " " + p);
  }

  lemma SignedTextIsInvalid(p: string)
    requires PrintedText(p)
    ensures ParseAmount(NormalizeSeparators("-" + (" " + p))).None?
  {
    var text := "-" + (" " + p);
    assert RemoveChar(text, '.')[0] == '-';
    var t := NormalizeSeparators(text);
    assert t[0] == '-';
    var dot := IndexOf(t, '.');
    assert t[..dot][0] in t[..dot] && !IsDigit(t[..dot][0]);
  }

  /** Main result, for every integer: the printer fails exactly beyond 28 digits; whatever it prints
      for a positive amount parses back to that amount, zero is refused as not positive and a
      negative amount as malformed. */
  lemma PrintParseRoundTrip(c: int)
    ensures FormatBrlFromCents(Some(c)).Ok? <==> -CONTEXT_LIMIT < c < CONTEXT_LIMIT
    ensures FormatBrlFromCents(Some(c)).Ok? ==>
      ParseValorReaisToCents(FormatBrlFromCents(Some(c)).value)
      == if c > 0 then Ok(c) else if c == 0 then Err(NotPositive) else Err(Invalid)
  {
    QuantizeCents(c);
    if -CONTEXT_LIMIT < c < CONTEXT_LIMIT {
      ParsePrinted(c);
    }
  }

  lemma ParsePrinted(c: int)
    requires -CONTEXT_LIMIT < c < CONTEXT_LIMIT
    ensures ParseValorReaisToCents(FormatBrl(c))
            == if c > 0 then Ok(c) else if c == 0 then Err(NotPositive) else Err(Invalid)
  {
    if c < 0 {
      PrintedShape(-c);
      ParseSigned(Printed(-c));
    } else {
      ParseUnsigned(c);
    }
  }

  lemma ParseSigned(p: string)
    requires PrintedText(p)
    ensures ParseValorReaisToCents("-" + Marked(p)) == Err(Invalid)
  {
    SignIsKept(p);
    SignedTextIsInvalid(p);
  }

  lemma ParseUnsigned(c: nat)
    requires c < CONTEXT_LIMIT
    ensures ParseValorReaisToCents(Marked(Printed(c))) == if c > 0 then Ok(c) else Err(NotPositive)
  {
    PrintedShape(c);
    MarkIsRemoved(Printed(c));
    PrintedParses(c);
    UnmarkedDecides(Marked(Printed(c)), Printed(c), c);
    ReaisOfCents(c);
  }

  lemma UnmarkedDecides(raw: string, p: string, c: nat)
    requires Unmarked(raw) == p != "" && ParseAmount(NormalizeSeparators(p)) == Some(c)
    ensures ParseValorReaisToCents(raw) == ReaisToCents(c as real / 100.0)
  {
  }

  lemma ReaisOfCents(c: nat)
    requires c < CONTEXT_LIMIT
    ensures ReaisToCents(c as real / 100.0) == if c > 0 then Ok(c) else Err(NotPositive)
  {
    QuantizeCents(c);
  }

  /** Different amounts print differently. */
  lemma PrinterIsInjective(a: int, b: int)
    requires 0 < a < CONTEXT_LIMIT && 0 < b < CONTEXT_LIMIT && FormatBrl(a) == FormatBrl(b)
    ensures a == b
  {
    QuantizeCents(a);
    QuantizeCents(b);
    PrintParseRoundTrip(a);
    PrintParseRoundTrip(b);
  }

  // ---- plain amounts ------------------------------------------------------------------------------

  lemma {:induction false} AmountIff(whole: string, frac: string)
    requires whole != "" && AllDigits(whole)
    ensures ParseAmount(whole) == Some(100 * ParseNat(whole))
    ensures ParseAmount(whole + "." + frac) ==
      if frac == "" || |frac| > 2 || !AllDigits(frac) then None
      else Some(100 * ParseNat(whole) + ParseNat(frac) * (if |frac| == 1 then 10 else 1))
  {
    DigitsLackSeparators(whole);
    NoIndex(whole, '.');
    assert whole[..|whole|] == whole && ParseNat("00") == 0 by { TwoZeros(); }
    var s := whole + "." + frac;
    IndexOfFirst(s, '.', |whole|);
    assert s[..|whole|] == whole && s[|whole| + 1..] == frac;
  }

  lemma TwoZeros()
    ensures ParseNat("00") == 0
  {
    assert "00"[..1] == "0" && "0"[..0] == "";
  }

  lemma {:induction false} NoIndex(s: string, c: char)
    requires c !in s
    ensures IndexOf(s, c) == |s|
  {
    if s != "" { NoIndex(s[1..], c); }
  }

  /** An amount without thousands, such as 10, 10.5, 10.50 or 10,50: a point or a comma separates one or two
      decimals, and any other ending is refused. */
  lemma PlainAmounts(whole: string, frac: string)
    requires whole != "" && AllDigits(whole) && '.' !in frac && ',' !in frac
    ensures ParseAmount(NormalizeSeparators(whole)) == Some(100 * ParseNat(whole))
    ensures ParseAmount(NormalizeSeparators(whole + "." + frac)) == ParseAmount(NormalizeSeparators(whole + "," + frac))
    ensures ParseAmount(NormalizeSeparators(whole + "." + frac)) ==
      if frac == "" || |frac| > 2 || !AllDigits(frac) then None
      else Some(100 * ParseNat(whole) + ParseNat(frac) * (if |frac| == 1 then 10 else 1))
  {
    AmountIff(whole, frac);
    DigitsLackSeparators(whole);
    CommaBetween(whole, frac);
    assert ',' !in whole + "." + frac && ',' in whole + "," + frac && '.' !in whole + "," + frac;
  }

  lemma CommaBetween(whole: string, frac: string)
    requires ',' !in whole && ',' !in frac
    ensures ReplaceChar(whole + "," + frac, ',', '.') == whole + "." + frac
  {
    ReplaceConcat(whole + ",", frac, ',', '.');
    ReplaceConcat(whole, ",", ',', '.');
    ReplaceAbsent(whole, ',', '.');
    ReplaceAbsent(frac, ',', '.');
  }

  /** What does not begin with a digit is refused. */
  lemma UnparsedUnlessDigit(text: string)
    requires text != "" && !IsDigit(text[0])
    ensures ParseAmount(text).None?
  {
    var dot := IndexOf(text, '.');
    assert dot > 0 ==> text[..dot][0] in text[..dot];
  }
}
