/** What the odds provider sends for one outcome, and the label and line the mapper derives from it. */
module OddsLabels {
  import opened Domain
  import opened Text

  /** A price is a decimal number of any precision; a point is in hundredths. */
  type Price = x: real | x >= 0.0

  datatype Outcome = Outcome(name: string, price: Price, point: Option<int>)

  function Digits(n: nat): (s: string)
    ensures s != "" && forall i :: 0 <= i < |s| ==> '0' <= s[i] <= '9'
  {
    if n < 10 then [(n + '0' as int) as char] else Digits(n / 10) + Digits(n % 10)
  }

  /** What follows the whole part of a number of hundredths. */
  function Decimals(p: nat): (s: string)
    ensures s == "" || s[0] == '.'
    ensures forall i :: 0 <= i < |s| ==> '0' <= s[i] <= '9' || s[i] == '.'
  {
    if p % 100 == 0 then ""
    else if p % 10 == 0 then "." + Digits(p % 100 / 10)
    else "." + (Digits(p % 100 / 10) + Digits(p % 10))
  }

  /** The shortest decimal text of a number of hundredths. */
  function Show(p: int): (s: string)
    ensures forall i :: 0 <= i < |s| ==> '0' <= s[i] <= '9' || s[i] == '-' || s[i] == '.'
    decreases p < 0
  {
    if p < 0 then "-" + Show(-p) else Digits(p / 100) + Decimals(p)
  }

  predicate OverUnder(name: string) {
    Contains(Lower(name), "over") || Contains(Lower(name), "under")
  }

  /** The point as a label shows it: with a plus sign when it is positive and the outcome is neither over nor under. */
  function PointText(o: Outcome): string
    requires o.point.Some?
  {
    if o.point.value > 0 && !OverUnder(o.name) then "+" + Show(o.point.value) else Show(o.point.value)
  }

  function SelectionLabel(o: Outcome): string {
    if o.point.None? then o.name else o.name + (" " + PointText(o))
  }

  /** The point of the first outcome that has one. */
  function MarketLine(outcomes: seq<Outcome>): Option<int> {
    if outcomes == [] then None
    else if outcomes[0].point.Some? then outcomes[0].point
    else MarketLine(outcomes[1..])
  }

  // Reading a label back

  function Value(digits: string): int {
    if digits == "" then 0 else 10 * Value(digits[..|digits| - 1]) + (digits[|digits| - 1] as int - '0' as int)
  }

  /** Where the decimal point is, or the end of the text. */
  function PointAt(s: string): (i: nat)
    ensures i <= |s|
  {
    if s == "" || s[0] == '.' then 0 else 1 + PointAt(s[1..])
  }

  /** The hundredths that a decimal text of at most two decimals denotes. */
  function ReadHundredths(s: string): int {
    if s != "" && s[0] == '-' then 0 - ReadHundredths(s[1..])
    else
      var i := PointAt(s);
      var decimals := if i < |s| then s[i + 1..] else "";
      100 * Value(s[..i]) + if |decimals| == 1 then 10 * Value(decimals) else Value(decimals)
  }

  lemma {:induction false} DigitsValue(n: nat)
    ensures Value(Digits(n)) == n
    ensures n < 10 ==> |Digits(n)| == 1
  {
    if n < 10 {
      assert Digits(n)[..0] == "";
    } else {
      DigitsValue(n / 10);
      var front, last := Digits(n / 10), Digits(n % 10);
      assert (front + last)[..|front|] == front && (front + last)[|front|] == last[0];
    }
  }

  lemma {:induction false} PointAfter(whole: string, rest: string)
    requires forall i :: 0 <= i < |whole| ==> whole[i] != '.'
    requires rest == "" || rest[0] == '.'
    ensures PointAt(whole + rest) == |whole|
  {
    if whole != "" {
      assert (whole + rest)[1..] == whole[1..] + rest;
      PointAfter(whole[1..], rest);
    } else {
      assert whole + rest == rest;
    }
  }

  lemma ReadWhole(whole: string, rest: string)
    requires whole != "" && forall i :: 0 <= i < |whole| ==> '0' <= whole[i] <= '9'
    requires rest == "" || rest[0] == '.'
    ensures var decimals := if rest == "" then "" else rest[1..];
            ReadHundredths(whole + rest) == 100 * Value(whole) + if |decimals| == 1 then 10 * Value(decimals) else Value(decimals)
  {
    PointAfter(whole, rest);
    var s := whole + rest;
    assert s[0] == whole[0] && s[..|whole|] == whole;
    if rest != "" {
      assert s[|whole| + 1..] == rest[1..];
    }
  }

  lemma TwoDigits(d1: string, d2: string)
    requires |d1| == |d2| == 1
    ensures Value(d1 + d2) == 10 * Value(d1) + Value(d2)
  {
    assert (d1 + d2)[..1] == d1 && d1[..0] == "" && d2[..0] == "";
  }

  lemma DecimalsRead(p: nat)
    ensures var d := if Decimals(p) == "" then "" else Decimals(p)[1..];
            (if |d| == 1 then 10 * Value(d) else Value(d)) == p % 100
  {
    var d1, d2 := Digits(p % 100 / 10), Digits(p % 10);
    DigitsValue(p % 100 / 10);
    DigitsValue(p % 10);
    TwoDigits(d1, d2);
    assert ("." + d1)[1..] == d1 && ("." + (d1 + d2))[1..] == d1 + d2;
    hide Digits;
  }

  lemma NonNegativeReads(p: nat)
    ensures ReadHundredths(Show(p)) == p
  {
    DigitsValue(p / 100);
    DecimalsRead(p);
    ReadWhole(Digits(p / 100), Decimals(p));
    hide Digits, Decimals, Value, ReadHundredths;
  }

  /** The text of a number reads back as that number. */
  lemma ShowReads(p: int)
    ensures ReadHundredths(Show(p)) == p
  {
    hide Digits, Decimals, ReadHundredths;
    if p < 0 {
      NonNegativeReads(-p);
      ReadMinus(Show(-p));
      assert Show(p) == "-" + Show(-p);
    } else {
      NonNegativeReads(p);
    }
  }

  lemma ReadMinus(t: string)
    ensures ReadHundredths("-" + t) == 0 - ReadHundredths(t)
  {
    hide Value, PointAt;
    assert ("-" + t)[1..] == t;
  }

  lemma ShowStarts(p: int)
    ensures Show(p) != "" && Show(p)[0] != '+'
  {}

  /** The number that such a text denotes. */
  function ReadPoint(text: string): int {
    ReadHundredths(if text != "" && text[0] == '+' then text[1..] else text)
  }

  /** A label is the outcome's name, followed by its point if it has one; the point can be read back, and has
      a plus sign exactly when it is positive and the outcome is neither over nor under. */
  lemma LabelMeans(o: Outcome)
    ensures o.point == None ==> SelectionLabel(o) == o.name
    ensures o.point != None ==> SelectionLabel(o) == o.name + (" " + PointText(o)) && ReadPoint(PointText(o)) == o.point.value
    ensures o.point != None ==>
              (PointText(o) != "" && PointText(o)[0] == '+'
               <==> o.point.value > 0 && !Contains(Lower(o.name), "over") && !Contains(Lower(o.name), "under"))
  {
    if o.point.Some? {
      ShowReads(o.point.value);
      ShowStarts(o.point.value);
      hide Contains, Show, ReadHundredths;
      assert ("+" + Show(o.point.value))[1..] == Show(o.point.value);
    }
  }

  lemma SameSuffix(front: string, t1: string, t2: string)
    requires front + t1 == front + t2
    ensures t1 == t2
  {
    assert (front + t1)[|front|..] == t1 && (front + t2)[|front|..] == t2;
  }

  /** Different points of one name have different labels. */
  lemma LabelsTellPointsApart(o1: Outcome, o2: Outcome)
    requires o1.name == o2.name && o1.point.Some? && o2.point.Some? && SelectionLabel(o1) == SelectionLabel(o2)
    ensures o1.point == o2.point
  {
    LabelMeans(o1);
    LabelMeans(o2);
    hide *;
    SameSuffix(o1.name, " " + PointText(o1), " " + PointText(o2));
    SameSuffix(" ", PointText(o1), PointText(o2));
  }
}
