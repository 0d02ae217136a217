/**
 Number formatting used by the Stats panel: `Math.round`, `toFixed(0)`, the
 decimal string of a whole number, and `numberWithCommas`.
 */
module Format {

  /** `Math.round` on an exact rational: the nearest integer, halves rounding up. */
  function Round(x: real): (r: int)
    ensures x - 0.5 < r as real <= x + 0.5
  {
    (x + 0.5).Floor
  }

  /** There is only one integer within half a unit (halves going up), so `Round` is determined by its contract. */
  lemma RoundUnique(x: real, n: int)
    requires x - 0.5 < n as real <= x + 0.5
    ensures Round(x) == n
  {
  }

  /** Rounding an integer gives it back. */
  lemma RoundInteger(n: int)
    ensures Round(n as real) == n
  {
    RoundUnique(n as real, n);
  }

  predicate IsDigit(c: char)
  {
    '0' <= c <= '9'
  }

  predicate AllDigits(s: string)
  {
    forall i :: 0 <= i < |s| ==> IsDigit(s[i])
  }

  function DigitChar(d: nat): (c: char)
    requires d < 10
    ensures IsDigit(c)
  {
    ['0', '1', '2', '3', '4', '5', '6', '7', '8', '9'][d]
  }

  function DigitValue(c: char): nat
    requires IsDigit(c)
  {
    (c as int - '0' as int) as nat
  }

  /** `toString` of a whole number: its decimal digits, without leading zeros. */
  function Digits(n: nat): (r: string)
    ensures 1 <= |r|
    ensures AllDigits(r)
    ensures |r| > 1 ==> r[0] != '0'
    decreases n
  {
    if n < 10 then [DigitChar(n)] else Digits(n / 10) + [DigitChar(n % 10)]
  }

  /** The number a digit string denotes. */
  function ValueOf(s: string): nat
    requires AllDigits(s)
  {
    if s == [] then 0 else 10 * ValueOf(s[..|s| - 1]) + DigitValue(s[|s| - 1])
  }

  /** Reading back the decimal string of `n` gives `n`. */
  lemma {:induction false} DigitsRoundTrip(n: nat)
    ensures ValueOf(Digits(n)) == n
    decreases n
  {
    var d := Digits(n);
    if n < 10 {
      assert d[..|d| - 1] == [];
    } else {
      assert d[..|d| - 1] == Digits(n / 10);
      DigitsRoundTrip(n / 10);
    }
  }

  /**
   `toFixed(0)` of a finite number below 10^21: the sign when negative, then
   the digits of the magnitude rounded to the nearest integer, halves up.
   */
  function Fixed0(x: real): (r: string)
    ensures x >= 0.0 ==> r == Digits(Round(x))
    ensures x < 0.0 ==> r == "-" + Digits(Round(-x))
    ensures IsNumeral(r)
  {
    if x < 0.0 then
      var d := Digits(Round(-x));
      assert ("-" + d)[1..] == d;
      "-" + d
    else Digits(Round(x))
  }

  /** Every character of `s` except the commas, in order. */
  function RemoveCommas(s: string): (r: string)
    ensures |r| <= |s|
  {
    if s == [] then []
    else if s[|s| - 1] == ',' then RemoveCommas(s[..|s| - 1])
    else RemoveCommas(s[..|s| - 1]) + [s[|s| - 1]]
  }

  /** Removing commas distributes over concatenation. */
  lemma {:induction false} RemoveCommasAppend(a: string, b: string)
    ensures RemoveCommas(a + b) == RemoveCommas(a) + RemoveCommas(b)
    decreases |b|
  {
    if b == [] {
      assert a + b == a;
    } else {
      var b' := b[..|b| - 1];
      assert (a + b)[..|a + b| - 1] == a + b';
      RemoveCommasAppend(a, b');
    }
  }

  /** A string without commas is left as it is. */
  lemma {:induction false} RemoveCommasNone(s: string)
    requires forall i :: 0 <= i < |s| ==> s[i] != ','
    ensures RemoveCommas(s) == s
    decreases |s|
  {
    if s != [] {
      RemoveCommasNone(s[..|s| - 1]);
    }
  }

  /** Commas sit exactly where a multiple of four characters remains, counting the comma itself. */
  predicate CommasEveryFourth(r: string)
  {
    forall j :: 0 <= j < |r| ==> (r[j] == ',' <==> (|r| - j) % 4 == 0)
  }

  /**
   The regular-expression replacement `\B(?=(\d{3})+(?!\d))` on a run of
   digits: a comma goes in at every inner position followed by a positive
   multiple of three digits.
   */
  function GroupThousands(ds: string): (r: string)
    requires AllDigits(ds)
    ensures RemoveCommas(r) == ds
    ensures |ds| > 0 ==> |r| == |ds| + (|ds| - 1) / 3
    ensures CommasEveryFourth(r)
    ensures forall j :: 0 <= j < |r| && r[j] != ',' ==> IsDigit(r[j])
    ensures |ds| > 0 ==> r[0] == ds[0]
    decreases |ds|
  {
    if |ds| <= 3 then
      DigitsHaveNoCommas(ds);
      ShortRunLayout(ds);
      ds
    else
      var front := ds[..|ds| - 3];
      var tail := ds[|ds| - 3..];
      assert AllDigits(front) && AllDigits(tail);
      var head := GroupThousands(front);
      GroupAppend(front, head, tail);
      assert front + tail == ds;
      head + "," + tail
  }

  /** A run of digits has no comma to remove. */
  lemma DigitsHaveNoCommas(ds: string)
    requires AllDigits(ds)
    ensures RemoveCommas(ds) == ds
  {
    RemoveCommasNone(ds);
  }

  /** A run of at most three digits is already grouped: no comma is due and none is present. */
  lemma ShortRunLayout(ds: string)
    requires AllDigits(ds) && |ds| <= 3
    ensures |ds| > 0 ==> (|ds| - 1) / 3 == 0
    ensures CommasEveryFourth(ds)
  {
  }

  /** Grouping `front`, then a comma and the last three digits, groups `front + tail`. */
  lemma GroupAppend(front: string, head: string, tail: string)
    requires |front| > 0 && |tail| == 3 && AllDigits(tail)
    requires RemoveCommas(head) == front
    requires |head| == |front| + (|front| - 1) / 3
    requires CommasEveryFourth(head)
    requires forall j :: 0 <= j < |head| && head[j] != ',' ==> IsDigit(head[j])
    requires head[0] == front[0]
    ensures RemoveCommas(head + "," + tail) == front + tail
    ensures |head + "," + tail| == |front + tail| + (|front + tail| - 1) / 3
    ensures CommasEveryFourth(head + "," + tail)
    ensures forall j :: 0 <= j < |head + "," + tail| && (head + "," + tail)[j] != ',' ==> IsDigit((head + "," + tail)[j])
    ensures (head + "," + tail)[0] == (front + tail)[0]
  {
    GroupStep(head, tail);
    RemovesCommaBetween(head, tail);
  }

  /** Removing the commas of `head + "," + tail`, with no comma in `tail`. */
  lemma RemovesCommaBetween(head: string, tail: string)
    requires forall j :: 0 <= j < |tail| ==> tail[j] != ','
    ensures RemoveCommas(head + "," + tail) == RemoveCommas(head) + tail
  {
    RemoveCommasAppend(head + ",", tail);
    RemoveCommasAppend(head, ",");
    RemoveCommasNone(tail);
    assert ","[..0] == [];
  }

  /** Appending a comma and three digits keeps commas every fourth character and digits elsewhere. */
  lemma GroupStep(head: string, tail: string)
    requires CommasEveryFourth(head)
    requires forall j :: 0 <= j < |head| && head[j] != ',' ==> IsDigit(head[j])
    requires |tail| == 3 && AllDigits(tail)
    ensures CommasEveryFourth(head + "," + tail)
    ensures forall j :: 0 <= j < |head + "," + tail| && (head + "," + tail)[j] != ',' ==> IsDigit((head + "," + tail)[j])
  {
    var r := head + "," + tail;
    forall j | 0 <= j < |r|
      ensures r[j] == ',' <==> (|r| - j) % 4 == 0
      ensures r[j] != ',' ==> IsDigit(r[j])
    {
      if j < |head| {
        assert r[j] == head[j];
        assert |r| - j == (|head| - j) + 4;
      } else if j > |head| {
        assert r[j] == tail[j - |head| - 1];
        assert 1 <= |r| - j <= 3;
      }
    }
  }

  /** A decimal numeral as `toString` and `toFixed` produce it: an optional minus, then digits. */
  predicate IsNumeral(s: string)
  {
    if |s| > 0 && s[0] == '-' then |s| > 1 && AllDigits(s[1..]) else |s| > 0 && AllDigits(s)
  }

  /**
   `numberWithCommas` on the string of a number: a leading minus stays in
   front (the position after it is a word boundary, so no comma goes there),
   and the digits are grouped by thousands.
   */
  function NumberWithCommas(s: string): (r: string)
    requires IsNumeral(s)
    ensures RemoveCommas(r) == s
    ensures s[0] == '-' <==> r[0] == '-'
    ensures s[0] != '-' ==> CommasEveryFourth(r) && |r| == |s| + (|s| - 1) / 3
    ensures s[0] == '-' ==> CommasEveryFourth(r[1..]) && |r| == |s| + (|s| - 2) / 3
    ensures forall j :: 0 < j < |r| && r[j] != ',' ==> IsDigit(r[j])
  {
    if s[0] == '-' then
      var g := GroupThousands(s[1..]);
      SignKept(g);
      assert s == "-" + s[1..];
      "-" + g
    else
      GroupThousands(s)
  }

  /** A leading minus survives comma removal, and the rest of the string sits one place further on. */
  lemma SignKept(g: string)
    ensures RemoveCommas("-" + g) == "-" + RemoveCommas(g)
    ensures ("-" + g)[1..] == g
    ensures forall j :: 0 < j < |"-" + g| ==> ("-" + g)[j] == g[j - 1]
  {
    RemoveCommasAppend("-", g);
    MinusHasNoComma();
  }

  /** The one-character string `-` has no comma to remove. */
  lemma MinusHasNoComma()
    ensures RemoveCommas("-") == "-"
  {
    assert "-"[..0] == [];
    assert RemoveCommas("-"[..0]) == [];
  }

  /** Between two positions a multiple of four apart, the three in the middle are not a multiple of four from the end. */
  lemma CommaSpacing(r: string, j: int)
    requires CommasEveryFourth(r)
    requires forall k :: 0 <= k < |r| && r[k] != ',' ==> IsDigit(r[k])
    requires 0 <= j < |r| && (|r| - j) % 4 == 0
    ensures j + 4 <= |r| && AllDigits(r[j + 1..j + 4]) && (j + 4 == |r| || r[j + 4] == ',')
  {
    var m := |r| - j;
    assert m >= 4;
    assert (m - 1) % 4 == 3 && (m - 2) % 4 == 2 && (m - 3) % 4 == 1;
    assert r[j + 1] != ',' && r[j + 2] != ',' && r[j + 3] != ',';
    if j + 4 < |r| {
      assert (m - 4) % 4 == 0;
    }
  }

  /** Every comma is followed by exactly three digits and then either the end or another comma. */
  predicate ThreeDigitGroups(r: string)
  {
    forall j :: 0 <= j < |r| && r[j] == ',' ==>
      j + 4 <= |r| && AllDigits(r[j + 1..j + 4]) && (j + 4 == |r| || r[j + 4] == ',')
  }

  /**
   The grouping of a whole number's digits: commas removed give back its
   decimal string, it does not start with a comma, a comma stands exactly
   where a multiple of four characters remains (so the first group has one
   to three digits), and every group after the first has exactly three.
   */
  lemma WithCommasOfNatural(n: nat)
    ensures RemoveCommas(NumberWithCommas(Digits(n))) == Digits(n)
    ensures NumberWithCommas(Digits(n))[0] != ','
    ensures CommasEveryFourth(NumberWithCommas(Digits(n)))
    ensures |NumberWithCommas(Digits(n))| == |Digits(n)| + (|Digits(n)| - 1) / 3
    ensures ThreeDigitGroups(NumberWithCommas(Digits(n)))
  {
    var ds := Digits(n);
    var r := NumberWithCommas(ds);
    assert r == GroupThousands(ds);
    EveryFourthMakesGroups(r);
  }

  /** Commas every fourth character from the end, digits elsewhere: every comma opens a group of three. */
  lemma EveryFourthMakesGroups(r: string)
    requires CommasEveryFourth(r)
    requires forall k :: 0 <= k < |r| && r[k] != ',' ==> IsDigit(r[k])
    ensures ThreeDigitGroups(r)
  {
    forall j | 0 <= j < |r| && r[j] == ','
      ensures j + 4 <= |r| && AllDigits(r[j + 1..j + 4]) && (j + 4 == |r| || r[j + 4] == ',')
    {
      CommaSpacing(r, j);
    }
  }
}
