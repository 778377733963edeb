// The item identifier "SKU-%04d" (1-based, zero-padded to four digits) and
// the order in which such strings compare, character by character as
// Python's `<` on str does.

module Labels {

  /** 10^w. */
  function Pow10(w: nat): (p: nat)
    ensures p >= 1
  {
    if w == 0 then 1 else 10 * Pow10(w - 1)
  }

  /** The character of a decimal digit. */
  function DigitChar(d: nat): (c: char)
    requires d < 10
    ensures '0' <= c <= '9'
  {
    ('0' as int + d) as char
  }

  /** The value of a digit character. */
  function DigitValue(c: char): (d: nat)
    requires '0' <= c <= '9'
    ensures d < 10 && DigitChar(d) == c
  {
    c as int - '0' as int
  }

  predicate AllDigits(s: string)
  {
    forall i :: 0 <= i < |s| ==> '0' <= s[i] <= '9'
  }

  /** The decimal form of a non-negative integer without padding, as `%d`
      prints it. */
  function Decimal(n: nat): (s: string)
    ensures 1 <= |s|
    ensures AllDigits(s)
  {
    if n < 10 then [DigitChar(n)] else Decimal(n / 10) + [DigitChar(n % 10)]
  }

  /** The number a string of digits denotes (leading zeros allowed). */
  function DecimalValue(s: string): nat
    requires AllDigits(s)
  {
    if s == [] then 0 else 10 * DecimalValue(s[..|s| - 1]) + DigitValue(s[|s| - 1])
  }

  /** k zero characters. */
  function Zeros(k: nat): (s: string)
    ensures |s| == k && AllDigits(s)
    ensures forall i :: 0 <= i < k ==> s[i] == '0'
  {
    if k == 0 then [] else Zeros(k - 1) + ['0']
  }

  /** `%0<width>d` padding: '0's on the left up to the width; a longer
      string is left as it is. */
  function ZeroPad(s: string, width: nat): (r: string)
    ensures |r| == if |s| >= width then |s| else width
    ensures AllDigits(s) ==> AllDigits(r)
  {
    if |s| >= width then s else Zeros(width - |s|) + s
  }

  /** The label of the item at 0-based position idx: "SKU-" and idx + 1 in
      at least four digits. */
  function SkuLabel(idx: nat): (s: string)
    ensures |s| >= 8 && s[..4] == "SKU-" && AllDigits(s[4..])
  {
    "SKU-" + ZeroPad(Decimal(idx + 1), 4)
  }

  /** Reads the 0-based position back from a label. */
  function SkuIndex(sku: string): int
    requires |sku| >= 4 && AllDigits(sku[4..])
  {
    DecimalValue(sku[4..]) - 1
  }

  /** Python's string order: the first differing character decides, and a
      proper prefix comes first. */
  predicate LexLess(s: string, t: string)
  {
    if |s| == 0 then |t| > 0
    else |t| > 0 && (s[0] < t[0] || (s[0] == t[0] && LexLess(s[1..], t[1..])))
  }

  // ---------------------------------------------------------------------
  // Round trip: the label determines the position

  lemma {:induction false} DecimalRoundTrip(n: nat)
    ensures DecimalValue(Decimal(n)) == n
    decreases n
  {
    if n >= 10 {
      var s := Decimal(n);
      DecimalRoundTrip(n / 10);
      assert s[..|s| - 1] == Decimal(n / 10);
    }
  }

  lemma {:induction false} LeadingZerosValue(k: nat, s: string)
    requires AllDigits(s)
    ensures AllDigits(Zeros(k) + s) && DecimalValue(Zeros(k) + s) == DecimalValue(s)
    decreases |s|
  {
    var z := Zeros(k) + s;
    if s == [] {
      assert z == Zeros(k);
      ZerosValue(k);
    } else {
      LeadingZerosValue(k, s[..|s| - 1]);
      assert z[..|z| - 1] == Zeros(k) + s[..|s| - 1];
    }
  }

  lemma {:induction false} ZerosValue(k: nat)
    ensures DecimalValue(Zeros(k)) == 0
  {
    if k > 0 {
      ZerosValue(k - 1);
      assert Zeros(k)[..k - 1] == Zeros(k - 1);
    }
  }

  /** Every label reads back as its own position, so distinct items never
      share a label, however many there are. */
  lemma SkuLabelRoundTrip(idx: nat)
    ensures SkuIndex(SkuLabel(idx)) == idx
  {
    var d := Decimal(idx + 1);
    var padded := ZeroPad(d, 4);
    assert SkuLabel(idx)[4..] == padded;
    DecimalRoundTrip(idx + 1);
    if |d| < 4 {
      LeadingZerosValue(4 - |d|, d);
    }
  }

  // ---------------------------------------------------------------------
  // Order: four-digit labels compare as their positions

  /** The last w decimal digits of n, most significant first. */
  function FixedDigits(n: nat, w: nat): (s: string)
    ensures |s| == w
  {
    if w == 0 then [] else FixedDigits(n / 10, w - 1) + [DigitChar(n % 10)]
  }

  lemma {:induction false} FixedZeros(w: nat)
    ensures FixedDigits(0, w) == Zeros(w)
  {
    if w > 0 {
      FixedZeros(w - 1);
    }
  }

  lemma ZeroPadAppend(s: string, c: char, w: nat)
    requires w >= 1
    ensures ZeroPad(s + [c], w) == ZeroPad(s, w - 1) + [c]
  {
    if |s| + 1 < w {
      assert Zeros(w - |s| - 1) + (s + [c]) == (Zeros(w - 1 - |s|) + s) + [c];
    }
  }

  /** For a number below 10^w, padding to width w gives exactly its last w
      digits. */
  lemma {:induction false} PaddedIsFixed(n: nat, w: nat)
    requires w >= 1 && n < Pow10(w)
    ensures ZeroPad(Decimal(n), w) == FixedDigits(n, w)
    decreases w
  {
    if n < 10 {
      FixedZeros(w - 1);
    } else {
      assert w >= 2;
      PaddedIsFixed(n / 10, w - 1);
      ZeroPadAppend(Decimal(n / 10), DigitChar(n % 10), w);
    }
  }

  lemma {:induction false} LexLessAppend(s: string, t: string, x: char, y: char)
    requires |s| == |t|
    requires LexLess(s, t) || (s == t && x < y)
    ensures LexLess(s + [x], t + [y])
    decreases |s|
  {
    if |s| > 0 && !(s[0] < t[0]) {
      LexLessAppend(s[1..], t[1..], x, y);
      assert (s + [x])[1..] == s[1..] + [x];
      assert (t + [y])[1..] == t[1..] + [y];
    }
  }

  /** Fixed-width digit strings compare as the numbers they denote. */
  lemma {:induction false} FixedDigitsOrder(a: nat, b: nat, w: nat)
    requires a < b < Pow10(w)
    ensures LexLess(FixedDigits(a, w), FixedDigits(b, w))
    decreases w
  {
    assert w >= 1;
    if a / 10 == b / 10 {
      LexLessAppend(FixedDigits(a / 10, w - 1), FixedDigits(b / 10, w - 1), DigitChar(a % 10), DigitChar(b % 10));
    } else {
      FixedDigitsOrder(a / 10, b / 10, w - 1);
      LexLessAppend(FixedDigits(a / 10, w - 1), FixedDigits(b / 10, w - 1), DigitChar(a % 10), DigitChar(b % 10));
    }
  }

  lemma {:induction false} LexLessCommonPrefix(p: string, s: string, t: string)
    requires LexLess(s, t)
    ensures LexLess(p + s, p + t)
    decreases |p|
  {
    if p != [] {
      LexLessCommonPrefix(p[1..], s, t);
      assert (p + s)[0] == p[0] == (p + t)[0];
      assert (p + s)[1..] == p[1..] + s;
      assert (p + t)[1..] == p[1..] + t;
    } else {
      assert p + s == s && p + t == t;
    }
  }

  /** While positions stay below 9999 (four-digit numbers), labels compare
      in position order. */
  lemma SkuLabelOrder(i: nat, j: nat)
    requires i < j < 9999
    ensures LexLess(SkuLabel(i), SkuLabel(j))
  {
    assert Pow10(4) == 10000;
    PaddedIsFixed(i + 1, 4);
    PaddedIsFixed(j + 1, 4);
    FixedDigitsOrder(i + 1, j + 1, 4);
    LexLessCommonPrefix("SKU-", ZeroPad(Decimal(i + 1), 4), ZeroPad(Decimal(j + 1), 4));
  }

  /** Past four digits the order breaks: "SKU-10000" sorts before
      "SKU-9999". */
  lemma LabelOrderBreaksPastFourDigits()
    ensures LexLess(SkuLabel(9999), SkuLabel(9998))
  {
    assert Decimal(1) == "1";
    assert Decimal(10) == "10";
    assert Decimal(100) == "100";
    assert Decimal(1000) == "1000";
    assert Decimal(10000) == "10000";
    assert Decimal(999) == "999";
    assert Decimal(9999) == "9999";
    assert LexLess("10000", "9999");
    LexLessCommonPrefix("SKU-", "10000", "9999");
  }

  // ---------------------------------------------------------------------
  // Order facts used by the sort

  lemma {:induction false} LexLessIrreflexive(s: string)
    ensures !LexLess(s, s)
    decreases |s|
  {
    if |s| > 0 {
      LexLessIrreflexive(s[1..]);
    }
  }

  lemma {:induction false} LexLessTransitive(a: string, b: string, c: string)
    requires LexLess(a, b) && LexLess(b, c)
    ensures LexLess(a, c)
    decreases |a|
  {
    if |a| > 0 && a[0] == b[0] && b[0] == c[0] {
      LexLessTransitive(a[1..], b[1..], c[1..]);
    }
  }

  /** Labels of positions below n increase in string order. */
  predicate LabelsIncrease(skuOf: nat -> string, n: nat)
  {
    forall i, j :: 0 <= i < j < n ==> LexLess(skuOf(i), skuOf(j))
  }

  /** Up to 9999 items, the labels increase with the position. */
  lemma SkuLabelsIncrease(n: nat)
    requires n <= 9999
    ensures LabelsIncrease(SkuLabel, n)
  {
    forall i, j | 0 <= i < j < n
      ensures LexLess(SkuLabel(i), SkuLabel(j))
    {
      SkuLabelOrder(i, j);
    }
  }

  /** Distinct positions get distinct labels, however many items there are. */
  lemma SkuLabelsDistinct(i: nat, j: nat)
    requires i != j
    ensures SkuLabel(i) != SkuLabel(j)
  {
    SkuLabelRoundTrip(i);
    SkuLabelRoundTrip(j);
  }
}
