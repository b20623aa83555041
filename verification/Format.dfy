/** The display of large counts (format in api/templates/index_templ.go). */
module Format {

  const UINT64 := 0x1_0000_0000_0000_0000
  const SUFFIXES := " kMGTPEZYRQ"

  function Pow10(n: nat): (p: nat)
    ensures p >= 1
  {
    if n == 0 then 1 else 10 * Pow10(n - 1)
  }

  function Digit(d: nat): char
    requires d < 10
  {
    '0' + d as char
  }

  /** fmt.Sprintf("%d", i) */
  function Decimal(i: nat): (s: string)
    ensures |s| >= 1
  {
    if i < 10 then [Digit(i)] else Decimal(i / 10) + [Digit(i % 10)]
  }

  /** What a string of digits is read as. */
  function Value(s: string): nat {
    if s == "" then 0
    else 10 * Value(s[..|s| - 1]) + (if '0' <= s[|s| - 1] <= '9' then (s[|s| - 1] - '0') as nat else 0)
  }

  lemma {:induction false} DecimalSize(i: nat)
    ensures i < Pow10(|Decimal(i)|) && (i > 0 ==> Pow10(|Decimal(i)| - 1) <= i)
  {
    if i >= 10 { DecimalSize(i / 10); }
  }

  lemma {:induction false} Pow10Monotone(m: nat, n: nat)
    ensures m <= n ==> Pow10(m) <= Pow10(n)
  {
    if m < n { Pow10Monotone(m, n - 1); }
  }

  lemma {:induction false} Pow10Sum(m: nat, n: nat)
    ensures Pow10(m + n) == Pow10(m) * Pow10(n)
  {
    if m > 0 { Pow10Sum(m - 1, n); }
  }

  lemma Pow10Values()
    ensures Pow10(1) == 10 && Pow10(3) == 1000 && Pow10(4) == 10000 && Pow10(20) == 100000000000000000000
  {
    assert Pow10(2) == 100;
    assert Pow10(5) == 100000;
    Pow10Sum(5, 5);
    Pow10Sum(10, 10);
  }

  /** The powers of ten around a number tell how many digits it has. */
  lemma SizeBelow(i: nat, n: nat)
    requires i < Pow10(n) && n >= 1
    ensures |Decimal(i)| <= n
  {
    DecimalSize(i);
    Pow10Monotone(n, |Decimal(i)| - 1);
  }

  lemma SizeAbove(i: nat, n: nat)
    requires Pow10(n) <= i
    ensures |Decimal(i)| > n
  {
    DecimalSize(i);
    Pow10Monotone(|Decimal(i)|, n);
  }

  /** A uint64 has at most twenty digits. */
  lemma Uint64Digits(i: nat)
    requires i < UINT64
    ensures |Decimal(i)| <= 20
  {
    Pow10Values();
    SizeBelow(i, 20);
  }

  lemma MulMonotone(a: int, b: int, p: nat)
    ensures a <= b ==> a * p <= b * p
  {
    assert b * p - a * p == (b - a) * p;
  }

  /** v is what is left of i when it is cut down to whole units of p. */
  predicate Cut(i: nat, p: nat, v: nat) {
    v * p <= i < (v + 1) * p
  }

  lemma TenTimes(q: nat, p: nat)
    ensures q * (10 * p) == 10 * (q * p)
  {
  }

  lemma CutTen(i: nat, p: nat, v: nat)
    requires Cut(i / 10, p, v)
    ensures Cut(i, 10 * p, v)
  {
    TenTimes(v, p);
    TenTimes(v + 1, p);
  }

  /** Cutting keeps the order. */
  lemma CutOrder(i: nat, j: nat, p: nat, v: nat, w: nat)
    requires Cut(i, p, v) && Cut(j, p, w) && i <= j
    ensures v * p <= w * p
  {
    MulMonotone(w + 1, v, p);
    MulMonotone(v, w, p);
  }

  /** Cutting keeps bounds that are whole units. */
  lemma CutBounds(i: nat, p: nat, v: nat, lo: nat, hi: nat)
    requires Cut(i, p, v) && lo * p <= i < hi * p
    ensures lo <= v < hi
  {
    MulMonotone(v + 1, lo, p);
    MulMonotone(hi, v, p);
  }

  /** Reading a prefix of the digits cuts the number at the power of ten dropped. */
  lemma {:induction false} PrefixValue(i: nat, k: nat)
    requires 1 <= k <= |Decimal(i)|
    ensures Cut(i, Pow10(|Decimal(i)| - k), Value(Decimal(i)[..k]))
    ensures k == |Decimal(i)| ==> Value(Decimal(i)) == i
  {
    var s := Decimal(i);
    if i < 10 {
      assert s[..1] == s && s[..0] == "";
    } else if k == |s| {
      PrefixValue(i / 10, |s| - 1);
      assert s[..k] == s && s[..|s| - 1] == Decimal(i / 10);
    } else {
      PrefixValue(i / 10, k);
      assert s[..k] == Decimal(i / 10)[..k];
      CutTen(i, Pow10(|s| - 1 - k), Value(s[..k]));
    }
  }

  /** How many thousands the display divides by: the index of its suffix. */
  function Thousands(i: nat): nat {
    (|Decimal(i)| - 1) / 3
  }

  /** The digits shown before the point. */
  function Lead(i: nat): (k: nat)
    ensures 1 <= k <= 3 && |Decimal(i)| == 3 * Thousands(i) + k
  {
    (|Decimal(i)| - 1) % 3 + 1
  }

  function Show(i: nat): string
    requires i < UINT64
  {
    Uint64Digits(i);
    var s := Decimal(i);
    var d := (|s| - 1) / 3;
    var digits := s[..(|s| - 1) % 3 + 1];
    var suffix := SUFFIXES[d..d + 1];
    if suffix == " " then digits
    else digits + "." + [s[(|s| - 1) % 3 + 1]] + suffix
  }

  /** The index of a suffix letter, or 0. */
  function SuffixIndex(c: char): nat {
    if c == 'k' then 1 else if c == 'M' then 2 else if c == 'G' then 3 else if c == 'T' then 4
    else if c == 'P' then 5 else if c == 'E' then 6 else 0
  }

  /** The number a reader takes the displayed text for: "12.3k" is 12300. */
  function Denoted(text: string): nat {
    var n := |text|;
    if n >= 4 && text[n - 3] == '.' && SuffixIndex(text[n - 1]) > 0 then
      Value(text[..n - 3] + [text[n - 2]]) * Pow10(3 * SuffixIndex(text[n - 1]) - 1)
    else Value(text)
  }

  lemma ThousandsPositive(i: nat)
    ensures Thousands(i) == 0 <==> i < 1000
  {
    Pow10Values();
    if i < 1000 { SizeBelow(i, 3); } else { SizeAbove(i, 3); }
  }

  /** The unit of the last digit shown. */
  function Unit(i: nat): (u: nat)
    ensures u >= 1
  {
    if Thousands(i) == 0 then 1 else Pow10(3 * Thousands(i) - 1)
  }

  lemma SmallShown(i: nat)
    requires i < 1000
    ensures |Show(i)| <= 3 && Denoted(Show(i)) == i
  {
    ThousandsPositive(i);
    PrefixValue(i, |Decimal(i)|);
    SmallText(Decimal(i), i);
  }

  lemma SmallText(s: string, i: nat)
    requires s == Decimal(i) && |s| <= 3 && i < UINT64
    ensures Show(i) == s
  {
    assert SUFFIXES[0..1] == " ";
    assert s[..|s|] == s;
  }

  lemma SuffixShown(d: nat)
    requires 1 <= d <= 6
    ensures SuffixIndex(SUFFIXES[d]) == d && SUFFIXES[d..d + 1] == [SUFFIXES[d]] && SUFFIXES[d] != ' '
  {
  }

  /** What a reader takes digits, a decimal and a suffix for. */
  lemma DenotedLarge(digits: string, decimal: char, d: nat)
    requires digits != "" && 1 <= d <= 6
    ensures Denoted(digits + "." + [decimal] + [SUFFIXES[d]]) == Value(digits + [decimal]) * Pow10(3 * d - 1)
  {
    SuffixShown(d);
    var text := digits + "." + [decimal] + [SUFFIXES[d]];
    assert text[..|text| - 3] == digits && text[|text| - 3] == '.' && text[|text| - 2] == decimal;
  }

  lemma ShowLarge(i: nat, s: string, d: nat, k: nat)
    requires i < UINT64 && s == Decimal(i) && d == Thousands(i) && k == Lead(i) && d >= 1
    ensures d <= 6 && k < |s| && Show(i) == s[..k] + "." + [s[k]] + [SUFFIXES[d]]
  {
    Uint64Digits(i);
    SuffixShown(d);
    assert SUFFIXES[d..d + 1] != " " by { assert SUFFIXES[d..d + 1][0] != ' '; }
  }

  lemma ShownValue(i: nat, s: string, d: nat, k: nat)
    requires i < UINT64 && s == Decimal(i) && d == Thousands(i) && k == Lead(i) && d >= 1
    ensures k < |s| && Denoted(Show(i)) == Value(s[..k + 1]) * Unit(i)
  {
    ShowLarge(i, s, d, k);
    DigitsShown(s, k, d);
    assert Unit(i) == Pow10(3 * d - 1);
  }

  lemma DigitsShown(s: string, k: nat, d: nat)
    requires 1 <= k < |s| && 1 <= d <= 6
    ensures Denoted(s[..k] + "." + [s[k]] + [SUFFIXES[d]]) == Value(s[..k + 1]) * Pow10(3 * d - 1)
  {
    DenotedLarge(s[..k], s[k], d);
    assert s[..k] + [s[k]] == s[..k + 1];
  }

  /** The size of the number, by the digits before the point and the thousands. */
  lemma SizeBounds(i: nat, s: string, k: nat, e: nat)
    requires s == Decimal(i) && |s| == k + 1 + e
    ensures Pow10(k + e) <= i < Pow10(k + 1 + e) || i == 0
  {
    DecimalSize(i);
  }

  lemma LeadBounds(i: nat, k: nat, e: nat, m: nat)
    requires 1 <= k <= 3 && Pow10(k + e) <= i < Pow10(k + 1 + e) && Cut(i, Pow10(e), m)
    ensures 10 <= m < 10000
  {
    Pow10Values();
    Pow10Sum(k, e);
    Pow10Sum(k + 1, e);
    Pow10Monotone(1, k);
    Pow10Monotone(k + 1, 4);
    CutBounds(i, Pow10(e), m, Pow10(k), Pow10(k + 1));
  }

  lemma PrefixCut(i: nat, s: string, k: nat, e: nat)
    requires s == Decimal(i) && k >= 1 && k + e == |s|
    ensures Cut(i, Pow10(e), Value(s[..k]))
  {
    PrefixValue(i, k);
  }

  lemma ShownCut(i: nat, s: string, d: nat, k: nat, m: nat)
    requires i >= 1000 && s == Decimal(i) && d == Thousands(i) >= 1 && k == Lead(i) && m == Value(s[..k + 1])
    ensures Cut(i, Unit(i), m) && 10 <= m < 10000
  {
    PrefixCut(i, s, k + 1, 3 * d - 1);
    SizeBounds(i, s, k, 3 * d - 1);
    LeadBounds(i, k, 3 * d - 1, m);
  }

  /** The significant digits shown, as a number. */
  lemma LargeShown(i: nat) returns (m: nat)
    requires 1000 <= i < UINT64
    ensures Denoted(Show(i)) == m * Unit(i) && Cut(i, Unit(i), m) && 10 <= m < 10000
  {
    var s, d, k := Decimal(i), Thousands(i), Lead(i);
    ThousandsPositive(i);
    m := Value(s[..k + 1]);
    ShownValue(i, s, d, k);
    ShownCut(i, s, d, k, m);
  }

  /** The text shown for any count never overstates it and is short of it by less
      than one unit of its last digit; below a thousand it is exact, and from there
      on it shows two to four significant digits m. */
  lemma DisplayBound(i: nat)
    requires i < UINT64
    ensures if i < 1000 then Denoted(Show(i)) == i
            else exists m :: 10 <= m < 10000 && Denoted(Show(i)) == m * Unit(i) <= i < (m + 1) * Unit(i)
  {
    if i < 1000 {
      SmallShown(i);
    } else {
      var m := LargeShown(i);
    }
  }

  lemma ShownIn(i: nat, u: nat) returns (m: nat)
    requires 1000 <= i < UINT64 && u == Unit(i)
    ensures Denoted(Show(i)) == m * u && Cut(i, u, m)
  {
    m := LargeShown(i);
  }

  lemma SameScale(i: nat, j: nat, u: nat)
    requires 1000 <= i <= j < UINT64 && Unit(i) == Unit(j) == u
    ensures Denoted(Show(i)) <= Denoted(Show(j))
  {
    var m := ShownIn(i, u);
    var n := ShownIn(j, u);
    CutOrder(i, j, u, m, n);
  }

  /** A count with fewer groups of three digits is below ten units of the larger one. */
  lemma SmallerScale(i: nat, j: nat)
    requires i <= j && 1000 <= j && Thousands(i) != Thousands(j)
    ensures i < 10 * Unit(j)
  {
    DecimalSize(i);
    DecimalSize(j);
    ThousandsPositive(j);
    var t := 3 * Thousands(j);
    assert Pow10(t) == 10 * Unit(j);
    Pow10Monotone(|Decimal(i)|, t);
    Pow10Monotone(|Decimal(j)|, |Decimal(i)| - 1);
  }

  lemma ShownAbove(j: nat)
    requires 1000 <= j < UINT64
    ensures 10 * Unit(j) <= Denoted(Show(j))
  {
    var n := LargeShown(j);
    MulMonotone(10, n, Unit(j));
  }

  /** A larger count is never shown as a smaller number. */
  lemma DisplayMonotone(i: nat, j: nat)
    requires i <= j < UINT64
    ensures Denoted(Show(i)) <= Denoted(Show(j))
  {
    ThousandsPositive(i);
    ThousandsPositive(j);
    if j < 1000 {
      SmallShown(i);
      SmallShown(j);
    } else if Thousands(i) == Thousands(j) {
      SameScale(i, j, Unit(j));
    } else {
      DisplayBound(i);
      SmallerScale(i, j);
      ShownAbove(j);
    }
  }
}
