/** String operations the sources lean on: decimal and zero-padded formatting
    (`Int.toString()`, `String.format("%02d")`, `String.format("%03d_")`),
    prefix and suffix tests, the last-delimiter splits of Kotlin's
    `substringAfterLast` / `substringBeforeLast`, `trim()` and the
    "delete every character outside a class" form of `Regex.replace`.
    Formatting assumes a locale whose digits are ASCII. */
module Text {
  import opened Options
  import opened Numeric

  predicate IsDigit(c: char) { '0' <= c <= '9' }

  predicate AllDigits(s: string) { forall i :: 0 <= i < |s| ==> IsDigit(s[i]) }

  function DigitValue(c: char): nat
    requires IsDigit(c)
  {
    c as int - '0' as int
  }

  function DigitChar(d: nat): (c: char)
    requires d < 10
    ensures IsDigit(c) && DigitValue(c) == d
  {
    ('0' as int + d) as char
  }

  /** The value of a string of decimal digits (leading zeros allowed). */
  function ValueOf(s: string): nat
    requires AllDigits(s)
    decreases |s|
  {
    if s == [] then 0 else 10 * ValueOf(s[..|s| - 1]) + DigitValue(s[|s| - 1])
  }

  /** Read from the front: the first digit weighs 10^(k-1). */
  lemma {:induction false} ValueOfFront(d: string)
    requires AllDigits(d) && d != []
    ensures ValueOf(d) == DigitValue(d[0]) * Pow10(|d| - 1) + ValueOf(d[1..])
    decreases |d|
  {
    if |d| == 1 {
      assert d[..0] == [] && d[1..] == [];
    } else {
      var init := d[..|d| - 1];
      var tail := d[1..];
      ValueOfFront(init);
      var v0, p, last := DigitValue(d[0]), Pow10(|d| - 2), DigitValue(d[|d| - 1]);
      var mid := ValueOf(init[1..]);
      assert ValueOf(init) == v0 * p + mid;
      assert tail[..|tail| - 1] == init[1..] && tail[|tail| - 1] == d[|d| - 1];
      assert ValueOf(tail) == 10 * mid + last;
      assert Pow10(|d| - 1) == 10 * p;
      MulSwap(10, v0, p);
      assert ValueOf(d) == 10 * (v0 * p) + (10 * mid + last);
    }
  }

  function Pow10(k: nat): (p: nat)
    ensures p >= 1
  {
    if k == 0 then 1 else 10 * Pow10(k - 1)
  }

  /** `Int.toString()` / `"$n"` of a non-negative value. */
  function Decimal(n: nat): (s: string)
    ensures 1 <= |s| && AllDigits(s)
    decreases n
  {
    if n < 10 then [DigitChar(n)] else Decimal(n / 10) + [DigitChar(n % 10)]
  }

  /** Printing and reading back decimal digits gives the number again. */
  lemma {:induction false} DecimalRoundTrip(n: nat)
    ensures ValueOf(Decimal(n)) == n
  {
    if n >= 10 {
      DecimalRoundTrip(n / 10);
      var s := Decimal(n);
      assert s[..|s| - 1] == Decimal(n / 10);
    }
  }

  /** A number below 10^k needs at most k digits. */
  lemma {:induction false} DecimalLength(n: nat, k: nat)
    requires 1 <= k && n < Pow10(k)
    ensures |Decimal(n)| <= k
  {
    if n >= 10 {
      assert k >= 2;
      DecimalLength(n / 10, k - 1);
    }
  }

  function Zeros(k: nat): (s: string)
    ensures |s| == k && AllDigits(s)
    ensures forall i :: 0 <= i < k ==> s[i] == '0'
  {
    seq(k, _ => '0')
  }

  /** `String.format("%0<width>d", n)` for a non-negative `n`: the decimal
      digits of `n`, left-padded with zeros to at least `width` characters. */
  function ZeroPad(n: nat, width: nat): (s: string)
    ensures AllDigits(s) && |s| >= width
  {
    var d := Decimal(n);
    if |d| >= width then d else Zeros(width - |d|) + d
  }

  lemma {:induction false} LeadingZerosValue(k: nat, d: string)
    requires AllDigits(d)
    ensures ValueOf(Zeros(k) + d) == ValueOf(d)
    decreases |d|
  {
    if d == [] {
      assert Zeros(k) + d == Zeros(k);
      ZerosValue(k);
    } else {
      var t := Zeros(k) + d;
      assert t[..|t| - 1] == Zeros(k) + d[..|d| - 1];
      LeadingZerosValue(k, d[..|d| - 1]);
    }
  }

  lemma {:induction false} ZerosValue(k: nat)
    ensures ValueOf(Zeros(k)) == 0
  {
    if k > 0 {
      assert Zeros(k)[..k - 1] == Zeros(k - 1);
      ZerosValue(k - 1);
    }
  }

  /** Zero padding does not change the value read back, and a number below
      10^width is padded to exactly `width` characters. */
  lemma ZeroPadFacts(n: nat, width: nat)
    ensures ValueOf(ZeroPad(n, width)) == n
    ensures 1 <= width && n < Pow10(width) ==> |ZeroPad(n, width)| == width
  {
    DecimalRoundTrip(n);
    LeadingZerosValue(if |Decimal(n)| >= width then 0 else width - |Decimal(n)|, Decimal(n));
    assert Zeros(0) + Decimal(n) == Decimal(n);
    if 1 <= width && n < Pow10(width) {
      DecimalLength(n, width);
    }
  }

  /** `String.format("%0<width>d", n)` for any Int: a minus sign, then the
      magnitude zero-padded so that sign and digits fill `width`. */
  function FormatPadded(n: int, width: nat): string
  {
    if n >= 0 then ZeroPad(n, width)
    else "-" + ZeroPad(-n, if width >= 1 then width - 1 else 0)
  }

  /** `String.format("%02d:%02d", sec / 60, sec % 60)` with Kotlin's
      truncating division. */
  function Clock(sec: int): string
  {
    FormatPadded(Quot(sec, 60), 2) + ":" + FormatPadded(Rem(sec, 60), 2)
  }

  /** Below 100 minutes the clock is `mm:ss` and reads back as the number of
      seconds, with fewer than 60 in the seconds field. */
  lemma ClockReadsBack(sec: int)
    requires 0 <= sec < 6000
    ensures var c := Clock(sec);
      && |c| == 5 && c[2] == ':' && AllDigits(c[..2]) && AllDigits(c[3..])
      && ValueOf(c[3..]) < 60
      && 60 * ValueOf(c[..2]) + ValueOf(c[3..]) == sec
  {
    QuotNatural(sec, 60);
    var m, s := sec / 60, sec % 60;
    ZeroPadFacts(m, 2);
    ZeroPadFacts(s, 2);
    var c := Clock(sec);
    assert c == ZeroPad(m, 2) + ":" + ZeroPad(s, 2);
    assert c[..2] == ZeroPad(m, 2);
    assert c[3..] == ZeroPad(s, 2);
  }

  /** `formatTime(ms)` of both podcast editors: `(ms / 1000).toInt()`
      seconds as a clock. */
  function MillisClock(ms: int): string
  {
    Clock(WrapInt32(Quot(ms, 1000)))
  }

  /** Below 100 minutes the text is `mm:ss` and reads back as the number of
      whole seconds. */
  lemma MillisClockReadsBack(ms: int)
    requires 0 <= ms < 6_000_000
    ensures var t := MillisClock(ms);
      && |t| == 5 && t[2] == ':' && AllDigits(t[..2]) && AllDigits(t[3..])
      && 60 * ValueOf(t[..2]) + ValueOf(t[3..]) == ms / 1000
  {
    QuotNatural(ms, 1000);
    ClockReadsBack(ms / 1000);
  }

  predicate StartsWith(s: string, p: string)
  {
    |p| <= |s| && s[..|p|] == p
  }

  predicate EndsWith(s: string, t: string)
  {
    |t| <= |s| && s[|s| - |t|..] == t
  }

  /** Kotlin's `removeSuffix`. */
  function RemoveSuffix(s: string, t: string): (r: string)
    ensures EndsWith(s, t) ==> r + t == s
    ensures !EndsWith(s, t) ==> r == s
  {
    if EndsWith(s, t) then s[..|s| - |t|] else s
  }

  /** Index of the last occurrence of `c`, if any. */
  function LastIndexOf(s: string, c: char): (r: Option<nat>)
    ensures r.None? <==> c !in s
    ensures r.Some? ==> r.value < |s| && s[r.value] == c && c !in s[r.value + 1..]
    decreases |s|
  {
    if s == [] then None
    else if s[|s| - 1] == c then Some(|s| - 1)
    else
      var r := LastIndexOf(s[..|s| - 1], c);
      assert s == s[..|s| - 1] + [s[|s| - 1]];
      r
  }

  /** Kotlin's `substringAfterLast(c, missing)`. */
  function AfterLast(s: string, c: char, missing: string): string
  {
    match LastIndexOf(s, c)
    case None => missing
    case Some(i) => s[i + 1..]
  }

  /** Kotlin's `substringBeforeLast(c)`: the whole string when `c` is absent. */
  function BeforeLast(s: string, c: char): string
  {
    match LastIndexOf(s, c)
    case None => s
    case Some(i) => s[..i]
  }

  /** Splitting at the last delimiter loses nothing, and the part after it
      holds no delimiter. */
  lemma SplitAtLast(s: string, c: char)
    ensures c in s ==> BeforeLast(s, c) + [c] + AfterLast(s, c, "") == s
    ensures c in s ==> c !in AfterLast(s, c, "")
    ensures c !in s ==> BeforeLast(s, c) == s
  {
    if c in s {
      var i := LastIndexOf(s, c).value;
      assert s == s[..i] + [c] + s[i + 1..];
    }
  }

  /** Kotlin's `trimStart()` with the whitespace test given as `isSpace`. */
  function TrimStart(s: string, isSpace: char -> bool): (r: string)
    ensures |r| <= |s| && r == s[|s| - |r|..]
    ensures r == [] || !isSpace(r[0])
    ensures forall i :: 0 <= i < |s| - |r| ==> isSpace(s[i])
    decreases |s|
  {
    if s != [] && isSpace(s[0]) then TrimStart(s[1..], isSpace) else s
  }

  /** Kotlin's `trimEnd()` with the whitespace test given as `isSpace`. */
  function TrimEnd(s: string, isSpace: char -> bool): (r: string)
    ensures |r| <= |s| && r == s[..|r|]
    ensures r == [] || !isSpace(r[|r| - 1])
    ensures forall i :: |r| <= i < |s| ==> isSpace(s[i])
    decreases |s|
  {
    if s != [] && isSpace(s[|s| - 1]) then TrimEnd(s[..|s| - 1], isSpace) else s
  }

  /** Kotlin's `trim()`. */
  function Trim(s: string, isSpace: char -> bool): string
  {
    TrimEnd(TrimStart(s, isSpace), isSpace)
  }

  /** `s.replace(Regex("[^<class>]"), "")`: every character outside the class is
      deleted, every character inside it is kept in order. */
  function Keep(s: string, inClass: char -> bool): (r: string)
    ensures |r| <= |s|
    ensures forall i :: 0 <= i < |r| ==> inClass(r[i])
    ensures (forall i :: 0 <= i < |s| ==> inClass(s[i])) ==> r == s
    decreases |s|
  {
    if s == [] then []
    else
      var rest := Keep(s[1..], inClass);
      if inClass(s[0]) then [s[0]] + rest else rest
  }

  /** Deleting the characters outside the class works piece by piece. */
  lemma {:induction false} KeepAppend(a: string, b: string, inClass: char -> bool)
    ensures Keep(a + b, inClass) == Keep(a, inClass) + Keep(b, inClass)
    decreases |a|
  {
    if a == [] {
      assert a + b == b;
    } else {
      assert (a + b)[0] == a[0] && (a + b)[1..] == a[1..] + b;
      KeepAppend(a[1..], b, inClass);
    }
  }

  /** One character is kept exactly when it is in the class. */
  lemma KeepOne(c: char, inClass: char -> bool)
    ensures Keep([c], inClass) == if inClass(c) then [c] else []
  {
    assert [c][1..] == [];
  }

  predicate IsAsciiLetter(c: char)
  {
    'a' <= c <= 'z' || 'A' <= c <= 'Z'
  }
}
