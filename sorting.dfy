/** Ordering of strings, and sorting a set of strings into the unique
    strictly increasing sequence of its elements. Python's `sorted` on `str`
    compares code points; Kotlin's `sorted()` on `String` (the JVM's
    `String.compareTo`) compares UTF-16 code units, which puts characters
    above U+FFFF (encoded from the high surrogates D800-DBFF) before those
    of U+E000-U+FFFF. */
module Sorting {

  /** How two characters compare: by code point, or by UTF-16 code unit. */
  datatype Order = CodePoints | Utf16Units

  /** A number per character whose order is the character order. For UTF-16
      a character above U+FFFF ranks from D800 on, by its high surrogate,
      and U+E000-U+FFFF rank above all of them. */
  function Rank(o: Order, c: char): int
  {
    var v := c as int;
    if o.CodePoints? || v < 0xD800 then v
    else if v < 0x1_0000 then v + 0x10_0000
    else v - 0x1_0000 + 0xD800
  }

  /** Lexicographic order on strings, comparing characters by rank; a
      proper prefix comes first. */
  predicate Less(o: Order, a: string, b: string)
    decreases |a|
  {
    if a == [] then b != []
    else if b == [] then false
    else if a[0] != b[0] then Rank(o, a[0]) < Rank(o, b[0])
    else Less(o, a[1..], b[1..])
  }

  // ---------------------------------------------------------------------
  // The UTF-16 order is the order of the UTF-16 encodings
  // ---------------------------------------------------------------------

  /** The UTF-16 code units of a character: itself below U+10000, else a
      high and a low surrogate. */
  function Utf16(c: char): (u: seq<int>)
    ensures 1 <= |u| <= 2
  {
    var v := c as int;
    if v < 0x1_0000 then [v]
    else [0xD800 + (v - 0x1_0000) / 0x400, 0xDC00 + (v - 0x1_0000) % 0x400]
  }

  /** The UTF-16 code units of a string, as a JVM `String` holds them. */
  function Utf16Of(s: string): seq<int>
    decreases |s|
  {
    if s == [] then [] else Utf16(s[0]) + Utf16Of(s[1..])
  }

  /** Lexicographic order on code-unit sequences, as `String.compareTo`
      compares them. */
  predicate UnitsLess(u: seq<int>, w: seq<int>)
    decreases |u|
  {
    if u == [] then w != []
    else if w == [] then false
    else if u[0] != w[0] then u[0] < w[0]
    else UnitsLess(u[1..], w[1..])
  }

  /** A common front does not change the comparison. */
  lemma {:induction false} UnitsLessFront(f: seq<int>, u: seq<int>, w: seq<int>)
    ensures UnitsLess(f + u, f + w) <==> UnitsLess(u, w)
    decreases |f|
  {
    if f != [] {
      assert (f + u)[0] == f[0] && (f + w)[0] == f[0];
      assert (f + u)[1..] == f[1..] + u;
      assert (f + w)[1..] == f[1..] + w;
      UnitsLessFront(f[1..], u, w);
    } else {
      assert f + u == u && f + w == w;
    }
  }

  /** Two surrogate pairs compare as the characters they encode. */
  lemma PairOrder(v: int, w: int)
    requires 0x1_0000 <= v < 0x11_0000 && 0x1_0000 <= w < 0x11_0000
    ensures (v - 0x1_0000) / 0x400 < (w - 0x1_0000) / 0x400 ==> v < w
    ensures (v - 0x1_0000) / 0x400 == (w - 0x1_0000) / 0x400 ==>
      ((v - 0x1_0000) % 0x400 < (w - 0x1_0000) % 0x400 <==> v < w)
  {
  }

  /** The first differing characters decide the comparison of encodings by
      their UTF-16 rank. */
  lemma CharUnitsOrder(c: char, d: char, x: seq<int>, y: seq<int>)
    requires c != d
    ensures UnitsLess(Utf16(c) + x, Utf16(d) + y) <==> Rank(Utf16Units, c) < Rank(Utf16Units, d)
  {
    var u := Utf16(c) + x;
    var w := Utf16(d) + y;
    var v := c as int;
    var e := d as int;
    assert u[0] == Utf16(c)[0] && w[0] == Utf16(d)[0];
    if v >= 0x1_0000 && e >= 0x1_0000 {
      PairOrder(v, e);
      if u[0] == w[0] {
        assert u[1] == Utf16(c)[1] && w[1] == Utf16(d)[1];
        assert u[1..][0] == u[1] && w[1..][0] == w[1];
        assert u[1] != w[1];
      }
    }
  }

  /** Comparing by UTF-16 rank is comparing the strings' UTF-16 encodings. */
  lemma {:induction false} Utf16Order(a: string, b: string)
    ensures Less(Utf16Units, a, b) <==> UnitsLess(Utf16Of(a), Utf16Of(b))
    decreases |a|
  {
    if a != [] && b != [] {
      assert Utf16Of(a) == Utf16(a[0]) + Utf16Of(a[1..]);
      assert Utf16Of(b) == Utf16(b[0]) + Utf16Of(b[1..]);
      if a[0] == b[0] {
        UnitsLessFront(Utf16(a[0]), Utf16Of(a[1..]), Utf16Of(b[1..]));
        Utf16Order(a[1..], b[1..]);
      } else {
        CharUnitsOrder(a[0], b[0], Utf16Of(a[1..]), Utf16Of(b[1..]));
      }
    } else if a == [] && b != [] {
      assert Utf16Of(b) == Utf16(b[0]) + Utf16Of(b[1..]);
    }
  }

  /** The two orders disagree: U+1F600 comes before U+FF01 in UTF-16 and
      after it by code point. */
  lemma OrdersDiffer()
    ensures Less(Utf16Units, "000_\U{1F600}", "000_\U{FF01}")
    ensures Less(CodePoints, "000_\U{FF01}", "000_\U{1F600}")
  {
    assert "000_\U{1F600}"[1..][1..][1..][1..] == "\U{1F600}";
    assert "000_\U{FF01}"[1..][1..][1..][1..] == "\U{FF01}";
  }

  // ---------------------------------------------------------------------
  // A strict total order
  // ---------------------------------------------------------------------

  lemma {:induction false} LessIrreflexive(o: Order, a: string)
    ensures !Less(o, a, a)
    decreases |a|
  {
    if a != [] {
      LessIrreflexive(o, a[1..]);
    }
  }

  lemma {:induction false} LessTransitive(o: Order, a: string, b: string, c: string)
    requires Less(o, a, b) && Less(o, b, c)
    ensures Less(o, a, c)
    decreases |a|
  {
    if a != [] && b != [] && c != [] {
      if a[0] != c[0] {
        RankInjective(o, a[0], c[0]);
      } else if a[0] == b[0] {
        LessTransitive(o, a[1..], b[1..], c[1..]);
      }
    }
  }

  /** Different characters have different ranks. */
  lemma RankInjective(o: Order, c: char, d: char)
    requires c != d
    ensures Rank(o, c) != Rank(o, d)
  {
  }

  /** Any two different strings are ordered one way or the other. */
  lemma {:induction false} LessTotal(o: Order, a: string, b: string)
    requires a != b
    ensures Less(o, a, b) || Less(o, b, a)
    decreases |a|
  {
    if a != [] && b != [] {
      if a[0] == b[0] {
        assert a == [a[0]] + a[1..] && b == [b[0]] + b[1..];
        LessTotal(o, a[1..], b[1..]);
      } else {
        RankInjective(o, a[0], b[0]);
      }
    }
  }

  lemma LessAsymmetric(o: Order, a: string, b: string)
    requires Less(o, a, b)
    ensures !Less(o, b, a)
  {
    if Less(o, b, a) {
      LessTransitive(o, a, b, a);
      LessIrreflexive(o, a);
    }
  }

  // ---------------------------------------------------------------------
  // Sorting a set
  // ---------------------------------------------------------------------

  /** Every element is smaller than every later element: sorted and free of
      duplicates. */
  predicate StrictlySorted(o: Order, s: seq<string>)
  {
    forall i, j :: 0 <= i < j < |s| ==> Less(o, s[i], s[j])
  }

  /** Inserting `x` at its place in a strictly sorted sequence that lacks it. */
  function Insert(o: Order, s: seq<string>, x: string): (r: seq<string>)
    requires StrictlySorted(o, s) && x !in s
    ensures StrictlySorted(o, r)
    ensures |r| == |s| + 1
    ensures forall y :: y in r <==> y in s || y == x
  {
    if s == [] then [x]
    else if Less(o, x, s[0]) then
      var r := [x] + s;
      forall j | 1 <= j < |r|
        ensures Less(o, r[0], r[j])
      {
        if j > 1 {
          LessTransitive(o, x, s[0], s[j - 1]);
        }
      }
      r
    else
      var rest := Insert(o, s[1..], x);
      var r := [s[0]] + rest;
      LessTotal(o, x, s[0]);
      forall j | 1 <= j < |r|
        ensures Less(o, r[0], r[j])
      {
        var y := rest[j - 1];
        if y != x {
          assert y in s[1..];
          var k :| 0 <= k < |s| - 1 && s[1..][k] == y;
          assert Less(o, s[0], s[k + 1]);
        } else {
          assert x != s[0];
        }
      }
      r
  }

  lemma HasMember(b: seq<string>)
    requires b != []
    ensures exists y :: y in b
  {
    assert b[0] in b;
  }

  /** Two strictly sorted sequences with the same elements are equal: the
      sorted listing of a set is unique. */
  lemma {:induction false} SortedUnique(o: Order, a: seq<string>, b: seq<string>)
    requires StrictlySorted(o, a) && StrictlySorted(o, b)
    requires forall y :: y in a <==> y in b
    ensures a == b
    decreases |a|
  {
    if a == [] {
      if b != [] {
        HasMember(b);
        assert false;
      }
    } else {
      assert a[0] in b;
      assert b != [] && b[0] in a;
      if a[0] != b[0] {
        var i :| 0 <= i < |a| && a[i] == b[0];
        var j :| 0 <= j < |b| && b[j] == a[0];
        assert i > 0 && j > 0;
        LessAsymmetric(o, a[0], a[i]);
      }
      assert a == [a[0]] + a[1..] && b == [b[0]] + b[1..];
      forall y
        ensures y in a[1..] <==> y in b[1..]
      {
        if y in a[1..] {
          var i :| 0 <= i < |a| - 1 && a[1..][i] == y;
          assert Less(o, a[0], a[i + 1]);
          LessIrreflexive(o, y);
          assert y in b && y != b[0];
        }
        if y in b[1..] {
          var j :| 0 <= j < |b| - 1 && b[1..][j] == y;
          assert Less(o, b[0], b[j + 1]);
          LessIrreflexive(o, y);
          assert y in a && y != a[0];
        }
      }
      SortedUnique(o, a[1..], b[1..]);
    }
  }

  /** The elements of `s` in increasing order. */
  ghost function SortedListing(o: Order, s: set<string>): (r: seq<string>)
    ensures StrictlySorted(o, r)
    ensures forall y :: y in r <==> y in s
    decreases |s|
  {
    if s == {} then []
    else
      var x :| x in s;
      Insert(o, SortedListing(o, s - {x}), x)
  }

  /** `sorted(s)` of a set of strings: its elements in increasing order of
      `o`, each once. */
  method SortSet(o: Order, s: set<string>) returns (r: seq<string>)
    ensures StrictlySorted(o, r)
    ensures forall y :: y in r <==> y in s
    ensures |r| == |s|
    ensures r == SortedListing(o, s)
  {
    r := [];
    var rest := s;
    while rest != {}
      invariant StrictlySorted(o, r)
      invariant forall y :: y in r ==> y in s && y !in rest
      invariant forall y :: y in s ==> y in r || y in rest
      invariant rest <= s
      invariant |r| + |rest| == |s|
      decreases |rest|
    {
      var x :| x in rest;
      r := Insert(o, r, x);
      rest := rest - {x};
    }
    SortedUnique(o, r, SortedListing(o, s));
  }
}
