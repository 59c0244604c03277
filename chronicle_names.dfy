/** Chronicle file names: a chronicle is stored as `ddd_<name>.txt` (its
    script) and `ddd_<name>.<ext>` (its audio), where `ddd_` is a three-digit
    position prefix. This module holds the name conventions shared by the
    project screen and both editors: the `%03d_` prefix, the display name
    without prefix (`Regex("^\\d{3}_")`), the split of a script key
    (`Regex("^(\\d{3}_)(.*)")`) and the split of an audio file name
    (`Regex("^(\\d{3}_)(.*)\\.(.*)$")`), with `java.util.regex` semantics:
    `\d` is an ASCII digit, `.` matches anything but a line terminator and
    `$` matches at the end of the input or before a final line terminator. */
module ChronicleNames {
  import opened Options
  import opened Text
  import opened Sorting

  /** The characters `.` does not match in `java.util.regex`. */
  predicate IsLineTerminator(c: char)
  {
    c == '\n' || c == '\r' || c == '\U{0085}' || c == '\U{2028}' || c == '\U{2029}'
  }

  predicate SingleLine(s: string)
  {
    forall i :: 0 <= i < |s| ==> !IsLineTerminator(s[i])
  }

  /** What `(.*)` matches greedily at the start of `s`: everything up to the
      first line terminator. */
  function LineOf(s: string): (r: string)
    ensures |r| <= |s| && r == s[..|r|]
    ensures SingleLine(r)
    ensures |r| < |s| ==> IsLineTerminator(s[|r|])
    decreases |s|
  {
    if s == [] || IsLineTerminator(s[0]) then []
    else [s[0]] + LineOf(s[1..])
  }

  /** Where `$` may match: at the end of the input or before one final line
      terminator (`\r\n` counting as one). */
  predicate AtInputEnd(t: string)
  {
    t == [] || t == "\r\n" || (|t| == 1 && IsLineTerminator(t[0]))
  }

  /** The name starts with three ASCII digits and an underscore. */
  predicate HasPrefix(name: string)
  {
    |name| >= 4 && AllDigits(name[..3]) && name[3] == '_'
  }

  /** `String.format("%03d_", i)` for a position `i` in a list. */
  function Prefix(i: nat): (p: string)
    ensures |p| >= 4 && p[|p| - 1] == '_'
  {
    ZeroPad(i, 3) + "_"
  }

  /** Positions below 1000 give a four-character prefix that reads back as
      the position. */
  lemma PrefixValue(i: nat)
    requires i < 1000
    ensures |Prefix(i)| == 4 && HasPrefix(Prefix(i))
    ensures ValueOf(Prefix(i)[..3]) == i
  {
    ZeroPadFacts(i, 3);
    assert Prefix(i)[..3] == ZeroPad(i, 3);
  }

  /** From position 1000 on, the prefix has four digits and is no longer
      recognised as a prefix by the three-digit patterns. */
  lemma PrefixTooLong(i: nat, name: string)
    requires 1000 <= i < 10000
    ensures !HasPrefix(Prefix(i) + name)
  {
    var d := Decimal(i);
    DecimalRoundTrip(i);
    if |d| <= 3 {
      DecimalBelow(d);
      assert false;
    }
    assert ZeroPad(i, 3) == d;
    assert (Prefix(i) + name)[3] == d[3];
    assert IsDigit(d[3]);
  }

  /** A string of k digits has a value below 10^k. */
  lemma {:induction false} DecimalBelow(d: string)
    requires AllDigits(d)
    ensures ValueOf(d) < Pow10(|d|)
    decreases |d|
  {
    if d != [] {
      DecimalBelow(d[..|d| - 1]);
    }
  }

  /** Prefixes order their names as the positions they were made from:
      a name with a smaller position sorts first, whatever follows. */
  lemma PrefixOrder(o: Order, i: nat, j: nat, a: string, b: string)
    requires i < j < 1000
    ensures Less(o, Prefix(i) + a, Prefix(j) + b)
  {
    PrefixValue(i);
    PrefixValue(j);
    var p := Prefix(i);
    var q := Prefix(j);
    assert p + a == p[..3] + ("_" + a);
    assert q + b == q[..3] + ("_" + b);
    DigitsLess(o, p[..3], q[..3], "_" + a, "_" + b);
  }

  /** Digit strings of one length compare as the numbers they spell. */
  lemma {:induction false} DigitsLess(o: Order, d: string, e: string, a: string, b: string)
    requires |d| == |e| && AllDigits(d) && AllDigits(e)
    requires ValueOf(d) < ValueOf(e)
    ensures Less(o, d + a, e + b)
    decreases |d|
  {
    if d == [] {
      assert false;
    }
    ValueOfFront(d);
    ValueOfFront(e);
    DecimalBelow(d[1..]);
    DecimalBelow(e[1..]);
    var x := d + a;
    var y := e + b;
    assert x[0] == d[0] && y[0] == e[0];
    if d[0] == e[0] {
      assert x[1..] == d[1..] + a;
      assert y[1..] == e[1..] + b;
      DigitsLess(o, d[1..], e[1..], a, b);
    } else if DigitValue(d[0]) > DigitValue(e[0]) {
      ScaleStep(DigitValue(d[0]), DigitValue(e[0]), Pow10(|d| - 1));
      assert false;
    }
  }

  lemma ScaleStep(m: nat, n: nat, p: nat)
    requires m > n
    ensures m * p >= n * p + p
  {
    var k := m - n - 1;
    assert m == n + 1 + k;
    assert m * p == n * p + p + k * p;
    assert k * p >= 0;
  }

  /** `name.replace(Regex("^\\d{3}_"), "")`: the name shown to the user. */
  function DisplayName(name: string): (r: string)
    ensures HasPrefix(name) ==> name == name[..4] + r
    ensures !HasPrefix(name) ==> r == name
  {
    if HasPrefix(name) then name[4..] else name
  }

  /** The display name of a prefixed file is the part after the prefix. */
  lemma DisplayNameOfPrefixed(i: nat, name: string)
    requires i < 1000
    ensures DisplayName(Prefix(i) + name) == name
  {
    PrefixValue(i);
    assert (Prefix(i) + name)[..3] == Prefix(i)[..3];
    assert (Prefix(i) + name)[4..] == name;
  }

  /** `Regex("^(\\d{3}_)(.*)").find(key)`: the prefix, and the rest of the
      first line as the chronicle's name. */
  function SplitKey(key: string): (r: Option<(string, string)>)
    ensures r.None? <==> !HasPrefix(key)
    ensures r.Some? ==> r.value.0 == key[..4] && StartsWith(key[4..], r.value.1) && SingleLine(r.value.1)
    ensures r.Some? && 4 + |r.value.1| < |key| ==> IsLineTerminator(key[4 + |r.value.1|])
  {
    if HasPrefix(key) then Some((key[..4], LineOf(key[4..]))) else None
  }

  /** A key built from a position below 1000 and a one-line name splits back
      into that prefix and that name. */
  lemma SplitKeyRoundTrip(i: nat, name: string)
    requires i < 1000 && SingleLine(name)
    ensures SplitKey(Prefix(i) + name) == Some((Prefix(i), name))
  {
    PrefixValue(i);
    SplitKeyPrefixed(Prefix(i), name);
  }

  /** The same for any four-character prefix. */
  lemma SplitKeyPrefixed(prefix: string, name: string)
    requires |prefix| == 4 && HasPrefix(prefix) && SingleLine(name)
    ensures SplitKey(prefix + name) == Some((prefix, name))
  {
    var key := prefix + name;
    assert key[..3] == prefix[..3];
    assert key[..4] == prefix && key[4..] == name;
    LineOfSingleLine(name);
  }

  lemma {:induction false} LineOfSingleLine(s: string)
    requires SingleLine(s)
    ensures LineOf(s) == s
    decreases |s|
  {
    if s != [] {
      LineOfSingleLine(s[1..]);
    }
  }

  /** The three groups of an audio file name `ddd_<name>.<ext>`. */
  datatype RecordingName = RecordingName(prefix: string, name: string, ext: string)

  /** `Regex("^(\\d{3}_)(.*)\\.(.*)$").find(fileName)`: the name runs to the
      last dot of the first line and the extension after it; the line must
      be followed by the end of the input or by one final line terminator. */
  function ParseRecordingName(fileName: string): (r: Option<RecordingName>)
    ensures r.Some? ==> HasPrefix(fileName) && r.value.prefix == fileName[..4] && '.' !in r.value.ext
  {
    if !HasPrefix(fileName) then None
    else
      var rest := fileName[4..];
      var line := LineOf(rest);
      if '.' !in line || !AtInputEnd(rest[|line|..]) then None
      else
        SplitAtLast(line, '.');
        Some(RecordingName(fileName[..4], BeforeLast(line, '.'), AfterLast(line, '.', "")))
  }

  /** A parsed name reassembles into the start of the file name, followed
      only by the end of the input or a final line terminator; name and
      extension are single lines. */
  lemma ParsedNameParts(fileName: string)
    requires ParseRecordingName(fileName).Some?
    ensures var r := ParseRecordingName(fileName).value;
      && SingleLine(r.name) && SingleLine(r.ext)
      && StartsWith(fileName, r.prefix + r.name + "." + r.ext)
      && AtInputEnd(fileName[|r.prefix + r.name + "." + r.ext|..])
  {
    var r := ParseRecordingName(fileName).value;
    var rest := fileName[4..];
    var line := LineOf(rest);
    assert '.' in line && AtInputEnd(rest[|line|..]);
    SplitAtLast(line, '.');
    assert r.name == BeforeLast(line, '.') && r.ext == AfterLast(line, '.', "");
    assert r.name + "." + r.ext == line;
    SingleLineParts(r.name, r.ext);
    assert rest == line + rest[|line|..];
    Reassemble(fileName, r.prefix, line, rest[|line|..]);
    AppendAssoc(r.prefix + r.name, ".", r.ext);
    AppendAssoc(r.prefix, r.name, ".");
    AppendAssoc(r.prefix, r.name + ".", r.ext);
    assert r.prefix + r.name + "." + r.ext == r.prefix + line;
  }

  /** The parts of a single line are single lines. */
  lemma SingleLineParts(a: string, b: string)
    requires SingleLine(a + "." + b)
    ensures SingleLine(a) && SingleLine(b)
  {
    var s := a + "." + b;
    assert forall k :: 0 <= k < |a| ==> a[k] == s[k];
    assert forall k :: 0 <= k < |b| ==> b[k] == s[|a| + 1 + k];
  }

  lemma Reassemble(fileName: string, prefix: string, line: string, tail: string)
    requires |fileName| >= 4 && prefix == fileName[..4]
    requires fileName[4..] == line + tail
    ensures StartsWith(fileName, prefix + line) && fileName[|prefix + line|..] == tail
  {
    assert fileName == prefix + fileName[4..];
  }

  /** Every file named from a position below 1000, a one-line name and a
      one-line extension without dots parses back into those three parts. */
  lemma ParseRoundTrip(i: nat, name: string, ext: string)
    requires i < 1000 && SingleLine(name) && SingleLine(ext) && '.' !in ext
    ensures ParseRecordingName(Prefix(i) + name + "." + ext) == Some(RecordingName(Prefix(i), name, ext))
  {
    PrefixValue(i);
    ParsePrefixed(Prefix(i), name, ext);
  }

  /** The same for any four-character prefix. */
  lemma ParsePrefixed(prefix: string, name: string, ext: string)
    requires |prefix| == 4 && HasPrefix(prefix)
    requires SingleLine(name) && SingleLine(ext) && '.' !in ext
    ensures ParseRecordingName(prefix + name + "." + ext) == Some(RecordingName(prefix, name, ext))
  {
    var line := name + "." + ext;
    var fileName := prefix + line;
    assert prefix + name + "." + ext == fileName;
    assert fileName[..3] == prefix[..3];
    assert fileName[..4] == prefix && fileName[4..] == line;
    SingleLineJoin(name, '.', ext);
    LineOfSingleLine(line);
    assert line[|line|..] == [];
    LastDotBeforeExtension(name, ext);
  }

  /** Joining two single lines with a separator that ends no line gives a
      single line. */
  lemma SingleLineJoin(name: string, sep: char, ext: string)
    requires SingleLine(name) && !IsLineTerminator(sep) && SingleLine(ext)
    ensures SingleLine(name + [sep] + ext)
  {
    var line := name + [sep] + ext;
    forall k | 0 <= k < |line|
      ensures !IsLineTerminator(line[k])
    {
      if k < |name| {
        assert line[k] == name[k];
      } else if k > |name| {
        assert line[k] == ext[k - |name| - 1];
      }
    }
  }

  /** The last dot of `name.ext` is the one before an extension without
      dots. */
  lemma LastDotBeforeExtension(name: string, ext: string)
    requires '.' !in ext
    ensures BeforeLast(name + "." + ext, '.') == name
    ensures AfterLast(name + "." + ext, '.', "") == ext
  {
    var line := name + "." + ext;
    var j := LastIndexOf(line, '.');
    assert line[|name|] == '.';
    assert line[|name| + 1..] == ext;
    assert j.value == |name|;
    assert line[..|name|] == name;
  }

  /** `File(projectPath, "$prefix$name.txt")`: the script that goes with a
      recording. */
  function ScriptName(r: RecordingName): (s: string)
    ensures EndsWith(s, ".txt") && StartsWith(s, r.prefix)
  {
    var s := r.prefix + r.name + ".txt";
    assert s[|s| - 4..] == ".txt";
    assert s[..|r.prefix|] == r.prefix;
    s
  }
}
