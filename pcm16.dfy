/** 16-bit PCM samples and their little-endian byte form
    (`ByteBuffer.order(LITTLE_ENDIAN)` with `putShort` / `asShortBuffer().get`),
    and the splice that removes a range of samples. */
module Pcm16 {
  import opened Numeric

  /** The signed 16-bit value of a little-endian byte pair. */
  function ShortOf(lo: Byte, hi: Byte): (s: Short)
  {
    var v := lo + 0x100 * hi;
    if v >= 0x8000 then v - 0x1_0000 else v
  }

  /** A sample survives being written as two bytes and read back. */
  lemma ShortRoundTrip(s: Short)
    ensures ShortOf(ByteAt(s, 0), ByteAt(s, 1)) == s
  {
    var q := s / 0x100;
    assert ByteAt(s, 1) == q % 0x100;
    assert s == 0x100 * q + ByteAt(s, 0);
    assert -0x80 <= q < 0x80;
  }

  /** `putShort` of every sample in order. */
  function EncodeShorts(p: seq<Short>): (b: seq<Byte>)
    ensures |b| == 2 * |p|
    ensures forall i :: 0 <= i < |p| ==> b[2 * i] == ByteAt(p[i], 0) && b[2 * i + 1] == ByteAt(p[i], 1)
  {
    if p == [] then []
    else
      var rest := EncodeShorts(p[1..]);
      var b := Int16LE(p[0]) + rest;
      assert forall i :: 1 <= i < |p| ==> b[2 * i] == rest[2 * (i - 1)] && b[2 * i + 1] == rest[2 * (i - 1) + 1];
      b
  }

  /** `asShortBuffer().get`: one sample per whole byte pair; an odd trailing
      byte is not read. */
  function DecodeShorts(b: seq<Byte>): (p: seq<Short>)
    ensures |p| == |b| / 2
    ensures forall i :: 0 <= i < |p| ==> p[i] == ShortOf(b[2 * i], b[2 * i + 1])
  {
    seq(|b| / 2, i requires 0 <= i < |b| / 2 => ShortOf(b[2 * i], b[2 * i + 1]))
  }

  /** Decoding undoes encoding. */
  lemma DecodeEncode(p: seq<Short>)
    ensures DecodeShorts(EncodeShorts(p)) == p
  {
    var r := DecodeShorts(EncodeShorts(p));
    forall i | 0 <= i < |p|
      ensures r[i] == p[i]
    {
      ShortRoundTrip(p[i]);
    }
  }

  /** Encoding a concatenation encodes each part in turn. */
  lemma {:induction false} EncodeAppend(a: seq<Short>, b: seq<Short>)
    ensures EncodeShorts(a + b) == EncodeShorts(a) + EncodeShorts(b)
  {
    if a == [] {
      assert a + b == b;
    } else {
      assert (a + b)[1..] == a[1..] + b;
      EncodeAppend(a[1..], b);
      assert (a + b)[0] == a[0];
      assert EncodeShorts(a + b) == Int16LE(a[0]) + EncodeShorts(a[1..] + b);
      assert EncodeShorts(a) == Int16LE(a[0]) + EncodeShorts(a[1..]);
    }
  }

  /** Flattening a list of sample arrays. */
  function Concat(ps: seq<seq<Short>>): (r: seq<Short>)
    ensures ps == [] ==> r == []
  {
    if ps == [] then [] else Concat(ps[..|ps| - 1]) + ps[|ps| - 1]
  }

  /** `pcm[0..start) ++ pcm[end..)`: the samples before the range, then the
      samples after it. */
  function Splice<T>(p: seq<T>, start: nat, end: nat): (r: seq<T>)
    requires start <= end <= |p|
    ensures |r| == |p| - (end - start)
    ensures forall i :: 0 <= i < start ==> r[i] == p[i]
    ensures forall i :: start <= i < |r| ==> r[i] == p[i + (end - start)]
  {
    p[..start] + p[end..]
  }

  /** Putting the removed samples back in place restores the original. */
  lemma SpliceRestore<T>(p: seq<T>, start: nat, end: nat)
    requires start <= end <= |p|
    ensures Splice(p, start, end)[..start] + p[start..end] + Splice(p, start, end)[start..] == p
  {
    var r := Splice(p, start, end);
    assert r[..start] == p[..start];
    assert r[start..] == p[end..];
    assert p == p[..start] + p[start..end] + p[end..];
  }

  /** The peak of a run of samples: the largest magnitude, 0 for no samples. */
  function MaxAbs(s: seq<Short>): (m: nat)
    ensures m <= 0x8000
  {
    if s == [] then 0 else Max(MaxAbs(s[..|s| - 1]), Abs(s[|s| - 1]))
  }

  /** The peak bounds every magnitude and is reached by one of them; it is
      0 exactly when every sample is silent. */
  lemma {:induction false} MaxAbsIsPeak(s: seq<Short>)
    ensures forall i :: 0 <= i < |s| ==> Abs(s[i]) <= MaxAbs(s)
    ensures s != [] ==> exists i :: 0 <= i < |s| && Abs(s[i]) == MaxAbs(s)
    ensures MaxAbs(s) == 0 <==> forall i :: 0 <= i < |s| ==> s[i] == 0
  {
    if s != [] {
      var n := |s| - 1;
      MaxAbsIsPeak(s[..n]);
      assert forall i :: 0 <= i < n ==> s[..n][i] == s[i];
      if MaxAbs(s) == Abs(s[n]) {
        assert Abs(s[n]) == MaxAbs(s);
      } else {
        var i :| 0 <= i < n && Abs(s[..n][i]) == MaxAbs(s[..n]);
        assert Abs(s[i]) == MaxAbs(s);
      }
    }
  }
}
