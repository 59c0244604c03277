/** The chunk loops of the playback, file-copy and encoder-feeding code:
    `while (offset < end) { toWrite = min(CAP, end - offset); ...; offset += toWrite }`.
    `Chunks(lo, hi, cap)` is the sequence of spans such a loop visits. */
module Chunking {
  import opened Numeric
  import opened Options

  /** `len` elements starting at `offset`. */
  datatype Span = Span(offset: nat, len: nat)
  {
    function End(): nat { offset + len }
  }

  /** The spans a loop of at most `cap` elements per step visits over [lo, hi). */
  function Chunks(lo: nat, hi: nat, cap: nat): (cs: seq<Span>)
    requires cap > 0
    ensures lo >= hi <==> cs == []
    decreases hi - lo
  {
    if lo >= hi then []
    else
      var n := Min(cap, hi - lo);
      [Span(lo, n)] + Chunks(lo + n, hi, cap)
  }

  /** `cs` covers [lo, hi) with adjacent, non-empty spans of at most `cap`
      elements, in increasing order. */
  predicate Tiles(cs: seq<Span>, lo: nat, hi: nat, cap: nat)
  {
    && (cs == [] ==> lo == hi)
    && (cs != [] ==> cs[0].offset == lo && cs[|cs| - 1].End() == hi)
    && (forall i :: 0 <= i < |cs| ==> 0 < cs[i].len <= cap)
    && (forall i :: 0 <= i < |cs| - 1 ==> cs[i + 1].offset == cs[i].End())
  }

  /** Every span but the last is full. */
  predicate FullButLast(cs: seq<Span>, cap: nat)
  {
    forall i :: 0 <= i < |cs| - 1 ==> cs[i].len == cap
  }

  /** The chunk loop visits the whole range exactly once, in order, never
      writing more than `cap` at a time and only the last step short. */
  lemma {:induction false} ChunksTile(lo: nat, hi: nat, cap: nat)
    requires cap > 0 && lo <= hi
    ensures Tiles(Chunks(lo, hi, cap), lo, hi, cap)
    ensures FullButLast(Chunks(lo, hi, cap), cap)
    decreases hi - lo
  {
    if lo < hi {
      var n := Min(cap, hi - lo);
      ChunksTile(lo + n, hi, cap);
    }
  }

  /** Kotlin's `x % step == 0`. */
  predicate OnStep(x: int, step: int)
    requires step != 0
  {
    Rem(x, step) == 0
  }

  /** The ends of the spans that fall on a multiple of `step`, in order:
      where a chunk loop that checks Kotlin's `offset % step == 0` after each step
      does its periodic work. */
  function MarkedEnds(cs: seq<Span>, step: int): (ps: seq<nat>)
    requires step != 0
    ensures |ps| <= |cs|
    ensures forall k :: 0 <= k < |ps| ==> OnStep(ps[k], step)
  {
    if cs == [] then []
    else
      var last := cs[|cs| - 1];
      MarkedEnds(cs[..|cs| - 1], step) + if OnStep(last.End(), step) then [last.End()] else []
  }

  /** One step of a chunk loop: the spans visited so far grow by the next
      span, and stay a prefix of all the spans. */
  lemma ChunksStep(written: seq<Span>, offset: nat, hi: nat, cap: nat, all: seq<Span>)
    requires cap > 0 && offset < hi && written + Chunks(offset, hi, cap) == all
    ensures var n := Min(cap, hi - offset);
      && (written + [Span(offset, n)]) + Chunks(offset + n, hi, cap) == all
      && |written| < |all|
      && all[..|written| + 1] == written + [Span(offset, n)]
  {
    var n := Min(cap, hi - offset);
    var rest := Chunks(offset + n, hi, cap);
    assert Chunks(offset, hi, cap) == [Span(offset, n)] + rest;
    calc {
      all;
      written + ([Span(offset, n)] + rest);
      { AppendAssoc(written, [Span(offset, n)], rest); }
      (written + [Span(offset, n)]) + rest;
    }
    assert all[..|written| + 1] == ((written + [Span(offset, n)]) + rest)[..|written| + 1];
  }

  /** The spans visited so far are a prefix of all the spans, and all of
      them once the loop has reached the end. */
  lemma ChunksPrefix(written: seq<Span>, offset: nat, hi: nat, cap: nat, all: seq<Span>)
    requires cap > 0 && written + Chunks(offset, hi, cap) == all
    ensures all[..|written|] == written
    ensures offset >= hi ==> written == all
    ensures offset < hi ==> |written| < |all|
  {
    assert all[..|written|] == (written + Chunks(offset, hi, cap))[..|written|];
  }

  /** One more span adds its end to the marked ends when it falls on a
      multiple of `step`. */
  lemma MarkedEndsSnoc(cs: seq<Span>, c: Span, step: int)
    requires step != 0
    ensures MarkedEnds(cs + [c], step) == MarkedEnds(cs, step) + if OnStep(c.End(), step) then [c.End()] else []
  {
    assert (cs + [c])[..|cs|] == cs;
  }

  /** The elements of the spans, one after the other. */
  function Gather<T>(data: seq<T>, cs: seq<Span>): seq<T>
    requires forall i :: 0 <= i < |cs| ==> cs[i].offset + cs[i].len <= |data|
  {
    if cs == [] then [] else data[cs[0].offset..cs[0].offset + cs[0].len] + Gather(data, cs[1..])
  }

  /** Every span lies inside [lo, hi). */
  lemma {:induction false} ChunksWithin(lo: nat, hi: nat, cap: nat)
    requires cap > 0
    ensures forall i :: 0 <= i < |Chunks(lo, hi, cap)| ==>
      lo <= Chunks(lo, hi, cap)[i].offset && Chunks(lo, hi, cap)[i].End() <= hi
    decreases hi - lo
  {
    if lo < hi {
      var n := Min(cap, hi - lo);
      var cs := Chunks(lo, hi, cap);
      var rest := Chunks(lo + n, hi, cap);
      ChunksWithin(lo + n, hi, cap);
      forall i | 0 <= i < |cs|
        ensures lo <= cs[i].offset && cs[i].End() <= hi
      {
        if i > 0 {
          assert cs[i] == rest[i - 1];
        }
      }
    }
  }

  /** Gathering a span before others copies its elements first. */
  lemma GatherCons<T>(data: seq<T>, c: Span, rest: seq<Span>)
    requires c.End() <= |data|
    requires forall i :: 0 <= i < |rest| ==> rest[i].offset + rest[i].len <= |data|
    ensures Gather(data, [c] + rest) == data[c.offset..c.End()] + Gather(data, rest)
  {
    assert ([c] + rest)[1..] == rest;
  }

  /** Copying chunk by chunk copies exactly the range. */
  lemma {:induction false} GatherChunks<T>(data: seq<T>, lo: nat, hi: nat, cap: nat)
    requires cap > 0 && lo <= hi <= |data|
    ensures forall i :: 0 <= i < |Chunks(lo, hi, cap)| ==> Chunks(lo, hi, cap)[i].offset + Chunks(lo, hi, cap)[i].len <= |data|
    ensures Gather(data, Chunks(lo, hi, cap)) == data[lo..hi]
    decreases hi - lo
  {
    ChunksWithin(lo, hi, cap);
    if lo < hi {
      var n := Min(cap, hi - lo);
      var rest := Chunks(lo + n, hi, cap);
      GatherChunks(data, lo + n, hi, cap);
      assert Chunks(lo, hi, cap) == [Span(lo, n)] + rest;
      GatherCons(data, Span(lo, n), rest);
      assert data[lo..hi] == data[lo..lo + n] + data[lo + n..hi];
    }
  }
}
