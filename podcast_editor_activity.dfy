/** The podcast editor (`com/podcastcreateur/app/EditorActivity.kt`): the
    waveform shows one point per `1 / POINTS_PER_SECOND` of audio, while a
    mono copy of the samples (`workingPcm`) is decoded in the background;
    cut, normalise and sample-accurate playback wait for that copy. Point
    indices become sample offsets through `samplesPerPoint = sampleRate /
    POINTS_PER_SECOND`, with Kotlin's 32-bit `Int` products.
    `POINTS_PER_SECOND` is defined in a file that is not part of this model,
    so it is a parameter here. Coroutines, the audio track and the media
    player are replaced by their observable effect: the sequence of values
    the track's `write` returns. */
module PodcastEditorActivity {
  import opened Numeric
  import opened Options
  import opened Text
  import opened Pcm16
  import opened Chunking

  /** `sampleRate / POINTS_PER_SECOND`. */
  function SamplesPerPoint(sampleRate: int, pointsPerSecond: int): int
    requires pointsPerSecond > 0
  {
    Quot(sampleRate, pointsPerSecond)
  }

  /** `updateCurrentTimeDisplay(index)`: the time of point `index`, counted
      as `index * (1000 / POINTS_PER_SECOND)` milliseconds. */
  function TimeDisplay(index: int, pointsPerSecond: int): (t: string)
    requires pointsPerSecond > 0
  {
    MillisClock(index * Quot(1000, pointsPerSecond))
  }

  /** With a whole number of milliseconds per point, the displayed seconds
      are those of the point's exact time. */
  lemma TimeDisplayOfPoint(index: nat, pointsPerSecond: int)
    requires 0 < pointsPerSecond <= 1000 && 1000 % pointsPerSecond == 0
    requires index * (1000 / pointsPerSecond) < 6_000_000
    ensures var t := TimeDisplay(index, pointsPerSecond);
      |t| == 5 && 60 * ValueOf(t[..2]) + ValueOf(t[3..]) == (index * 1000 / pointsPerSecond) / 1000
  {
    QuotNatural(1000, pointsPerSecond);
    var step := 1000 / pointsPerSecond;
    ExactQuotient(1000, pointsPerSecond, step);
    MillisOfPoints(index, step, pointsPerSecond);
    var ms := index * step;
    assert TimeDisplay(index, pointsPerSecond) == MillisClock(ms);
    assert 0 <= ms by {
      assert step >= 0;
    }
    MillisClockReadsBack(ms);
  }

  /** `index` points of `step` ms each, with `step * pps == 1000`, last
      `index * 1000 / pps` ms. */
  lemma MillisOfPoints(index: int, step: int, pps: int)
    requires pps > 0 && step * pps == 1000
    ensures index * 1000 / pps == index * step
  {
    assert index * 1000 == index * (step * pps);
    assert index * (step * pps) == (index * step) * pps;
    ExactQuotient(index * 1000, pps, index * step);
  }

  /** The media player fallback starts at `(playheadPos * 1000L) / POINTS_PER_SECOND` ms. */
  function BackupStartMs(playhead: int, pointsPerSecond: int): int
    requires pointsPerSecond > 0
  {
    Quot(playhead * 1000, pointsPerSecond)
  }

  /** ... and reports the point `((pos.toLong() * POINTS_PER_SECOND) / 1000).toInt()`
      of its position `pos` in ms. */
  function BackupIndex(pos: int, pointsPerSecond: int): int
    requires pointsPerSecond > 0
  {
    WrapInt32(Quot(pos * pointsPerSecond, 1000))
  }

  /** Seeking the fallback player to a point and reading its position back
      never moves forward, and returns exactly that point when a point lasts
      a whole number of milliseconds. */
  lemma BackupRoundTrip(playhead: nat, pointsPerSecond: int)
    requires 0 < pointsPerSecond
    requires playhead * 1000 < 0x8000_0000
    ensures BackupIndex(BackupStartMs(playhead, pointsPerSecond), pointsPerSecond) <= playhead
    ensures 1000 % pointsPerSecond == 0 ==>
      BackupIndex(BackupStartMs(playhead, pointsPerSecond), pointsPerSecond) == playhead
  {
    QuotNatural(playhead * 1000, pointsPerSecond);
    var ms := playhead * 1000 / pointsPerSecond;
    assert ms * pointsPerSecond <= playhead * 1000;
    QuotNatural(ms * pointsPerSecond, 1000);
    var idx := ms * pointsPerSecond / 1000;
    assert idx <= playhead;
    assert 0 <= idx < 0x8000_0000;
    if 1000 % pointsPerSecond == 0 {
      var step := 1000 / pointsPerSecond;
      assert step * pointsPerSecond == 1000;
      assert playhead * 1000 == (playhead * step) * pointsPerSecond;
      assert ms == playhead * step;
      assert ms * pointsPerSecond == playhead * 1000;
    }
  }

  /** The samples of a cut: `s = startIdx * samplesPerPoint` and
      `e = (endIdx * samplesPerPoint).coerceAtMost(size)`, as 32-bit products. */
  function CutBounds(size: nat, startIdx: int, endIdx: int, spp: int): (r: (int, int))
    ensures r.1 <= size
  {
    (WrapInt32(startIdx * spp), Min(WrapInt32(endIdx * spp), size))
  }

  /** The two `System.arraycopy` calls of the cut succeed exactly when the
      first sample kept after the cut is in the array and the cut start is
      within it. */
  predicate CutFits(size: nat, s: int, e: int)
  {
    0 <= s <= size && e >= 0
  }

  /** The new samples: those before `s`, then those from `e` on. */
  function CutSamples(pcm: seq<Short>, s: int, e: int): (r: seq<Short>)
    requires CutFits(|pcm|, s, e) && e <= |pcm|
    ensures |r| == |pcm| - (e - s)
  {
    pcm[..s] + pcm[e..]
  }

  /** For a selection that fits the samples and products that fit an `Int`,
      the cut removes exactly the selected points' samples (up to the end of
      the recording). */
  lemma CutRemovesSelection(pcm: seq<Short>, startIdx: int, endIdx: int, spp: int)
    requires 0 <= startIdx < endIdx && spp > 0
    requires endIdx * spp < 0x8000_0000 && startIdx * spp <= |pcm|
    ensures var (s, e) := CutBounds(|pcm|, startIdx, endIdx, spp);
      && s == startIdx * spp && e == Min(endIdx * spp, |pcm|) && s <= e
      && CutFits(|pcm|, s, e)
      && CutSamples(pcm, s, e) == Splice(pcm, s, e)
  {
    assert startIdx * spp <= endIdx * spp;
  }

  /** What `cutSelection` did. */
  datatype CutOutcome = NotReady | NoSelection | OutOfBounds | Cut

  /** The normalise range: `s = selectionStart.coerceAtLeast(0) * samplesPerPoint`,
      and `e` the selection end's sample (at most the size) when that end is
      positive, else the size. */
  function NormalizeBounds(size: nat, selectionStart: int, selectionEnd: int, spp: int): (r: (int, int))
    ensures r.1 <= size
    ensures selectionEnd <= 0 ==> r.1 == size
  {
    var s := WrapInt32(Max(selectionStart, 0) * spp);
    var e := if selectionEnd > 0 then Min(WrapInt32(selectionEnd * spp), size) else size;
    (s, e)
  }

  /** With no selection the whole recording is normalised. */
  lemma NormalizeWholeWithoutSelection(size: nat, spp: int)
    ensures NormalizeBounds(size, -1, -1, spp) == (0, size)
  {
  }

  /** What `normalizeSelection` did: no samples yet, the range started
      before the array (an index error in the background coroutine), the range
      was silent or empty, or the range was scaled. */
  datatype NormalizeOutcome = NotLoaded | ReadFailed | Silent | Normalized

  /** How `playAudio` plays: the sample-accurate track once the samples are
      decoded, the media player on the file before. */
  datatype PlaybackMode = TrackPlayback | BackupPlayback

  /** One call of `audioTrack.write`: the offset copied from, the number of
      samples asked for, and the value returned. */
  datatype TrackWrite = TrackWrite(offset: int, count: int, written: int)

  /** How the track loop ended: the range was played, the track refused a
      write (`written <= 0`, which is also what a stopped or released track
      returns), the copy into the buffer failed, or `samplesPerPoint` was 0
      when the playhead was moved. */
  datatype RunEnd = Finished | Refused | CopyFailed | DivisionByZero

  datatype TrackRun = TrackRun(writes: seq<TrackWrite>, positions: seq<int>, end: RunEnd)

  /** The samples `playAudioTrack` plays: from the playhead's sample to the
      selection end's sample when the selection is not empty, else to the
      end of the samples. */
  function TrackRange(size: nat, playhead: int, selectionStart: int, selectionEnd: int, spp: int): (r: (int, int))
    ensures selectionEnd <= selectionStart ==> r.1 == size
    ensures 0 <= playhead && 0 <= spp && playhead * spp < 0x8000_0000 ==> r.0 == playhead * spp
  {
    (WrapInt32(playhead * spp), if selectionEnd > selectionStart then WrapInt32(selectionEnd * spp) else size)
  }

  /** What the track's k-th write returns: `results[k]`, and 0 once the track
      is gone. */
  function Answer(results: seq<int>, k: nat): int
  {
    if k < |results| then results[k] else 0
  }

  /** A write asks for `min(buffer, endLimit - offset)` samples read from
      inside the array. */
  predicate WriteFits(w: TrackWrite, endLimit: int, size: int, bufferSamples: nat)
  {
    0 <= w.offset < endLimit && w.count == Min(bufferSamples, endLimit - w.offset) && w.offset + w.count <= size
  }

  /** Each write after the first starts where the accepted part of the
      previous one ended, and only an accepted write is followed by another. */
  predicate Chained(ws: seq<TrackWrite>)
  {
    forall k :: 0 <= k < |ws| - 1 ==> ws[k].written > 0 && ws[k + 1].offset == ws[k].offset + ws[k].written
  }

  /** The offset after the writes. */
  function NextOffset(ws: seq<TrackWrite>, start: int): int
  {
    if ws == [] then start else ws[|ws| - 1].offset + ws[|ws| - 1].written
  }

  /** The writes so far fit, follow each other and were all accepted, and
      the playhead followed each of them. */
  predicate Progress(ws: seq<TrackWrite>, ps: seq<int>, start: int, endLimit: int, size: int,
                     bufferSamples: nat, results: seq<int>, spp: int)
  {
    && |ps| == |ws|
    && (ws != [] ==> ws[0].offset == start && ws[|ws| - 1].written > 0)
    && (forall k :: 0 <= k < |ws| ==> WriteFits(ws[k], endLimit, size, bufferSamples))
    && (forall k :: 0 <= k < |ws| ==> ws[k].written == Answer(results, k))
    && Chained(ws)
    && (forall k :: 0 <= k < |ps| ==> spp != 0 && ps[k] == Quot(ws[k].offset + ws[k].written, spp))
  }

  /** What `playAudioTrack` does on samples of size `size`, from `start` to
      `endLimit`, with a buffer of `bufferSamples` samples and a track that
      answers `results`: writes that fit and follow each other, the playhead
      moved to the point of each new offset, and the loop ends for one of
      the four reasons. */
  predicate TrackRunFits(run: TrackRun, start: int, endLimit: int, size: int, bufferSamples: nat,
                         results: seq<int>, spp: int)
  {
    var ws := run.writes;
    var ps := run.positions;
    && (ws != [] ==> ws[0].offset == start)
    && (forall k :: 0 <= k < |ws| ==> WriteFits(ws[k], endLimit, size, bufferSamples))
    && Chained(ws)
    && (forall k :: 0 <= k < |ws| ==> ws[k].written == Answer(results, k))
    && |ps| <= |ws|
    && (forall k :: 0 <= k < |ps| ==> spp != 0 && ps[k] == Quot(ws[k].offset + ws[k].written, spp))
    && match run.end {
         case Finished =>
           |ps| == |ws| && (ws != [] ==> ws[|ws| - 1].written > 0) && NextOffset(ws, start) >= endLimit
         case Refused =>
           ws != [] && ws[|ws| - 1].written <= 0 && |ps| == |ws| - 1
         case CopyFailed =>
           var next := NextOffset(ws, start);
           && |ps| == |ws| && (ws != [] ==> ws[|ws| - 1].written > 0)
           && next < endLimit && (next < 0 || next + Min(bufferSamples, endLimit - next) > size)
         case DivisionByZero =>
           spp == 0 && |ws| == 1 && ps == [] && ws[0].written > 0
       }
  }

  /** An accepted write, and the playhead moved to its end, extend the
      progress. */
  lemma ProgressAppend(ws: seq<TrackWrite>, ps: seq<int>, w: TrackWrite, start: int, endLimit: int,
                       size: int, bufferSamples: nat, results: seq<int>, spp: int)
    requires Progress(ws, ps, start, endLimit, size, bufferSamples, results, spp)
    requires WriteFits(w, endLimit, size, bufferSamples) && w.offset == NextOffset(ws, start)
    requires w.written == Answer(results, |ws|) > 0 && spp != 0
    ensures Progress(ws + [w], ps + [Quot(w.offset + w.written, spp)], start, endLimit, size, bufferSamples, results, spp)
    ensures NextOffset(ws + [w], start) == w.offset + w.written
  {
    ChainedAppend(ws, start, w);
  }

  /** The four ways out of the loop each give a run that fits. */
  lemma EndFits(ws: seq<TrackWrite>, ps: seq<int>, end: RunEnd, start: int, endLimit: int,
                size: int, bufferSamples: nat, results: seq<int>, spp: int)
    requires Progress(ws, ps, start, endLimit, size, bufferSamples, results, spp)
    requires end == Finished ==> NextOffset(ws, start) >= endLimit
    requires end == CopyFailed ==>
      var next := NextOffset(ws, start);
      next < endLimit && (next < 0 || next + Min(bufferSamples, endLimit - next) > size)
    requires end == Finished || end == CopyFailed
    ensures TrackRunFits(TrackRun(ws, ps, end), start, endLimit, size, bufferSamples, results, spp)
  {
  }

  /** A write the track refuses ends the run. */
  lemma RefusedFits(ws: seq<TrackWrite>, ps: seq<int>, w: TrackWrite, start: int, endLimit: int,
                    size: int, bufferSamples: nat, results: seq<int>, spp: int)
    requires Progress(ws, ps, start, endLimit, size, bufferSamples, results, spp)
    requires WriteFits(w, endLimit, size, bufferSamples) && w.offset == NextOffset(ws, start)
    requires w.written == Answer(results, |ws|) <= 0
    ensures TrackRunFits(TrackRun(ws + [w], ps, Refused), start, endLimit, size, bufferSamples, results, spp)
  {
    ChainedAppend(ws, start, w);
  }

  /** With no samples per point, the first accepted write ends the run on
      the division by zero. */
  lemma DivisionFits(ws: seq<TrackWrite>, ps: seq<int>, w: TrackWrite, start: int, endLimit: int,
                     size: int, bufferSamples: nat, results: seq<int>)
    requires Progress(ws, ps, start, endLimit, size, bufferSamples, results, 0)
    requires WriteFits(w, endLimit, size, bufferSamples) && w.offset == NextOffset(ws, start)
    requires w.written == Answer(results, |ws|) > 0
    ensures TrackRunFits(TrackRun(ws + [w], ps, DivisionByZero), start, endLimit, size, bufferSamples, results, 0)
  {
    assert ws == [];
  }

  /** When the track accepts every write in full, the writes are the chunks
      of the range, in order; a finished run played all of them. */
  lemma PlaysInChunks(run: TrackRun, start: nat, endLimit: nat, size: int, bufferSamples: nat,
                      results: seq<int>, spp: int)
    requires bufferSamples > 0
    requires TrackRunFits(run, start, endLimit, size, bufferSamples, results, spp)
    requires forall k :: 0 <= k < |run.writes| ==> run.writes[k].written == run.writes[k].count
    ensures run.end != Refused
    ensures var cs := Chunks(start, endLimit, bufferSamples);
      && |run.writes| <= |cs|
      && (forall k :: 0 <= k < |run.writes| ==>
            run.writes[k].offset == cs[k].offset && run.writes[k].count == cs[k].len)
      && (run.end == Finished ==> |run.writes| == |cs|)
  {
    var ws := run.writes;
    ChunkedWrites(ws, start, endLimit, size, bufferSamples);
  }

  /** Appending a write that starts at the next offset keeps the writes
      chained. */
  lemma ChainedAppend(ws: seq<TrackWrite>, start: int, w: TrackWrite)
    requires Chained(ws) && (ws != [] ==> ws[|ws| - 1].written > 0)
    requires w.offset == NextOffset(ws, start)
    ensures Chained(ws + [w]) && NextOffset(ws + [w], start) == w.offset + w.written
  {
    var ws' := ws + [w];
    forall k | 0 <= k < |ws'| - 1
      ensures ws'[k].written > 0 && ws'[k + 1].offset == ws'[k].offset + ws'[k].written
    {
      if k < |ws| - 1 {
        assert ws'[k] == ws[k] && ws'[k + 1] == ws[k + 1];
      }
    }
  }

  lemma {:induction false} ChunkedWrites(ws: seq<TrackWrite>, start: nat, endLimit: nat, size: int, bufferSamples: nat)
    requires bufferSamples > 0
    requires ws != [] ==> ws[0].offset == start
    requires forall k :: 0 <= k < |ws| ==> WriteFits(ws[k], endLimit, size, bufferSamples) && ws[k].written == ws[k].count
    requires forall k :: 0 <= k < |ws| - 1 ==> ws[k + 1].offset == ws[k].offset + ws[k].written
    ensures var cs := Chunks(start, endLimit, bufferSamples);
      && |ws| <= |cs|
      && (forall k :: 0 <= k < |ws| ==> ws[k].offset == cs[k].offset && ws[k].count == cs[k].len)
      && (NextOffset(ws, start) >= endLimit ==> |ws| == |cs|)
    decreases |ws|
  {
    if ws != [] {
      var n := Min(bufferSamples, endLimit - start);
      var cs := Chunks(start, endLimit, bufferSamples);
      assert cs == [Span(start, n)] + Chunks(start + n, endLimit, bufferSamples);
      ChunkedWrites(ws[1..], start + n, endLimit, size, bufferSamples);
      if |ws| > 1 {
        assert NextOffset(ws[1..], start + n) == NextOffset(ws, start);
      }
    }
  }

  class EditorActivity {
    const pointsPerSecond: int
    var workingPcm: array?<Short>
    var isPcmReady: bool
    var sampleRate: int
    var currentChannels: int
    var cutEnabled: bool
    var normalizeEnabled: bool

    /** The edit buttons are enabled exactly when the samples are ready. */
    ghost predicate Valid()
      reads this
    {
      pointsPerSecond > 0 && cutEnabled == isPcmReady && normalizeEnabled == isPcmReady
    }

    /** `onCreate` up to `loadEditorData`: no samples, edit buttons off. */
    constructor(pointsPerSecond: int)
      requires pointsPerSecond > 0
      ensures this.pointsPerSecond == pointsPerSecond
      ensures workingPcm == null && !isPcmReady && sampleRate == 44100 && currentChannels == 1
      ensures Valid()
    {
      this.pointsPerSecond := pointsPerSecond;
      workingPcm := null;
      sampleRate := 44100;
      currentChannels := 1;
      new;
      UpdateEditButtons(false);
    }

    /** `updateEditButtons(enabled)`. */
    method UpdateEditButtons(enabled: bool)
      requires pointsPerSecond > 0
      modifies this
      ensures isPcmReady == enabled && Valid()
      ensures workingPcm == old(workingPcm) && sampleRate == old(sampleRate)
      ensures currentChannels == old(currentChannels)
    {
      isPcmReady := enabled;
      cutEnabled := enabled;
      normalizeEnabled := enabled;
    }

    /** The end of the background decode: the samples become the working
        copy (always mono) and editing is enabled. */
    method OnPcmDecoded(data: array<Short>, rate: int)
      requires Valid()
      modifies this
      ensures workingPcm == data && sampleRate == rate && currentChannels == 1
      ensures isPcmReady && Valid()
    {
      workingPcm := data;
      sampleRate := rate;
      currentChannels := 1;
      UpdateEditButtons(true);
    }

    /** `playAudio`'s choice. */
    function Mode(): (m: PlaybackMode)
      reads this
      ensures m == TrackPlayback <==> isPcmReady && workingPcm != null
    {
      if isPcmReady && workingPcm != null then TrackPlayback else BackupPlayback
    }

    /** `cutSelection` for the view's selection: nothing without samples or
        without a non-empty selection; otherwise the samples of the selected
        points are removed and the result becomes the working copy (a fresh
        array). */
    method CutSelection(selectionStart: int, selectionEnd: int) returns (outcome: CutOutcome)
      requires Valid()
      modifies this
      ensures Valid() && isPcmReady == old(isPcmReady) && sampleRate == old(sampleRate)
      ensures old(workingPcm) == null <==> outcome == NotReady
      ensures outcome == NoSelection <==>
        old(workingPcm) != null && (selectionStart < 0 || selectionEnd <= selectionStart)
      ensures outcome != Cut ==> workingPcm == old(workingPcm)
      ensures old(workingPcm) != null && outcome != NoSelection ==>
        var (s, e) := CutBounds(old(workingPcm).Length, selectionStart, selectionEnd,
                                SamplesPerPoint(sampleRate, pointsPerSecond));
        && (outcome == Cut <==> CutFits(old(workingPcm).Length, s, e))
        && (outcome == Cut ==>
              workingPcm != null && fresh(workingPcm) && workingPcm[..] == CutSamples(old(workingPcm[..]), s, e))
    {
      var pcm := workingPcm;
      if pcm == null {
        return NotReady;
      }
      if selectionStart < 0 || selectionEnd <= selectionStart {
        return NoSelection;
      }
      var samplesPerPoint := SamplesPerPoint(sampleRate, pointsPerSecond);
      var (s, e) := CutBounds(pcm.Length, selectionStart, selectionEnd, samplesPerPoint);
      if !CutFits(pcm.Length, s, e) {
        return OutOfBounds;
      }
      var newPcm := new Short[pcm.Length - (e - s)];
      forall i | 0 <= i < s {
        newPcm[i] := pcm[i];
      }
      forall i | s <= i < newPcm.Length {
        newPcm[i] := pcm[e + (i - s)];
      }
      assert newPcm[..] == CutSamples(pcm[..], s, e);
      workingPcm := newPcm;
      outcome := Cut;
    }

    /** `normalizeSelection`: nothing without samples. A range starting
        before the array fails on its first read and changes nothing.
        Otherwise, when the range holds a non-silent sample, each sample of
        the range becomes its scaled value clamped to the 16-bit range
        (`gain` stands for the floating-point product `pcm[i] * (0.95f / max)`
        truncated to an `Int`, given the peak magnitude out of 32768; the
        float peak `abs(pcm[i] / 32768f)` is exact, so it is positive exactly
        when the integer peak is). Samples outside the range never change. */
    method NormalizeSelection(selectionStart: int, selectionEnd: int, gain: (Short, nat) -> int)
      returns (outcome: NormalizeOutcome)
      requires Valid()
      modifies workingPcm
      ensures workingPcm == null <==> outcome == NotLoaded
      ensures workingPcm != null ==>
        var (s, e) := NormalizeBounds(workingPcm.Length, selectionStart, selectionEnd,
                                      SamplesPerPoint(sampleRate, pointsPerSecond));
        && (outcome == ReadFailed <==> s < 0 && s < e)
        && (outcome == Normalized <==> 0 <= s < e && MaxAbs(old(workingPcm[s..e])) > 0)
        && (outcome != Normalized ==> workingPcm[..] == old(workingPcm[..]))
        && (outcome == Normalized ==>
              && (forall i :: 0 <= i < workingPcm.Length && !(s <= i < e) ==> workingPcm[i] == old(workingPcm[i]))
              && (forall i :: s <= i < e ==>
                    workingPcm[i] == Clamp(gain(old(workingPcm[i]), MaxAbs(old(workingPcm[s..e]))), -0x8000, 0x7FFF)))
    {
      var pcm := workingPcm;
      if pcm == null {
        return NotLoaded;
      }
      var samplesPerPoint := SamplesPerPoint(sampleRate, pointsPerSecond);
      var (s, e) := NormalizeBounds(pcm.Length, selectionStart, selectionEnd, samplesPerPoint);
      if s < 0 && s < e {
        return ReadFailed;
      }
      var peak: nat := 0;
      if s < e {
        for i := s to e
          invariant peak == MaxAbs(pcm[s..i])
        {
          assert pcm[s..i + 1][..i - s] == pcm[s..i];
          if Abs(pcm[i]) > peak {
            peak := Abs(pcm[i]);
          }
        }
      }
      if peak == 0 {
        return Silent;
      }
      for i := s to e
        invariant forall k :: 0 <= k < pcm.Length && !(s <= k < i) ==> pcm[k] == old(pcm[k])
        invariant forall k :: s <= k < i ==> pcm[k] == Clamp(gain(old(pcm[k]), peak), -0x8000, 0x7FFF)
      {
        pcm[i] := Clamp(gain(pcm[i], peak), -0x8000, 0x7FFF);
      }
      outcome := Normalized;
    }

    /** `playAudioTrack`: copy at most `bufferSamples` samples at a time
        into the buffer and write them to the track, whose k-th write returns
        `results[k]`; after each accepted write the playhead moves to the
        point of the new offset. Nothing without samples. */
    method PlayAudioTrack(playhead: int, selectionStart: int, selectionEnd: int,
                          bufferSamples: nat, results: seq<int>)
      returns (run: Option<TrackRun>)
      requires Valid()
      ensures workingPcm == null <==> run.None?
      ensures run.Some? ==>
        var spp := SamplesPerPoint(sampleRate, pointsPerSecond);
        var (start, endLimit) := TrackRange(workingPcm.Length, playhead, selectionStart, selectionEnd, spp);
        TrackRunFits(run.value, start, endLimit, workingPcm.Length, bufferSamples, results, spp)
    {
      var pcm := workingPcm;
      if pcm == null {
        return None;
      }
      var samplesPerPoint := SamplesPerPoint(sampleRate, pointsPerSecond);
      var (start, endLimit) := TrackRange(pcm.Length, playhead, selectionStart, selectionEnd, samplesPerPoint);
      var r := WriteTrack(pcm.Length, start, endLimit, bufferSamples, results, samplesPerPoint);
      run := Some(r);
    }

    /** The write loop of `playAudioTrack` over [start, endLimit) of a
        buffer of `length` samples. */
    static method WriteTrack(length: int, start: int, endLimit: int, bufferSamples: nat,
                             results: seq<int>, samplesPerPoint: int)
      returns (run: TrackRun)
      ensures TrackRunFits(run, start, endLimit, length, bufferSamples, results, samplesPerPoint)
    {
      var currentSampleOffset := start;
      var writes: seq<TrackWrite> := [];
      var positions: seq<int> := [];
      while currentSampleOffset < endLimit
        invariant |writes| <= |results| && currentSampleOffset == NextOffset(writes, start)
        invariant Progress(writes, positions, start, endLimit, length, bufferSamples, results, samplesPerPoint)
        decreases |results| - |writes|
      {
        var toWrite := Min(bufferSamples, endLimit - currentSampleOffset);
        if currentSampleOffset < 0 || currentSampleOffset + toWrite > length {
          EndFits(writes, positions, CopyFailed, start, endLimit, length, bufferSamples, results, samplesPerPoint);
          return TrackRun(writes, positions, CopyFailed);
        }
        var written := Answer(results, |writes|);
        var w := TrackWrite(currentSampleOffset, toWrite, written);
        if written <= 0 {
          RefusedFits(writes, positions, w, start, endLimit, length, bufferSamples, results, samplesPerPoint);
          return TrackRun(writes + [w], positions, Refused);
        }
        if samplesPerPoint == 0 {
          DivisionFits(writes, positions, w, start, endLimit, length, bufferSamples, results);
          return TrackRun(writes + [w], positions, DivisionByZero);
        }
        ProgressAppend(writes, positions, w, start, endLimit, length, bufferSamples, results, samplesPerPoint);
        writes := writes + [w];
        currentSampleOffset := currentSampleOffset + written;
        positions := positions + [Quot(currentSampleOffset, samplesPerPoint)];
      }
      EndFits(writes, positions, Finished, start, endLimit, length, bufferSamples, results, samplesPerPoint);
      run := TrackRun(writes, positions, Finished);
    }
  }
}
