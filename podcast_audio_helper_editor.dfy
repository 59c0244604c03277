/** The streaming editor declared in `com/podcastcreateur/app/AudioHelper.kt`
    (a class named `EditorActivity`): it keeps only the file's metadata and a
    downsampled waveform, decodes the samples again for each playback, and
    hands cut and normalise to file-level helpers as millisecond ranges.
    The metadata type and those helpers (`getAudioMetadata`, `trimAudio`,
    `normalizeAudio`, `decodeToPCM`) are defined in a file that is not part
    of this model: the metadata is a value here, the decoded samples are
    described by their number, and cut and normalise by the request they
    make. */
module PodcastAudioHelperEditor {
  import opened Numeric
  import opened Options
  import opened Text
  import opened Chunking
  import opened ChronicleNames
  import opened EditorRanges

  /** The metadata fields the editor reads. */
  datatype Metadata = Metadata(sampleRate: int, totalSamples: int, durationMs: int)

  /** Samples written to the track per call. */
  const PLAYBACK_BUFFER: nat := 4096

  /** What the re-record confirmation hands to the recorder. */
  datatype RecorderLaunch = RecorderLaunch(projectPath: string, name: string, prefix: string, scriptPath: string)

  /** `File(parent, child).absolutePath` for an absolute parent directory. */
  function ChildPath(parent: string, child: string): (p: string)
    ensures EndsWith(p, child)
  {
    var p := if EndsWith(parent, "/") then parent + child else parent + "/" + child;
    assert p[|p| - |child|..] == child;
    p
  }

  /** The re-record confirmation on the file `fileName` in `projectPath`:
      a name `ddd_<name>.<ext>` launches the recorder for that chronicle and
      its script `ddd_<name>.txt`; any other name does nothing. */
  function ReRecord(fileName: string, projectPath: string): (r: Option<RecorderLaunch>)
    ensures r.None? <==> ParseRecordingName(fileName).None?
    ensures r.Some? ==>
      && r.value.projectPath == projectPath
      && r.value.scriptPath == ChildPath(projectPath, r.value.prefix + r.value.name + ".txt")
  {
    match ParseRecordingName(fileName)
    case None => None
    case Some(parts) => Some(RecorderLaunch(projectPath, parts.name, parts.prefix, ChildPath(projectPath, ScriptName(parts))))
  }

  /** Re-recording chronicle `i` launches the recorder on that chronicle's
      prefix and name, with its script next to the audio. */
  lemma ReRecordChronicle(i: nat, name: string, ext: string, projectPath: string)
    requires i < 1000 && SingleLine(name) && SingleLine(ext) && '.' !in ext
    ensures ReRecord(Prefix(i) + name + "." + ext, projectPath)
      == Some(RecorderLaunch(projectPath, name, Prefix(i), ChildPath(projectPath, Prefix(i) + name + ".txt")))
  {
    ParseRoundTrip(i, name, ext);
  }

  /** `(x * 1000L) / sampleRate`: a sample index as milliseconds. */
  function SampleToMs(x: int, sampleRate: int): int
    requires sampleRate != 0
  {
    Quot(x * 1000, sampleRate)
  }

  /** The conversion rounds down to the millisecond: the result is the
      whole number of milliseconds the first `x` samples last. */
  lemma SampleToMsFloor(x: nat, sampleRate: int)
    requires sampleRate > 0
    ensures var ms := SampleToMs(x, sampleRate);
      ms >= 0 && ms * sampleRate <= x * 1000 < (ms + 1) * sampleRate
  {
    QuotNatural(x * 1000, sampleRate);
  }

  /** A later sample is never at an earlier millisecond. */
  lemma SampleToMsMonotone(x: nat, y: nat, sampleRate: int)
    requires x <= y && sampleRate > 0
    ensures SampleToMs(x, sampleRate) <= SampleToMs(y, sampleRate)
  {
    SampleToMsFloor(x, sampleRate);
    SampleToMsFloor(y, sampleRate);
    var a, b := SampleToMs(x, sampleRate), SampleToMs(y, sampleRate);
    if a > b {
      ScaleMonotone(a, b + 1, sampleRate);
      assert false;
    }
  }

  lemma ScaleMonotone(a: int, b: int, k: int)
    requires a >= b && k > 0
    ensures a * k >= b * k
  {
    assert a * k - b * k == (a - b) * k;
  }

  /** A millisecond range [from, to) of the file. */
  datatype MsRange = MsRange(from: int, to: int)

  /** Millisecond `t` lies in one of the ranges. */
  predicate Covers(ranges: seq<MsRange>, t: int)
  {
    exists i :: 0 <= i < |ranges| && ranges[i].from <= t < ranges[i].to
  }

  /** What a confirmed cut asks of the trimming helper. */
  datatype CutRequest = CutWithoutMetadata | CutWithoutSelection | CutFailed | Trim(keep: seq<MsRange>)

  /** `cutSelection` then `performCut` for the view's selection, with the
      parts to keep as `performCut` passes them: only [0, startMs). */
  function CutSelectionAsWritten(metadata: Option<Metadata>, start: int, end: int): (r: CutRequest)
    ensures r.Trim? ==> |r.keep| == 1 && r.keep[0].from == 0
  {
    match metadata
    case None => CutWithoutMetadata
    case Some(meta) =>
      if start < 0 || end <= start then CutWithoutSelection
      else if meta.sampleRate == 0 then CutFailed
      else Trim([MsRange(0, SampleToMs(start, meta.sampleRate))])
  }

  /** As written, a cut that ends before the end of the file also drops
      everything after the selection: a millisecond after `endMs` is no
      longer kept although it lies outside the selection. */
  lemma CutAsWrittenDropsTail(meta: Metadata, start: nat, end: nat, t: int)
    requires meta.sampleRate > 0 && start < end
    requires SampleToMs(end, meta.sampleRate) <= t < meta.durationMs
    ensures var r := CutSelectionAsWritten(Some(meta), start, end);
      r.Trim? && !Covers(r.keep, t)
  {
    SampleToMsMonotone(start, end, meta.sampleRate);
  }

  /** A ten-second file at 44100 Hz with the second second selected: the
      cut keeps only the first second. */
  lemma CutAsWrittenExample()
    ensures CutSelectionAsWritten(Some(Metadata(44100, 441000, 10000)), 44100, 88200)
      == Trim([MsRange(0, 1000)])
    ensures !Covers(CutSelectionAsWritten(Some(Metadata(44100, 441000, 10000)), 44100, 88200).keep, 5000)
  {
    assert SampleToMs(44100, 44100) == 1000;
  }

  /** `cutSelection` then `performCut` as intended: keep the parts before
      and after the selection. */
  function CutSelection(metadata: Option<Metadata>, start: int, end: int): (r: CutRequest)
    ensures r == CutWithoutMetadata <==> metadata.None?
    ensures r == CutWithoutSelection <==> metadata.Some? && (start < 0 || end <= start)
    ensures r == CutFailed <==> metadata.Some? && 0 <= start < end && metadata.value.sampleRate == 0
  {
    match metadata
    case None => CutWithoutMetadata
    case Some(meta) =>
      if start < 0 || end <= start then CutWithoutSelection
      else if meta.sampleRate == 0 then CutFailed
      else Trim([MsRange(0, SampleToMs(start, meta.sampleRate)),
                 MsRange(SampleToMs(end, meta.sampleRate), meta.durationMs)])
  }

  /** The intended cut keeps exactly the milliseconds of the file outside the
      selection. */
  lemma CutKeepsAllButSelection(meta: Metadata, start: int, end: int)
    requires meta.sampleRate > 0 && 0 <= start < end
    ensures var r := CutSelection(Some(meta), start, end);
      var (startMs, endMs) := (SampleToMs(start, meta.sampleRate), SampleToMs(end, meta.sampleRate));
      && r.Trim?
      && forall t :: 0 <= t < meta.durationMs ==> (Covers(r.keep, t) <==> !(startMs <= t < endMs))
  {
    var r := CutSelection(Some(meta), start, end);
    var (startMs, endMs) := (SampleToMs(start, meta.sampleRate), SampleToMs(end, meta.sampleRate));
    SampleToMsMonotone(start, end, meta.sampleRate);
    forall t | 0 <= t < meta.durationMs
      ensures Covers(r.keep, t) <==> !(startMs <= t < endMs)
    {
      if t < startMs {
        assert r.keep[0].from <= t < r.keep[0].to;
      } else if t >= endMs {
        assert r.keep[1].from <= t < r.keep[1].to;
      }
    }
  }

  /** What `normalizeSelection` asks of the normalising helper. */
  datatype NormalizeRequest = NormalizeWithoutMetadata | NormalizeFailed | Normalize(startMs: int, endMs: int)

  /** `normalizeSelection`: the selection (or the whole file, counted as
      `totalSamples.toInt()` samples) converted to milliseconds. */
  function NormalizeSelection(metadata: Option<Metadata>, selectionStart: int, selectionEnd: int): (r: NormalizeRequest)
    ensures r == NormalizeWithoutMetadata <==> metadata.None?
    ensures r == NormalizeFailed <==> metadata.Some? && metadata.value.sampleRate == 0
  {
    match metadata
    case None => NormalizeWithoutMetadata
    case Some(meta) =>
      if meta.sampleRate == 0 then NormalizeFailed
      else
        var (start, end) := NormalizeRange(selectionStart, selectionEnd, WrapInt32(meta.totalSamples));
        Normalize(SampleToMs(start, meta.sampleRate), SampleToMs(end, meta.sampleRate))
  }

  /** A selection made in the view is normalised over its own milliseconds,
      in order. */
  lemma NormalizeSelected(meta: Metadata, selectionStart: int, selectionEnd: int)
    requires meta.sampleRate > 0 && 0 <= selectionStart < selectionEnd
    ensures var r := NormalizeSelection(Some(meta), selectionStart, selectionEnd);
      && r == Normalize(SampleToMs(selectionStart, meta.sampleRate), SampleToMs(selectionEnd, meta.sampleRate))
      && 0 <= r.startMs <= r.endMs
  {
    SampleToMsFloor(selectionStart, meta.sampleRate);
    SampleToMsMonotone(selectionStart, selectionEnd, meta.sampleRate);
  }

  /** With no selection the whole file is normalised: from 0 ms to the time
      of its last sample. */
  lemma NormalizeWholeFile(meta: Metadata)
    requires meta.sampleRate > 0 && 0 <= meta.totalSamples < 0x8000_0000
    ensures NormalizeSelection(Some(meta), -1, -1) == Normalize(0, SampleToMs(meta.totalSamples, meta.sampleRate))
  {
  }

  /** What one `playAudio` run does: the chunks written, the offsets at
      which the playhead is moved, and whether it stopped on the division by
      `sampleRate / 5 == 0`. */
  datatype Playback = Playback(writes: seq<Span>, updates: seq<nat>, failed: bool)

  class EditorActivity {
    var metadata: Option<Metadata>
    var isPlaying: bool

    constructor()
      ensures metadata.None? && !isPlaying
    {
      metadata := None;
      isPlaying := false;
    }

    /** The end of `loadWaveformOptimized`: the metadata read from the file
        (none when it cannot be read). */
    method LoadMetadata(m: Option<Metadata>)
      modifies this
      ensures metadata == m && isPlaying == old(isPlaying)
    {
      metadata := m;
    }

    /** `stopAudio`. */
    method StopAudio()
      modifies this
      ensures !isPlaying && metadata == old(metadata)
    {
      isPlaying := false;
    }

    /** `playAudio` over decoded samples of size `pcmSize`, the UI asking it
        to stop after `stopAfter` writes: nothing without metadata or while
        already playing; otherwise the range is written chunk by chunk, at
        most 4096 samples at a time, the playhead following every chunk end
        that is a multiple of `sampleRate / 5`, and playing is over at the
        end. */
    method PlayAudio(selectionStart: int, selectionEnd: int, playhead: int, pcmSize: nat, stopAfter: nat)
      returns (run: Option<Playback>)
      modifies this
      ensures metadata == old(metadata)
      ensures run.None? <==> old(metadata).None? || old(isPlaying)
      ensures run.None? ==> isPlaying == old(isPlaying)
      ensures run.Some? ==>
        var (startIdx, endIdx) := PlaybackRange(pcmSize, selectionStart, selectionEnd, playhead);
        var all := Chunks(startIdx, endIdx, PLAYBACK_BUFFER);
        var step := Quot(metadata.value.sampleRate, 5);
        && !isPlaying
        && (step != 0 ==>
              && run.value.writes == all[..Min(stopAfter, |all|)]
              && run.value.updates == MarkedEnds(run.value.writes, step)
              && !run.value.failed)
        && (step == 0 ==>
              && run.value.writes == all[..Min(Min(stopAfter, 1), |all|)]
              && run.value.updates == []
              && run.value.failed == (run.value.writes != []))
    {
      if metadata.None? || isPlaying {
        return None;
      }
      isPlaying := true;
      var step := Quot(metadata.value.sampleRate, 5);
      var (startIdx, endIdx) := PlaybackRange(pcmSize, selectionStart, selectionEnd, playhead);
      var writes, updates, failed := WriteChunks(startIdx, endIdx, stopAfter, step);
      isPlaying := false;
      run := Some(Playback(writes, updates, failed));
    }

    /** The write loop of `playAudio` over [startIdx, endIdx): at most
        `stopAfter` chunks; after each, the playhead follows when the offset
        is a multiple of `step`, and a zero `step` throws. */
    static method WriteChunks(startIdx: nat, endIdx: nat, stopAfter: nat, step: int)
      returns (writes: seq<Span>, updates: seq<nat>, failed: bool)
      ensures var all := Chunks(startIdx, endIdx, PLAYBACK_BUFFER);
        && (step != 0 ==>
              && writes == all[..Min(stopAfter, |all|)]
              && updates == MarkedEnds(writes, step)
              && !failed)
        && (step == 0 ==>
              && writes == all[..Min(Min(stopAfter, 1), |all|)]
              && updates == []
              && failed == (writes != []))
    {
      ghost var all := Chunks(startIdx, endIdx, PLAYBACK_BUFFER);
      var offset: nat := startIdx;
      writes, updates, failed := [], [], false;
      while |writes| < stopAfter && offset < endIdx
        invariant writes + Chunks(offset, endIdx, PLAYBACK_BUFFER) == all
        invariant |writes| <= stopAfter && !failed
        invariant step == 0 ==> writes == [] && updates == []
        invariant step != 0 ==> updates == MarkedEnds(writes, step)
        decreases endIdx - offset
      {
        var len := Min(PLAYBACK_BUFFER, endIdx - offset);
        ChunksStep(writes, offset, endIdx, PLAYBACK_BUFFER, all);
        ghost var before := writes;
        writes := writes + [Span(offset, len)];
        offset := offset + len;
        assert writes + Chunks(offset, endIdx, PLAYBACK_BUFFER) == all;
        if step == 0 {
          failed := true;
          break;
        }
        MarkedEndsSnoc(before, Span(offset - len, len), step);
        assert Span(offset - len, len).End() == offset;
        if OnStep(offset, step) {
          updates := updates + [offset];
        }
      }
      WritesDone(startIdx, endIdx, stopAfter, step, writes, updates, failed, offset);
    }

    /** Where the write loop of `WriteChunks` leaves off: the chunks written
        are the first ones of the range, as many as the budget allows. */
    static lemma WritesDone(startIdx: nat, endIdx: nat, stopAfter: nat, step: int,
                            writes: seq<Span>, updates: seq<nat>, failed: bool, offset: nat)
      requires writes + Chunks(offset, endIdx, PLAYBACK_BUFFER) == Chunks(startIdx, endIdx, PLAYBACK_BUFFER)
      requires |writes| <= (if step == 0 then Min(stopAfter, 1) else stopAfter)
      requires |writes| < (if step == 0 then Min(stopAfter, 1) else stopAfter) ==> offset >= endIdx
      requires step != 0 ==> updates == MarkedEnds(writes, step) && !failed
      requires step == 0 ==> updates == [] && failed == (writes != [])
      ensures var all := Chunks(startIdx, endIdx, PLAYBACK_BUFFER);
        && (step != 0 ==> writes == all[..Min(stopAfter, |all|)])
        && (step == 0 ==> writes == all[..Min(Min(stopAfter, 1), |all|)])
    {
      ChunksPrefix(writes, offset, endIdx, PLAYBACK_BUFFER, Chunks(startIdx, endIdx, PLAYBACK_BUFFER));
    }
  }
}
