/** The chronicle editor (`com/sonfusion/app/EditorActivity.kt`): the whole
    recording is held as an array of 16-bit mono samples at 44100 Hz, and
    the selection and playhead of the waveform view decide what is cut,
    normalised and played. The audio track, the threads and the dialogs
    are not part of this model: playback is described by the chunks it
    writes, and a stop request from the UI by the number of writes made
    before it is seen. */
module SonEditorActivity {
  import opened Numeric
  import opened Options
  import opened Text
  import opened Pcm16
  import opened Chunking
  import opened ChronicleNames
  import opened EditorRanges

  const SAMPLE_RATE: nat := 44100
  const PLAYBACK_BUFFER: nat := 2048
  /** The playhead is moved every 8820 samples, a fifth of a second. */
  const PLAYHEAD_STEP: nat := 8820

  /** `formatTime(samples)`: whole seconds of audio as `mm:ss`. */
  function FormatTime(samples: nat): string
  {
    Clock(Quot(samples, SAMPLE_RATE))
  }

  /** Below 100 minutes of audio the text is `mm:ss` and reads back as the
      number of whole seconds. */
  lemma FormatTimeReadsBack(samples: nat)
    requires samples < 6000 * SAMPLE_RATE
    ensures var t := FormatTime(samples);
      && |t| == 5 && t[2] == ':' && AllDigits(t[..2]) && AllDigits(t[3..])
      && 60 * ValueOf(t[..2]) + ValueOf(t[3..]) == samples / SAMPLE_RATE
  {
    QuotNatural(samples, SAMPLE_RATE);
    ClockReadsBack(samples / SAMPLE_RATE);
  }

  /** What `cutSelection` does to the samples. */
  datatype CutResult = Ignored | Cut(pcm: seq<Short>) | OutOfBounds

  /** `cutSelection`: nothing without a non-empty selection; a selection
      ending past the samples makes the copy fail; otherwise the selected
      samples are removed. */
  function CutSelection(pcm: seq<Short>, start: int, end: int): (r: CutResult)
    ensures r.Ignored? <==> start < 0 || end <= start
    ensures r.OutOfBounds? <==> 0 <= start < end && end > |pcm|
    ensures r.Cut? ==> |r.pcm| == |pcm| - (end - start)
    ensures r.Cut? ==> r.pcm[..start] == pcm[..start] && r.pcm[start..] == pcm[end..]
  {
    if start < 0 || end <= start then Ignored
    else if end > |pcm| then OutOfBounds
    else Cut(Splice(pcm, start, end))
  }

  /** Putting the cut samples back where they were gives the original. */
  lemma CutIsUndoable(pcm: seq<Short>, start: int, end: int)
    requires CutSelection(pcm, start, end).Cut?
    ensures var cut := CutSelection(pcm, start, end).pcm;
      cut[..start] + pcm[start..end] + cut[start..] == pcm
  {
    SpliceRestore(pcm, start, end);
  }

  /** The first loop of `normalizeSelection`: the peak magnitude over
      [start, end). */
  method Peak(pcm: array<Short>, start: nat, end: int) returns (maxVal: nat)
    requires start >= end || end <= pcm.Length
    ensures start < end ==> maxVal == MaxAbs(pcm[start..end])
    ensures start >= end ==> maxVal == 0
  {
    maxVal := 0;
    if start >= end {
      return;
    }
    for i := start to end
      invariant maxVal == MaxAbs(pcm[start..i])
    {
      assert pcm[start..i + 1][..i - start] == pcm[start..i];
      if Abs(pcm[i]) > maxVal {
        maxVal := Abs(pcm[i]);
      }
    }
  }

  /** `normalizeSelection`: when the range holds a non-silent sample, every
      sample of the range is replaced by its scaled value (`scale` stands
      for the floating-point gain `32767 / peak` and the conversion back to
      a 16-bit sample); samples outside the range never change, and a
      silent range is left alone. */
  method NormalizeSelection(pcm: array<Short>, selectionStart: int, selectionEnd: int,
                            scale: (Short, nat) -> Short)
    returns (normalized: bool)
    requires var (s, e) := NormalizeRange(selectionStart, selectionEnd, pcm.Length);
      s >= e || e <= pcm.Length
    modifies pcm
    ensures var (s, e) := NormalizeRange(selectionStart, selectionEnd, pcm.Length);
      && (normalized <==> s < e && MaxAbs(old(pcm[s..e])) > 0)
      && (forall i :: 0 <= i < pcm.Length && !(s <= i < e) ==> pcm[i] == old(pcm[i]))
      && (forall i :: s <= i < e ==> pcm[i] == if normalized then scale(old(pcm[i]), MaxAbs(old(pcm[s..e]))) else old(pcm[i]))
  {
    var (start, end) := NormalizeRange(selectionStart, selectionEnd, pcm.Length);
    var maxVal := Peak(pcm, start, end);
    normalized := maxVal > 0;
    if maxVal > 0 {
      for i := start to end
        invariant forall k :: 0 <= k < pcm.Length && !(start <= k < i) ==> pcm[k] == old(pcm[k])
        invariant forall k :: start <= k < i ==> pcm[k] == scale(old(pcm[k]), maxVal)
      {
        pcm[i] := scale(pcm[i], maxVal);
      }
    }
  }

  /** What one `playAudio` run does: the chunks written, the positions the
      playhead is moved to during playback, and the playhead set at the end
      (the start of playback, when it ran to its end). */
  datatype Playback = Playback(writes: seq<Span>, updates: seq<int>, finalPlayhead: Option<int>)

  /** `playAudio` over `size` samples, the UI asking it to stop after
      `stopAfter` writes: nothing with no samples; otherwise the range is
      written chunk by chunk, at most 2048 samples at a time. */
  method PlayAudio(size: nat, selectionStart: int, selectionEnd: int, playhead: int, stopAfter: nat)
    returns (played: Option<Playback>)
    ensures size == 0 <==> played.None?
    ensures played.Some? ==>
      var (startIdx, endIdx) := PlaybackRange(size, selectionStart, selectionEnd, playhead);
      var all := Chunks(startIdx, endIdx, PLAYBACK_BUFFER);
      && played.value.writes == all[..Min(stopAfter, |all|)]
      && played.value.updates == MarkedEnds(played.value.writes, PLAYHEAD_STEP)
      && (played.value.finalPlayhead.Some? <==> |all| <= stopAfter)
      && (played.value.finalPlayhead.Some? ==> played.value.finalPlayhead.value == startIdx)
  {
    if size == 0 {
      return None;
    }
    var (startIdx, endIdx) := PlaybackRange(size, selectionStart, selectionEnd, playhead);
    ghost var all := Chunks(startIdx, endIdx, PLAYBACK_BUFFER);
    var offset: nat := startIdx;
    var writes: seq<Span> := [];
    var updates: seq<int> := [];
    while |writes| < stopAfter && offset < endIdx
      invariant writes + Chunks(offset, endIdx, PLAYBACK_BUFFER) == all
      invariant |writes| <= stopAfter
      invariant updates == MarkedEnds(writes, PLAYHEAD_STEP)
      decreases endIdx - offset
    {
      var len := Min(PLAYBACK_BUFFER, endIdx - offset);
      assert Chunks(offset, endIdx, PLAYBACK_BUFFER) == [Span(offset, len)] + Chunks(offset + len, endIdx, PLAYBACK_BUFFER);
      assert writes + [Span(offset, len)] + Chunks(offset + len, endIdx, PLAYBACK_BUFFER) == all;
      assert (writes + [Span(offset, len)])[..|writes|] == writes;
      writes := writes + [Span(offset, len)];
      offset := offset + len;
      if Rem(offset, PLAYHEAD_STEP) == 0 {
        updates := updates + [offset];
      }
    }
    var finalPlayhead := None;
    if offset >= endIdx {
      finalPlayhead := Some(startIdx);
    }
    assert offset >= endIdx ==> writes == all;
    assert offset < endIdx ==> |writes| == stopAfter && |all| > stopAfter && writes == all[..stopAfter] by {
      if offset < endIdx {
        assert all == writes + Chunks(offset, endIdx, PLAYBACK_BUFFER);
        assert all[..|writes|] == writes;
      }
    }
    played := Some(Playback(writes, updates, finalPlayhead));
  }

  /** Played to the end, the written chunks cover the whole range exactly
      once, in order, 2048 samples at a time with only the last one
      shorter. */
  lemma FullPlaybackCoversRange(size: nat, selectionStart: int, selectionEnd: int, playhead: int)
    ensures var (startIdx, endIdx) := PlaybackRange(size, selectionStart, selectionEnd, playhead);
      && Tiles(Chunks(startIdx, endIdx, PLAYBACK_BUFFER), startIdx, endIdx, PLAYBACK_BUFFER)
      && FullButLast(Chunks(startIdx, endIdx, PLAYBACK_BUFFER), PLAYBACK_BUFFER)
  {
    var (startIdx, endIdx) := PlaybackRange(size, selectionStart, selectionEnd, playhead);
    ChunksTile(startIdx, endIdx, PLAYBACK_BUFFER);
  }

  /** What the re-record button hands to the recorder: the chronicle's
      prefix and name, and its script's file name. */
  datatype RecorderRequest = RecorderRequest(prefix: string, name: string, scriptName: string)

  /** The re-record confirmation: with a file named `ddd_<name>.<ext>` the
      recorder is started for that chronicle and its script; any other name
      only shows a warning. */
  function ReRecord(fileName: string): (r: Option<RecorderRequest>)
    ensures r.None? <==> ParseRecordingName(fileName).None?
    ensures r.Some? ==> StartsWith(r.value.scriptName, r.value.prefix) && EndsWith(r.value.scriptName, ".txt")
  {
    match ParseRecordingName(fileName)
    case None => None
    case Some(parts) => Some(RecorderRequest(parts.prefix, parts.name, ScriptName(parts)))
  }

  /** Re-recording the audio of chronicle `i` asks for that chronicle and
      its script `ddd_<name>.txt`. */
  lemma ReRecordChronicle(i: nat, name: string, ext: string)
    requires i < 1000 && SingleLine(name) && SingleLine(ext) && '.' !in ext
    ensures ReRecord(Prefix(i) + name + "." + ext) == Some(RecorderRequest(Prefix(i), name, Prefix(i) + name + ".txt"))
  {
    ParseRoundTrip(i, name, ext);
  }
}
