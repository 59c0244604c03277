/** The audio engine of the chronicle app (`com/sonfusion/app/AudioHelper.kt`):
    reading a file's metadata, a sub-sampled preview for the waveform, the
    streaming merge of several recordings into one AAC stream and the
    encoding of a whole PCM buffer. The extractor, the codecs and the muxer
    are not modelled: a file is described by its track formats and by what
    the decoder hands back for its first audio track, and the encoder by
    the buffers queued into it with their presentation times. */
module SonAudioHelper {
  import opened Numeric
  import opened Options
  import opened Text
  import opened Pcm16

  const DEFAULT_SAMPLE_RATE: int := 44100
  const WAVEFORM_SAMPLES: int := 10000
  /** The largest buffer queued into the encoder, in bytes. */
  const ENCODER_CHUNK: nat := 4096
  const MICROS: nat := 1000000

  // ---------------------------------------------------------------------
  // Media files as the extractor and the decoder see them

  /** The keys of one track's format; a key the format lacks is `None`
      (reading it throws, and the source falls back to a default). */
  datatype TrackFormat = TrackFormat(mime: Option<string>, sampleRate: Option<Int32>,
                                     durationUs: Option<Int64>, channelCount: Option<Int32>)

  /** What the decoder hands back for the selected track, in order: a change
      of output format (with its channel count, when it has one) or a buffer
      of decoded little-endian 16-bit PCM. The end of the sequence is the
      end-of-stream flag. */
  datatype DecoderEvent = FormatChanged(channelCount: Option<Int32>) | Output(data: seq<Byte>)

  /** A file handed to the extractor: whether it exists, its tracks (`None`
      when the extractor cannot open it) and what decoding its first audio
      track yields. */
  datatype MediaFile = MediaFile(present: bool, tracks: Option<seq<TrackFormat>>, decoded: seq<DecoderEvent>)

  datatype AudioMetadata = AudioMetadata(sampleRate: int, totalSamples: int, channelCount: int, durationSeconds: int)

  datatype AudioContent = AudioContent(samples: seq<Short>, sampleRate: int)

  /** A track whose MIME type starts with `audio/`. */
  predicate IsAudio(f: TrackFormat)
  {
    f.mime.Some? && StartsWith(f.mime.value, "audio/")
  }

  /** The index of the first audio track, if there is one. */
  function FirstAudio(tracks: seq<TrackFormat>): (r: Option<nat>)
    ensures r.None? <==> forall i :: 0 <= i < |tracks| ==> !IsAudio(tracks[i])
    ensures r.Some? ==> r.value < |tracks| && IsAudio(tracks[r.value])
    ensures r.Some? ==> forall i :: 0 <= i < r.value ==> !IsAudio(tracks[i])
    decreases |tracks|
  {
    if tracks == [] then None
    else if IsAudio(tracks[0]) then Some(0)
    else match FirstAudio(tracks[1..])
      case None => None
      case Some(i) => Some(i + 1)
  }

  /** The track search shared by every extractor loop of the file. */
  method FirstAudioTrack(tracks: seq<TrackFormat>) returns (index: Option<nat>)
    ensures index == FirstAudio(tracks)
  {
    var i := 0;
    while i < |tracks|
      invariant 0 <= i <= |tracks|
      invariant forall k :: 0 <= k < i ==> !IsAudio(tracks[k])
    {
      if IsAudio(tracks[i]) {
        return Some(i);
      }
      i := i + 1;
    }
    return None;
  }

  // ---------------------------------------------------------------------
  // getAudioMetadata

  /** The channel count a format reports, 1 when it reports none. */
  function ChannelsOr1(c: Option<Int32>): int
  {
    if c.Some? then c.value else 1
  }

  /** The metadata read from the chosen track: the sample rate (44100 when
      absent), the sample count (`samplesFor` stands for the floating-point
      `durationUs / 1e6 * sampleRate` truncated to Long, and is only used
      for a positive duration), the channel count (1 when absent) and the
      whole seconds of the duration. */
  function MetadataOf(f: TrackFormat, samplesFor: (int, int) -> int): AudioMetadata
  {
    var rate := if f.sampleRate.Some? then f.sampleRate.value else DEFAULT_SAMPLE_RATE;
    var us := if f.durationUs.Some? then f.durationUs.value else 0;
    AudioMetadata(rate, if us > 0 then samplesFor(us, rate) else 0, ChannelsOr1(f.channelCount), Quot(us, MICROS))
  }

  /** `getAudioMetadata(file)` as a value. */
  function Metadata(file: MediaFile, samplesFor: (int, int) -> int): Option<AudioMetadata>
  {
    if !file.present || file.tracks.None? then None
    else match FirstAudio(file.tracks.value)
      case None => None
      case Some(i) => Some(MetadataOf(file.tracks.value[i], samplesFor))
  }

  /** `getAudioMetadata`: `null` for a missing or unreadable file or one
      without an audio track, else the metadata of its first audio track. */
  method GetAudioMetadata(file: MediaFile, samplesFor: (int, int) -> int) returns (m: Option<AudioMetadata>)
    ensures m == Metadata(file, samplesFor)
  {
    if !file.present {
      return None;
    }
    if file.tracks.None? {
      return None;
    }
    var index := FirstAudioTrack(file.tracks.value);
    if index.None? {
      return None;
    }
    m := Some(MetadataOf(file.tracks.value[index.value], samplesFor));
  }

  /** There is metadata exactly when the file exists, opens and has an audio
      track; it describes the first audio track, with 44100 Hz and one
      channel standing in for a missing rate or channel count, no samples
      for a missing or non-positive duration, and the duration's whole
      seconds rounded toward zero. */
  lemma MetadataFacts(file: MediaFile, samplesFor: (int, int) -> int)
    ensures var m := Metadata(file, samplesFor);
      && (m.Some? <==> file.present && file.tracks.Some?
                       && exists i :: 0 <= i < |file.tracks.value| && IsAudio(file.tracks.value[i]))
      && (m.Some? ==>
            var f := file.tracks.value[FirstAudio(file.tracks.value).value];
            var us := if f.durationUs.Some? then f.durationUs.value else 0;
            && IsAudio(f)
            && (f.sampleRate.None? ==> m.value.sampleRate == 44100)
            && (f.channelCount.None? ==> m.value.channelCount == 1)
            && (us <= 0 ==> m.value.totalSamples == 0)
            && Abs(m.value.durationSeconds) * MICROS <= Abs(us) < (Abs(m.value.durationSeconds) + 1) * MICROS
            && (us >= 0 ==> m.value.durationSeconds >= 0)
            && (us <= 0 ==> m.value.durationSeconds <= 0))
  {
    var m := Metadata(file, samplesFor);
    if m.Some? {
      var f := file.tracks.value[FirstAudio(file.tracks.value).value];
      var us := if f.durationUs.Some? then f.durationUs.value else 0;
      assert IsAudio(f);
      assert m.value == MetadataOf(f, samplesFor);
      var q := m.value.durationSeconds;
      if us >= 0 {
        QuotNatural(us, MICROS);
        assert q == us / MICROS;
        assert us == q * MICROS + us % MICROS;
      } else {
        QuotNegative(us, MICROS);
        assert -q == (-us) / MICROS;
        assert -us == (-q) * MICROS + (-us) % MICROS;
      }
    }
  }

  // ---------------------------------------------------------------------
  // loadWaveformPreview

  /** `(totalSamples / targetPoints).toInt().coerceAtLeast(1)`. */
  function SkipFactor(totalSamples: int, targetPoints: int): (k: Int32)
    requires targetPoints != 0
    ensures k >= 1
  {
    var q := WrapInt32(Quot(totalSamples, targetPoints));
    if q < 1 then 1 else q
  }

  /** With at least `targetPoints` samples (and a quotient that fits an
      Int), one sample in `k` leaves between `targetPoints` and twice as
      many points: `targetPoints * k <= total < 2 * targetPoints * k`. */
  lemma SkipFactorSpreads(total: int, targetPoints: int)
    requires 0 < targetPoints <= total && total / targetPoints < 0x8000_0000
    ensures var k := SkipFactor(total, targetPoints);
      targetPoints * k <= total < 2 * targetPoints * k
  {
    QuotNatural(total, targetPoints);
    var q := total / targetPoints;
    var r := total % targetPoints;
    assert total == targetPoints * q + r;
    assert SkipFactor(total, targetPoints) == q;
    assert targetPoints * q >= targetPoints;
    assert 2 * targetPoints * q == targetPoints * q + targetPoints * q;
  }

  /** `((a + b) / 2).toShort()`: the mean of two samples rounded toward
      zero, which always lies between them. */
  function Average(a: Short, b: Short): (m: Short)
    ensures Min(a, b) <= m <= Max(a, b)
    ensures a + b >= 0 ==> 2 * m <= a + b <= 2 * m + 1
    ensures a + b < 0 ==> 2 * m - 1 <= a + b <= 2 * m
  {
    WrapInt16(Quot(a + b, 2))
  }

  /** The preview value at sample index `i`: with two channels and a second
      sample after it, the mean of the pair; otherwise the sample itself. */
  function PickAt(s: seq<Short>, i: nat, channels: int): Short
    requires i < |s|
  {
    if channels == 2 && i + 1 < |s| then Average(s[i], s[i + 1]) else s[i]
  }

  /** The values picked at `i`, `i + step`, `i + 2 step`, ... below `|s|`. */
  function Picks(s: seq<Short>, i: nat, step: nat, channels: int): seq<Short>
    requires step > 0
    decreases |s| - i
  {
    if i >= |s| then [] else [PickAt(s, i, channels)] + Picks(s, i + step, step, channels)
  }

  /** There are as many picked values as multiples of `step` left before
      the end: `n * step - step < |s| - i <= n * step`. */
  lemma {:induction false} PicksCount(s: seq<Short>, i: nat, step: nat, channels: int)
    requires step > 0
    ensures var n := |Picks(s, i, step, channels)|;
      && (i >= |s| <==> n == 0)
      && (i < |s| ==> n * step - step < |s| - i <= n * step)
    decreases |s| - i
  {
    if i < |s| {
      var n := |Picks(s, i, step, channels)|;
      var m := |Picks(s, i + step, step, channels)|;
      PicksCount(s, i + step, step, channels);
      assert n == m + 1;
      MulSucc(m, step);
      assert n * step == m * step + step;
    }
  }

  /** The `j`-th picked value is the one at index `i + j * step`. */
  lemma {:induction false} PicksAt(s: seq<Short>, i: nat, step: nat, channels: int, j: nat)
    requires step > 0 && j < |Picks(s, i, step, channels)|
    ensures i + j * step < |s|
    ensures Picks(s, i, step, channels)[j] == PickAt(s, i + j * step, channels)
    decreases j
  {
    if j > 0 {
      PicksAt(s, i + step, step, channels, j - 1);
      assert i + j * step == i + step + (j - 1) * step;
    }
  }

  /** The inner loop of the preview: from one decoded buffer, the value at
      every multiple of `step`. */
  method DownsampleBuffer(shorts: seq<Short>, step: nat, channels: int) returns (picked: seq<Short>)
    requires step > 0
    ensures picked == Picks(shorts, 0, step, channels)
  {
    picked := [];
    var i: nat := 0;
    while i < |shorts|
      invariant picked + Picks(shorts, i, step, channels) == Picks(shorts, 0, step, channels)
      decreases |shorts| - i
    {
      ghost var before := picked;
      assert Picks(shorts, i, step, channels) == [PickAt(shorts, i, channels)] + Picks(shorts, i + step, step, channels);
      if channels == 2 && i + 1 < |shorts| {
        picked := picked + [Average(shorts[i], shorts[i + 1])];
      } else {
        picked := picked + [shorts[i]];
      }
      assert picked == before + [PickAt(shorts, i, channels)];
      AppendAssoc(before, [PickAt(shorts, i, channels)], Picks(shorts, i + step, step, channels));
      i := i + step;
    }
  }

  /** The stride of the preview loop: `skipFactor * actualChannels` as an Int. */
  function Stride(skip: int, channels: int): Int32
  {
    WrapInt32(skip * channels)
  }

  /** The preview values collected from the decoder's events from here on,
      `channels` being the current channel count: a format change sets it
      (1 when unreported); a non-empty buffer is read as 16-bit samples and
      its values are picked every `Stride` samples, the stride starting
      over in each buffer; a stride that is not positive throws, which ends
      the preview with what was collected so far. */
  function PreviewOf(events: seq<DecoderEvent>, skip: int, channels: int): seq<Short>
    decreases |events|
  {
    if events == [] then []
    else match events[0]
      case FormatChanged(c) => PreviewOf(events[1..], skip, ChannelsOr1(c))
      case Output(data) =>
        if |data| == 0 then PreviewOf(events[1..], skip, channels)
        else if Stride(skip, channels) <= 0 then []
        else Picks(DecodeShorts(data), 0, Stride(skip, channels), channels) + PreviewOf(events[1..], skip, channels)
  }

  /** `loadWaveformPreview(file, targetPoints)`. */
  method LoadWaveformPreview(file: MediaFile, targetPoints: int, samplesFor: (int, int) -> int)
    returns (content: AudioContent)
    requires targetPoints != 0
    ensures var m := Metadata(file, samplesFor);
      && (m.None? ==> content == AudioContent([], 44100))
      && (m.Some? ==> content.sampleRate == m.value.sampleRate)
      && (m.Some? && m.value.totalSamples == 0 ==> content.samples == [])
      && (m.Some? && m.value.totalSamples != 0 ==>
            content.samples == PreviewOf(file.decoded, SkipFactor(m.value.totalSamples, targetPoints), m.value.channelCount))
  {
    var metadata := GetAudioMetadata(file, samplesFor);
    if metadata.None? {
      return AudioContent([], DEFAULT_SAMPLE_RATE);
    }
    var meta := metadata.value;
    if meta.totalSamples == 0 {
      return AudioContent([], meta.sampleRate);
    }
    var skipFactor := SkipFactor(meta.totalSamples, targetPoints);
    var events := file.decoded;
    var previewData: seq<Short> := [];
    var actualChannels := meta.channelCount;
    var i := 0;
    while i < |events|
      invariant 0 <= i <= |events|
      invariant previewData + PreviewOf(events[i..], skipFactor, actualChannels)
                == PreviewOf(events, skipFactor, meta.channelCount)
    {
      assert events[i..][1..] == events[i + 1..];
      match events[i] {
        case FormatChanged(c) =>
          actualChannels := ChannelsOr1(c);
        case Output(data) =>
          if |data| > 0 {
            var step := Stride(skipFactor, actualChannels);
            if step <= 0 {
              break;
            }
            var picked := DownsampleBuffer(DecodeShorts(data), step, actualChannels);
            previewData := previewData + picked;
          }
      }
      i := i + 1;
    }
    content := AudioContent(previewData, meta.sampleRate);
  }

  // ---------------------------------------------------------------------
  // Stereo to mono, and the buffers queued into the encoder

  /** The mono samples the merge encodes from one decoded buffer: with two
      channels, the mean of each interleaved pair (an odd trailing sample is
      dropped); otherwise the samples as they are. */
  function Downmix(pcm: seq<Short>, channels: int): seq<Short>
  {
    if channels == 2 then seq(|pcm| / 2, i requires 0 <= i < |pcm| / 2 => Average(pcm[2 * i], pcm[2 * i + 1]))
    else pcm
  }

  /** The `mono` array filled by the merge for a stereo buffer. */
  method ToMono(pcm: seq<Short>, channels: int) returns (mono: seq<Short>)
    ensures mono == Downmix(pcm, channels)
  {
    if channels != 2 {
      return pcm;
    }
    var a := new Short[|pcm| / 2];
    for i := 0 to a.Length
      invariant forall k :: 0 <= k < i ==> a[k] == Average(pcm[2 * k], pcm[2 * k + 1])
    {
      a[i] := Average(pcm[2 * i], pcm[2 * i + 1]);
    }
    mono := a[..];
  }

  /** Two channels laid out frame by frame, left sample first. */
  function Interleave(left: seq<Short>, right: seq<Short>): (s: seq<Short>)
    requires |left| == |right|
    ensures |s| == 2 * |left|
  {
    seq(2 * |left|, k requires 0 <= k < 2 * |left| => if k % 2 == 0 then left[k / 2] else right[k / 2])
  }

  lemma InterleaveAt(left: seq<Short>, right: seq<Short>, i: nat)
    requires |left| == |right| && i < |left|
    ensures Interleave(left, right)[2 * i] == left[i]
    ensures Interleave(left, right)[2 * i + 1] == right[i]
  {
    assert (2 * i) % 2 == 0 && (2 * i) / 2 == i;
    assert (2 * i + 1) % 2 == 1 && (2 * i + 1) / 2 == i;
  }

  /** Down-mixing a stereo buffer gives one sample per frame, between the
      frame's two samples; a buffer whose channels carry the same signal
      comes back as that signal. */
  lemma DownmixStereo(left: seq<Short>, right: seq<Short>)
    requires |left| == |right|
    ensures var mono := Downmix(Interleave(left, right), 2);
      && |mono| == |left|
      && (forall i :: 0 <= i < |mono| ==> Min(left[i], right[i]) <= mono[i] <= Max(left[i], right[i]))
      && (left == right ==> mono == left)
  {
    var s := Interleave(left, right);
    assert |s| / 2 == |left|;
    var mono := Downmix(s, 2);
    forall i | 0 <= i < |mono|
      ensures mono[i] == Average(left[i], right[i])
    {
      InterleaveAt(left, right, i);
    }
    if left == right {
      forall i | 0 <= i < |mono|
        ensures mono[i] == left[i]
      {
        assert Min(left[i], right[i]) == Max(left[i], right[i]);
      }
    }
  }

  /** Cutting bytes into encoder buffers: at most 4096 bytes each, in order. */
  function ByteChunks(b: seq<Byte>): seq<seq<Byte>>
    decreases |b|
  {
    if b == [] then []
    else
      var n := Min(ENCODER_CHUNK, |b|);
      [b[..n]] + ByteChunks(b[n..])
  }

  /** The bytes of a list of buffers, one after the other. */
  function Flatten(cs: seq<seq<Byte>>): seq<Byte>
    decreases |cs|
  {
    if cs == [] then [] else cs[0] + Flatten(cs[1..])
  }

  lemma {:induction false} FlattenAppend(a: seq<seq<Byte>>, b: seq<seq<Byte>>)
    ensures Flatten(a + b) == Flatten(a) + Flatten(b)
    decreases |a|
  {
    if a == [] {
      assert a + b == b;
    } else {
      assert (a + b)[1..] == a[1..] + b;
      FlattenAppend(a[1..], b);
    }
  }

  /** Every buffer holds between 1 and 4096 bytes. */
  predicate ChunkSized(cs: seq<seq<Byte>>)
  {
    forall k :: 0 <= k < |cs| ==> 0 < |cs[k]| <= ENCODER_CHUNK
  }

  /** The buffers hand over exactly the bytes, in order, none empty or
      larger than 4096 bytes, and only the last one shorter. */
  lemma {:induction false} ByteChunksFacts(b: seq<Byte>)
    ensures var cs := ByteChunks(b);
      && Flatten(cs) == b
      && ChunkSized(cs)
      && (forall k :: 0 <= k < |cs| - 1 ==> |cs[k]| == ENCODER_CHUNK)
    decreases |b|
  {
    if b != [] {
      var n := Min(ENCODER_CHUNK, |b|);
      ByteChunksFacts(b[n..]);
      var cs := ByteChunks(b);
      assert cs[1..] == ByteChunks(b[n..]);
      assert b[..n] + b[n..] == b;
      if n < ENCODER_CHUNK {
        assert b[n..] == [];
      }
    }
  }

  // ---------------------------------------------------------------------
  // Presentation times

  /** `(toWrite * 1000000L) / (masterSampleRate * 2)`: the microseconds
      `len` bytes of 16-bit mono last, rounded toward zero. */
  function Step(len: nat, d: Int32): int
    requires d != 0
  {
    Quot(len * MICROS, d)
  }

  /** The merge's `totalPts` once the buffers `cs` are queued: the sum of
      their rounded durations. */
  function PtsAfter(cs: seq<seq<Byte>>, d: Int32): int
    requires d != 0 || cs == []
    decreases |cs|
  {
    if cs == [] then 0 else PtsAfter(cs[..|cs| - 1], d) + Step(|cs[|cs| - 1]|, d)
  }

  /** The presentation time of each buffer in the merge: the clock before it. */
  function Stamped(cs: seq<seq<Byte>>, d: Int32): (stamps: seq<int>)
    requires d != 0 || cs == []
    ensures |stamps| == |cs|
  {
    seq(|cs|, k requires 0 <= k < |cs| => PtsAfter(cs[..k], d))
  }

  /** Queueing one more buffer stamps it with the clock so far. */
  lemma StampedSnoc(cs: seq<seq<Byte>>, c: seq<Byte>, d: Int32)
    requires d != 0
    ensures Stamped(cs + [c], d) == Stamped(cs, d) + [PtsAfter(cs, d)]
    ensures PtsAfter(cs + [c], d) == PtsAfter(cs, d) + Step(|c|, d)
  {
    var ext := cs + [c];
    assert ext[..|cs|] == cs;
    forall k | 0 <= k < |cs|
      ensures Stamped(ext, d)[k] == Stamped(cs, d)[k]
    {
      assert ext[..k] == cs[..k];
    }
  }

  /** The rounded durations of `a` and `b` add up to the rounded duration
      of `a + b`, or one less. */
  lemma FloorAdd(a: nat, b: nat, d: nat)
    requires d > 0
    ensures a / d + b / d <= (a + b) / d <= a / d + b / d + 1
  {
    var qa, ra := a / d, a % d;
    var qb, rb := b / d, b % d;
    if ra + rb < d {
      assert a + b == (qa + qb) * d + (ra + rb);
      DivModUnique(a + b, d, qa + qb, ra + rb);
    } else {
      assert a + b == (qa + qb + 1) * d + (ra + rb - d);
      DivModUnique(a + b, d, qa + qb + 1, ra + rb - d);
    }
  }

  /** With a positive divisor the merge's clock never runs ahead of the
      audio queued so far, and falls behind by less than a microsecond per
      buffer: `pts <= bytes * 1e6 / d <= pts + |cs|`. */
  lemma {:induction false} ClockNeverAhead(cs: seq<seq<Byte>>, d: Int32)
    requires d > 0
    ensures PtsAfter(cs, d) <= |Flatten(cs)| * MICROS / d <= PtsAfter(cs, d) + |cs|
    decreases |cs|
  {
    if cs != [] {
      var init := cs[..|cs| - 1];
      var last := cs[|cs| - 1];
      ClockNeverAhead(init, d);
      assert init + [last] == cs;
      FlattenAppend(init, [last]);
      assert Flatten([last]) == last + Flatten([]);
      QuotNatural(|last| * MICROS, d);
      FloorAdd(|Flatten(init)| * MICROS, |last| * MICROS, d);
      assert |Flatten(cs)| * MICROS == |Flatten(init)| * MICROS + |last| * MICROS;
    }
  }

  /** With a positive divisor the presentation times never go backwards. */
  lemma StampsNondecreasing(cs: seq<seq<Byte>>, d: Int32, j: nat, k: nat)
    requires d > 0 && j <= k < |cs|
    ensures Stamped(cs, d)[j] <= Stamped(cs, d)[k]
  {
    PtsPrefixMonotone(cs, d, j, k);
  }

  lemma {:induction false} PtsPrefixMonotone(cs: seq<seq<Byte>>, d: Int32, j: nat, k: nat)
    requires d > 0 && j <= k <= |cs|
    ensures PtsAfter(cs[..j], d) <= PtsAfter(cs[..k], d)
    decreases k - j
  {
    if j < k {
      PtsPrefixMonotone(cs, d, j, k - 1);
      var prev, len := cs[..k - 1], |cs[k - 1]|;
      assert cs[..k][..k - 1] == prev && |cs[..k][k - 1]| == len;
      assert PtsAfter(cs[..k], d) == PtsAfter(prev, d) + Step(len, d);
      StepNonNegative(len, d);
    }
  }

  lemma StepNonNegative(len: nat, d: Int32)
    requires d > 0
    ensures Step(len, d) >= 0
  {
    QuotNatural(len * MICROS, d);
  }

  // ---------------------------------------------------------------------
  // mergeFilesStreaming

  /** The buffers one decoded file feeds into the encoder, `channels` being
      the current channel count (1 until the decoder reports a format). */
  function FileChunks(events: seq<DecoderEvent>, channels: int): seq<seq<Byte>>
    decreases |events|
  {
    if events == [] then []
    else match events[0]
      case FormatChanged(c) => FileChunks(events[1..], ChannelsOr1(c))
      case Output(data) =>
        ByteChunks(EncodeShorts(Downmix(DecodeShorts(data), channels))) + FileChunks(events[1..], channels)
  }

  /** The mono samples one decoded file contributes. */
  function FileSamples(events: seq<DecoderEvent>, channels: int): seq<Short>
    decreases |events|
  {
    if events == [] then []
    else match events[0]
      case FormatChanged(c) => FileSamples(events[1..], ChannelsOr1(c))
      case Output(data) => Downmix(DecodeShorts(data), channels) + FileSamples(events[1..], channels)
  }

  /** A file the merge's extractor can open (opening any other throws). */
  predicate Readable(file: MediaFile)
  {
    file.present && file.tracks.Some?
  }

  /** A file the merge decodes: readable, with an audio track. */
  predicate Decodable(file: MediaFile)
  {
    Readable(file) && FirstAudio(file.tracks.value).Some?
  }

  function InputChunks(file: MediaFile): seq<seq<Byte>>
  {
    if Decodable(file) then FileChunks(file.decoded, 1) else []
  }

  function InputSamples(file: MediaFile): seq<Short>
  {
    if Decodable(file) then FileSamples(file.decoded, 1) else []
  }

  /** Every buffer the merge queues, file after file. */
  function MergedChunks(inputs: seq<MediaFile>): seq<seq<Byte>>
    decreases |inputs|
  {
    if inputs == [] then [] else MergedChunks(inputs[..|inputs| - 1]) + InputChunks(inputs[|inputs| - 1])
  }

  /** The mono samples of every file with an audio track, file after file. */
  function MergedSamples(inputs: seq<MediaFile>): seq<Short>
    decreases |inputs|
  {
    if inputs == [] then [] else MergedSamples(inputs[..|inputs| - 1]) + InputSamples(inputs[|inputs| - 1])
  }

  /** The progress reports: `(fileIndex * 100) / inputs.size` as Int
      arithmetic before each file, then 100. */
  function Progress(n: nat): (p: seq<int>)
    requires n > 0
    ensures |p| == n + 1
  {
    ProgressBefore(n, n) + [100]
  }

  /** The reports made before the first `m` files. */
  function ProgressBefore(n: nat, m: nat): (p: seq<int>)
    requires n > 0
    ensures |p| == m
  {
    seq(m, i requires 0 <= i < m => Quot(WrapInt32(i * 100), n))
  }

  lemma ProgressBeforeNext(n: nat, m: nat)
    requires n > 0
    ensures ProgressBefore(n, m + 1) == ProgressBefore(n, m) + [Quot(WrapInt32(m * 100), n)]
  {
  }

  /** For fewer than 21474837 files the reports start at 0, never go back
      and end at 100, each within [0, 100]. */
  lemma ProgressRises(n: nat)
    requires 0 < n < 21474837
    ensures var p := Progress(n);
      && p[0] == 0 && p[n] == 100
      && (forall i :: 0 <= i <= n ==> 0 <= p[i] <= 100)
      && (forall i, j :: 0 <= i <= j <= n ==> p[i] <= p[j])
  {
    var p := Progress(n);
    forall i | 0 <= i < n
      ensures p[i] == i * 100 / n && 0 <= p[i] < 100
    {
      QuotNatural(i * 100, n);
      assert i * 100 < n * 100;
      DivBelow(i * 100, n, 100);
    }
    forall i, j | 0 <= i <= j < n
      ensures p[i] <= p[j]
    {
      DivMonotone(i * 100, j * 100, n);
    }
  }

  lemma DivBelow(x: nat, n: nat, c: nat)
    requires n > 0 && x < n * c
    ensures x / n < c
  {
  }

  lemma DivMonotone(x: nat, y: nat, n: nat)
    requires n > 0 && x <= y
    ensures x / n <= y / n
  {
    var qx, qy := x / n, y / n;
    assert n * qx <= x && y < n * qy + n;
    if qx > qy {
      MulMonotone(n, qy + 1, qx);
    }
  }

  lemma MulMonotone(n: nat, a: int, b: int)
    requires a <= b
    ensures n * a <= n * b
  {
    assert n * b == n * a + n * (b - a);
  }

  /** The innermost loop of the merge: one buffer of mono bytes queued 4096
      bytes at a time, each stamped with the clock before it. A zero
      divisor (`masterSampleRate * 2` wrapping to 0) throws once the first
      buffer is queued. */
  method FeedEncoder(bytes: seq<Byte>, fed0: seq<seq<Byte>>, stamps0: seq<int>, pts0: int, d: Int32)
    returns (fed: seq<seq<Byte>>, stamps: seq<int>, pts: int, ok: bool)
    requires d != 0 ==> stamps0 == Stamped(fed0, d) && pts0 == PtsAfter(fed0, d)
    ensures ok <==> d != 0 || bytes == []
    ensures ok ==> fed == fed0 + ByteChunks(bytes)
    ensures ok && d != 0 ==> stamps == Stamped(fed, d) && pts == PtsAfter(fed, d)
    ensures ok && d == 0 ==> stamps == stamps0 && pts == pts0
  {
    fed, stamps, pts := fed0, stamps0, pts0;
    var offset := 0;
    while offset < |bytes|
      invariant 0 <= offset <= |bytes|
      invariant fed + ByteChunks(bytes[offset..]) == fed0 + ByteChunks(bytes)
      invariant d != 0 ==> stamps == Stamped(fed, d) && pts == PtsAfter(fed, d)
      invariant d == 0 ==> offset == 0 && stamps == stamps0 && pts == pts0
    {
      var toWrite := Min(ENCODER_CHUNK, |bytes| - offset);
      var chunk := bytes[offset..offset + toWrite];
      assert ByteChunks(bytes[offset..]) == [chunk] + ByteChunks(bytes[offset + toWrite..]) by {
        assert bytes[offset..][..toWrite] == chunk;
        assert bytes[offset..][toWrite..] == bytes[offset + toWrite..];
      }
      if d == 0 {
        return fed + [chunk], stamps + [pts], pts, false;
      }
      StampedSnoc(fed, chunk, d);
      stamps := stamps + [pts];
      fed := fed + [chunk];
      pts := pts + Step(toWrite, d);
      offset := offset + toWrite;
    }
    ok := true;
  }

  /** The decoder loop of the merge for one file: each non-empty output
      buffer is read as 16-bit samples, down-mixed when the current format
      has two channels, written back as bytes and queued. */
  method FeedFile(events: seq<DecoderEvent>, fed0: seq<seq<Byte>>, stamps0: seq<int>, pts0: int, d: Int32)
    returns (fed: seq<seq<Byte>>, stamps: seq<int>, pts: int, ok: bool)
    requires d != 0 ==> stamps0 == Stamped(fed0, d) && pts0 == PtsAfter(fed0, d)
    ensures ok <==> d != 0 || FileChunks(events, 1) == []
    ensures ok ==> fed == fed0 + FileChunks(events, 1)
    ensures ok && d != 0 ==> stamps == Stamped(fed, d) && pts == PtsAfter(fed, d)
    ensures ok && d == 0 ==> stamps == stamps0 && pts == pts0
  {
    fed, stamps, pts := fed0, stamps0, pts0;
    var inputChannels := 1;
    var i := 0;
    while i < |events|
      invariant 0 <= i <= |events|
      invariant fed + FileChunks(events[i..], inputChannels) == fed0 + FileChunks(events, 1)
      invariant d != 0 ==> stamps == Stamped(fed, d) && pts == PtsAfter(fed, d)
      invariant d == 0 ==> fed == fed0 && stamps == stamps0 && pts == pts0
    {
      FileChunksAt(events, i, inputChannels);
      ghost var before := fed;
      ghost var channelsBefore := inputChannels;
      if events[i].FormatChanged? {
        inputChannels := ChannelsOr1(events[i].channelCount);
      } else {
        var data := events[i].data;
        if |data| > 0 {
          var mono := ToMono(DecodeShorts(data), inputChannels);
          var monoBytes := EncodeShorts(mono);
          fed, stamps, pts, ok := FeedEncoder(monoBytes, fed, stamps, pts, d);
          if !ok {
            return;
          }
          assert fed == before + ByteChunks(monoBytes);
          AppendAssoc(before, ByteChunks(monoBytes), FileChunks(events[i + 1..], inputChannels));
        } else {
          EmptyOutput(data, inputChannels);
          assert FileChunks(events[i..], channelsBefore) == FileChunks(events[i + 1..], inputChannels);
        }
      }
      i := i + 1;
    }
    ok := true;
  }

  /** One step of the decoder loop over the file's events. */
  lemma FileChunksAt(events: seq<DecoderEvent>, i: nat, channels: int)
    requires i < |events|
    ensures events[i].FormatChanged? ==>
      FileChunks(events[i..], channels) == FileChunks(events[i + 1..], ChannelsOr1(events[i].channelCount))
    ensures events[i].Output? ==>
      FileChunks(events[i..], channels)
      == ByteChunks(EncodeShorts(Downmix(DecodeShorts(events[i].data), channels))) + FileChunks(events[i + 1..], channels)
  {
    assert events[i..][1..] == events[i + 1..];
  }

  /** An empty output buffer queues nothing. */
  lemma EmptyOutput(data: seq<Byte>, channels: int)
    requires |data| == 0
    ensures ByteChunks(EncodeShorts(Downmix(DecodeShorts(data), channels))) == []
  {
    assert DecodeShorts(data) == [];
    assert Downmix([], channels) == [];
  }

  /** What `mergeFilesStreaming` does: it fails, or it reports its progress
      and queues buffers into the encoder with their presentation times. */
  /** The end of a merge, with the progress reports made on the way: a
      failure after the reports made so far, or the encoder's input. */
  datatype MergeOutcome =
    | MergeFailed(progress: seq<int>)
    | Merged(progress: seq<int>, fed: seq<seq<Byte>>, stamps: seq<int>)

  /** A file that stops the merge: it cannot be opened, or the divisor is
      zero and it has buffers to queue. */
  predicate Stops(file: MediaFile, d: int)
  {
    !(Readable(file) && (d != 0 || InputChunks(file) == []))
  }

  /** None of the first `n` files stops the merge. */
  predicate NoneStops(inputs: seq<MediaFile>, d: int, n: nat)
  {
    forall j :: 0 <= j < n && j < |inputs| ==> !Stops(inputs[j], d)
  }

  /** File `k` is the first that stops the merge. */
  predicate FirstStop(inputs: seq<MediaFile>, d: int, k: nat)
  {
    k < |inputs| && Stops(inputs[k], d) && NoneStops(inputs, d, k)
  }

  /** `mergeFilesStreaming(inputs)`: no inputs, or no metadata for the
      first one, fail; the encoder runs at the first file's sample rate;
      a file that cannot be opened makes the whole merge fail, one without
      an audio track is skipped, and every other file's audio is queued in
      turn, with one clock across files. */
  method MergeFilesStreaming(inputs: seq<MediaFile>, samplesFor: (int, int) -> int) returns (r: MergeOutcome)
    ensures |inputs| == 0 || Metadata(inputs[0], samplesFor).None? ==> r == MergeFailed([])
    ensures |inputs| > 0 && Metadata(inputs[0], samplesFor).Some? ==>
      var d := WrapInt32(Metadata(inputs[0], samplesFor).value.sampleRate * 2);
      && (r.Merged? <==> (forall i :: 0 <= i < |inputs| ==> Readable(inputs[i]))
                         && (d != 0 || MergedChunks(inputs) == []))
      && (r.Merged? ==> r.progress == Progress(|inputs|) && r.fed == MergedChunks(inputs))
      && (r.Merged? && d != 0 ==> r.stamps == Stamped(r.fed, d))
      && (r.MergeFailed? ==>
            exists k: nat :: FirstStop(inputs, d, k) && r.progress == ProgressBefore(|inputs|, k + 1))
  {
    if |inputs| == 0 {
      return MergeFailed([]);
    }
    var firstMetadata := GetAudioMetadata(inputs[0], samplesFor);
    if firstMetadata.None? {
      return MergeFailed([]);
    }
    var masterSampleRate := firstMetadata.value.sampleRate;
    var progress, fed, stamps, ok := MergeEachFile(inputs, WrapInt32(masterSampleRate * 2));
    if !ok {
      return MergeFailed(progress);
    }
    progress := progress + [100];
    r := Merged(progress, fed, stamps);
  }

  /** The loop of `mergeFilesStreaming` over the files, `d` being the
      divisor `masterSampleRate * 2`. */
  method MergeEachFile(inputs: seq<MediaFile>, d: Int32)
    returns (progress: seq<int>, fed: seq<seq<Byte>>, stamps: seq<int>, ok: bool)
    requires |inputs| > 0
    ensures ok <==> (forall i :: 0 <= i < |inputs| ==> Readable(inputs[i])) && (d != 0 || MergedChunks(inputs) == [])
    ensures ok ==> progress == ProgressBefore(|inputs|, |inputs|) && fed == MergedChunks(inputs)
    ensures ok && d != 0 ==> stamps == Stamped(fed, d)
    ensures !ok ==> exists k: nat :: FirstStop(inputs, d, k) && progress == ProgressBefore(|inputs|, k + 1)
  {
    progress, fed, stamps := [], [], [];
    var totalPts := 0;
    for fileIndex := 0 to |inputs|
      invariant progress == ProgressBefore(|inputs|, fileIndex)
      invariant fed == MergedChunks(inputs[..fileIndex])
      invariant d != 0 ==> stamps == Stamped(fed, d) && totalPts == PtsAfter(fed, d)
      invariant d == 0 ==> fed == []
      invariant NoneStops(inputs, d, fileIndex)
    {
      progress, fed, stamps, totalPts, ok := MergeFile(inputs, fileIndex, progress, fed, stamps, totalPts, d);
      if !ok {
        MergeStopsEarly(inputs, fileIndex, d);
        assert FirstStop(inputs, d, fileIndex);
        return;
      }
      NoneStopsNext(inputs, d, fileIndex);
    }
    NoneStopMerges(inputs, d, fed);
    ok := true;
  }

  /** The body of the merge loop for file `fileIndex`: report the progress;
      a file the extractor cannot open throws; one without an audio track is
      skipped; any other is decoded and queued. */
  method MergeFile(inputs: seq<MediaFile>, fileIndex: nat, progress0: seq<int>,
                   fed0: seq<seq<Byte>>, stamps0: seq<int>, pts0: int, d: Int32)
    returns (progress: seq<int>, fed: seq<seq<Byte>>, stamps: seq<int>, pts: int, ok: bool)
    requires fileIndex < |inputs|
    requires progress0 == ProgressBefore(|inputs|, fileIndex)
    requires fed0 == MergedChunks(inputs[..fileIndex])
    requires d != 0 ==> stamps0 == Stamped(fed0, d) && pts0 == PtsAfter(fed0, d)
    requires d == 0 ==> fed0 == []
    ensures progress == ProgressBefore(|inputs|, fileIndex + 1)
    ensures ok <==> !Stops(inputs[fileIndex], d)
    ensures ok ==> fed == MergedChunks(inputs[..fileIndex + 1])
    ensures ok && d != 0 ==> stamps == Stamped(fed, d) && pts == PtsAfter(fed, d)
    ensures ok && d == 0 ==> fed == []
  {
    ProgressBeforeNext(|inputs|, fileIndex);
    progress := progress0 + [Quot(WrapInt32(fileIndex * 100), |inputs|)];
    MergedChunksNext(inputs, fileIndex);
    var file := inputs[fileIndex];
    fed, stamps, pts := fed0, stamps0, pts0;
    if !(file.present && file.tracks.Some?) {
      return progress, fed, stamps, pts, false;
    }
    var trackIndex := FirstAudioTrack(file.tracks.value);
    if trackIndex.None? {
      return progress, fed, stamps, pts, true;
    }
    fed, stamps, pts, ok := FeedFile(file.decoded, fed, stamps, pts, d);
  }

  /** A file that makes the loop stop makes the whole merge fail: it cannot
      be opened, or the divisor is zero and it queues buffers. */
  lemma MergeStopsEarly(inputs: seq<MediaFile>, i: nat, d: int)
    requires i < |inputs|
    requires Stops(inputs[i], d)
    ensures !((forall k :: 0 <= k < |inputs| ==> Readable(inputs[k])) && (d != 0 || MergedChunks(inputs) == []))
  {
    if !Readable(inputs[i]) {
      MergeFailsOnUnreadable(inputs, i);
    } else {
      MergedChunksNext(inputs, i);
      MergedChunksGrow(inputs, i + 1);
    }
  }

  lemma NoneStopsNext(inputs: seq<MediaFile>, d: int, i: nat)
    requires i < |inputs| && NoneStops(inputs, d, i) && !Stops(inputs[i], d)
    ensures NoneStops(inputs, d, i + 1)
  {
  }

  /** When no file stops the merge, every file opens and, with a zero
      divisor, nothing is queued. */
  lemma NoneStopMerges(inputs: seq<MediaFile>, d: int, fed: seq<seq<Byte>>)
    requires NoneStops(inputs, d, |inputs|)
    requires fed == MergedChunks(inputs[..|inputs|])
    requires d == 0 ==> fed == []
    ensures (forall i :: 0 <= i < |inputs| ==> Readable(inputs[i])) && (d != 0 || MergedChunks(inputs) == [])
    ensures fed == MergedChunks(inputs)
  {
    assert inputs[..|inputs|] == inputs;
  }

  lemma MergedChunksNext(inputs: seq<MediaFile>, i: nat)
    requires i < |inputs|
    ensures MergedChunks(inputs[..i + 1]) == MergedChunks(inputs[..i]) + InputChunks(inputs[i])
  {
    assert inputs[..i + 1][..i] == inputs[..i];
  }

  /** The buffers of the first `n` files come first among all buffers. */
  lemma {:induction false} MergedChunksGrow(inputs: seq<MediaFile>, n: nat)
    requires n <= |inputs|
    ensures |MergedChunks(inputs[..n])| <= |MergedChunks(inputs)|
    decreases |inputs| - n
  {
    if n < |inputs| {
      MergedChunksGrow(inputs, n + 1);
      MergedChunksNext(inputs, n);
    } else {
      assert inputs[..n] == inputs;
    }
  }

  lemma MergeFailsOnUnreadable(inputs: seq<MediaFile>, i: nat)
    requires i < |inputs| && !Readable(inputs[i])
    ensures !(forall k :: 0 <= k < |inputs| ==> Readable(inputs[k]))
  {
  }

  /** What the encoder receives in a successful merge is exactly the mono
      samples of every file with an audio track, file after file, as
      little-endian bytes, in buffers of 1 to 4096 bytes. */
  lemma {:induction false} MergedAudio(inputs: seq<MediaFile>)
    ensures Flatten(MergedChunks(inputs)) == EncodeShorts(MergedSamples(inputs))
    ensures ChunkSized(MergedChunks(inputs))
    decreases |inputs|
  {
    if inputs != [] {
      var init := inputs[..|inputs| - 1];
      var last := inputs[|inputs| - 1];
      MergedAudio(init);
      FlattenAppend(MergedChunks(init), InputChunks(last));
      EncodeAppend(MergedSamples(init), InputSamples(last));
      if Decodable(last) {
        FileAudio(last.decoded, 1);
      }
    }
  }

  lemma {:induction false} FileAudio(events: seq<DecoderEvent>, channels: int)
    ensures Flatten(FileChunks(events, channels)) == EncodeShorts(FileSamples(events, channels))
    ensures ChunkSized(FileChunks(events, channels))
    decreases |events|
  {
    if events != [] {
      match events[0] {
        case FormatChanged(c) =>
          FileAudio(events[1..], ChannelsOr1(c));
        case Output(data) =>
          var mono := Downmix(DecodeShorts(data), channels);
          FileAudio(events[1..], channels);
          ByteChunksFacts(EncodeShorts(mono));
          FlattenAppend(ByteChunks(EncodeShorts(mono)), FileChunks(events[1..], channels));
          EncodeAppend(mono, FileSamples(events[1..], channels));
      }
    }
  }

  // ---------------------------------------------------------------------
  // savePCMToAAC

  /** The `putShort` loop of `savePCMToAAC`: the samples as little-endian
      bytes. */
  method PutShorts(pcm: seq<Short>) returns (bytes: array<Byte>)
    ensures fresh(bytes)
    ensures bytes[..] == EncodeShorts(pcm)
  {
    bytes := new Byte[2 * |pcm|];
    ghost var full := EncodeShorts(pcm);
    for i := 0 to |pcm|
      invariant forall k :: 0 <= k < 2 * i ==> bytes[k] == full[k]
    {
      bytes[2 * i] := ByteAt(pcm[i], 0);
      bytes[2 * i + 1] := ByteAt(pcm[i], 1);
    }
  }

  /** What `savePCMToAAC` hands to the encoder: it fails, or it queues
      buffers with their presentation times. */
  datatype SaveOutcome = SaveFailed | Saved(fed: seq<seq<Byte>>, stamps: seq<int>)

  /** Each buffer stamped with the time of the END of its data: the bytes
      up to and including it. */
  function EndStamps(cs: seq<seq<Byte>>, d: Int32): (stamps: seq<int>)
    requires d != 0
    ensures |stamps| == |cs|
  {
    seq(|cs|, k requires 0 <= k < |cs| => Quot(|Flatten(cs[..k + 1])| * MICROS, d))
  }

  /** Each buffer stamped with the time of its first sample: the bytes
      before it. */
  function StartStamps(cs: seq<seq<Byte>>, d: Int32): (stamps: seq<int>)
    requires d != 0
    ensures |stamps| == |cs|
  {
    seq(|cs|, k requires 0 <= k < |cs| => Quot(|Flatten(cs[..k])| * MICROS, d))
  }

  /** The encoding loop of `savePCMToAAC` as written: `inputOffset` is
      advanced past the buffer before its time is computed. A divisor
      `sampleRate * 2` that wraps to 0 throws on the first buffer. */
  method SavePcmToAacAsWritten(pcm: seq<Short>, sampleRate: Int32) returns (r: SaveOutcome)
    ensures var d := WrapInt32(sampleRate * 2);
      && (r.SaveFailed? <==> d == 0 && pcm != [])
      && (r.Saved? ==> r.fed == ByteChunks(EncodeShorts(pcm)))
      && (r.Saved? && d != 0 ==> r.stamps == EndStamps(r.fed, d))
  {
    var d := WrapInt32(sampleRate * 2);
    var buffer := PutShorts(pcm);
    var fullPcmBytes := buffer[..];
    var inputOffset := 0;
    var fed: seq<seq<Byte>> := [];
    var stamps: seq<int> := [];
    while true
      invariant 0 <= inputOffset <= |fullPcmBytes|
      invariant fed + ByteChunks(fullPcmBytes[inputOffset..]) == ByteChunks(fullPcmBytes)
      invariant inputOffset == |Flatten(fed)|
      invariant d != 0 ==> stamps == EndStamps(fed, d)
      invariant d == 0 ==> inputOffset == 0
      decreases |fullPcmBytes| - inputOffset
    {
      var remaining := |fullPcmBytes| - inputOffset;
      var toRead := if remaining > ENCODER_CHUNK then ENCODER_CHUNK else remaining;
      if toRead > 0 {
        var chunk := fullPcmBytes[inputOffset..inputOffset + toRead];
        SaveStep(fullPcmBytes, inputOffset, toRead, fed);
        ghost var before := fed;
        fed := fed + [chunk];
        inputOffset := inputOffset + toRead;
        if d == 0 {
          assert pcm != [];
          return SaveFailed;
        }
        var pts := Quot(inputOffset * MICROS, d);
        EndStampsSnoc(before, chunk, d);
        stamps := stamps + [pts];
      } else {
        break;
      }
    }
    assert fullPcmBytes[inputOffset..] == [];
    r := Saved(fed, stamps);
  }

  /** The corrected encoding loop: each buffer stamped with the offset of
      its first byte, as the merge does. */
  method SavePcmToAac(pcm: seq<Short>, sampleRate: Int32) returns (r: SaveOutcome)
    ensures var d := WrapInt32(sampleRate * 2);
      && (r.SaveFailed? <==> d == 0 && pcm != [])
      && (r.Saved? ==> r.fed == ByteChunks(EncodeShorts(pcm)))
      && (r.Saved? && d != 0 ==> r.stamps == StartStamps(r.fed, d))
  {
    var d := WrapInt32(sampleRate * 2);
    var buffer := PutShorts(pcm);
    var fullPcmBytes := buffer[..];
    var inputOffset := 0;
    var fed: seq<seq<Byte>> := [];
    var stamps: seq<int> := [];
    while true
      invariant 0 <= inputOffset <= |fullPcmBytes|
      invariant fed + ByteChunks(fullPcmBytes[inputOffset..]) == ByteChunks(fullPcmBytes)
      invariant inputOffset == |Flatten(fed)|
      invariant d != 0 ==> stamps == StartStamps(fed, d)
      invariant d == 0 ==> inputOffset == 0
      decreases |fullPcmBytes| - inputOffset
    {
      var remaining := |fullPcmBytes| - inputOffset;
      var toRead := if remaining > ENCODER_CHUNK then ENCODER_CHUNK else remaining;
      if toRead > 0 {
        var chunk := fullPcmBytes[inputOffset..inputOffset + toRead];
        if d == 0 {
          assert pcm != [];
          return SaveFailed;
        }
        var pts := Quot(inputOffset * MICROS, d);
        StartStampsSnoc(fed, chunk, d);
        SaveStep(fullPcmBytes, inputOffset, toRead, fed);
        fed := fed + [chunk];
        inputOffset := inputOffset + toRead;
        stamps := stamps + [pts];
      } else {
        break;
      }
    }
    assert fullPcmBytes[inputOffset..] == [];
    r := Saved(fed, stamps);
  }

  /** One buffer of the save loop: the next chunk, and the offset after it. */
  lemma SaveStep(bytes: seq<Byte>, offset: nat, toRead: nat, fed: seq<seq<Byte>>)
    requires 0 < toRead == Min(ENCODER_CHUNK, |bytes| - offset) && offset + toRead <= |bytes|
    ensures ByteChunks(bytes[offset..]) == [bytes[offset..offset + toRead]] + ByteChunks(bytes[offset + toRead..])
    ensures |Flatten(fed + [bytes[offset..offset + toRead]])| == |Flatten(fed)| + toRead
    ensures (fed + [bytes[offset..offset + toRead]]) + ByteChunks(bytes[offset + toRead..])
         == fed + ByteChunks(bytes[offset..])
  {
    assert bytes[offset..][..toRead] == bytes[offset..offset + toRead];
    assert bytes[offset..][toRead..] == bytes[offset + toRead..];
    AppendAssoc(fed, [bytes[offset..offset + toRead]], ByteChunks(bytes[offset + toRead..]));
    FlattenAppend(fed, [bytes[offset..offset + toRead]]);
    assert Flatten([bytes[offset..offset + toRead]]) == bytes[offset..offset + toRead] + Flatten([]);
  }

  lemma EndStampsSnoc(cs: seq<seq<Byte>>, c: seq<Byte>, d: Int32)
    requires d != 0
    ensures EndStamps(cs + [c], d) == EndStamps(cs, d) + [Quot(|Flatten(cs + [c])| * MICROS, d)]
  {
    var ext := cs + [c];
    assert ext[..|cs| + 1] == ext;
    forall k | 0 <= k < |cs|
      ensures EndStamps(ext, d)[k] == EndStamps(cs, d)[k]
    {
      assert ext[..k + 1] == cs[..k + 1];
    }
  }

  lemma StartStampsSnoc(cs: seq<seq<Byte>>, c: seq<Byte>, d: Int32)
    requires d != 0
    ensures StartStamps(cs + [c], d) == StartStamps(cs, d) + [Quot(|Flatten(cs)| * MICROS, d)]
  {
    var ext := cs + [c];
    assert ext[..|cs|] == cs;
    forall k | 0 <= k < |cs|
      ensures StartStamps(ext, d)[k] == StartStamps(cs, d)[k]
    {
      assert ext[..k] == cs[..k];
    }
  }

  /** The corrected stamps start at 0, and each buffer's as-written stamp
      is the corrected stamp of the buffer after it: the as-written times
      run one buffer ahead of the audio. */
  lemma SaveStampsShifted(cs: seq<seq<Byte>>, d: Int32)
    requires d != 0
    ensures |cs| > 0 ==> StartStamps(cs, d)[0] == 0
    ensures forall k :: 0 <= k < |cs| - 1 ==> EndStamps(cs, d)[k] == StartStamps(cs, d)[k + 1]
  {
    if |cs| > 0 {
      assert cs[..0] == [];
    }
  }

  /** One sample saved at 44100 Hz: as written, its buffer is stamped at
      22 microseconds instead of 0. */
  lemma SaveStampAsWrittenExample()
    ensures ByteChunks(EncodeShorts([0])) == [[0, 0]]
    ensures EndStamps([[0, 0]], WrapInt32(44100 * 2)) == [22]
    ensures StartStamps([[0, 0]], WrapInt32(44100 * 2)) == [0]
  {
    assert EncodeShorts([0]) == [0, 0];
    var b: seq<Byte> := [0, 0];
    assert b[..2] == b && b[2..] == [];
    var cs: seq<seq<Byte>> := [[0, 0]];
    assert cs[..1] == cs && cs[..0] == [];
    assert Flatten(cs) == [0, 0] + Flatten([]);
    QuotNatural(2 * MICROS, 88200);
  }
}
