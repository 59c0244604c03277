/** `WavUtils` of podcastcreateur: the canonical 44-byte RIFF/WAVE header for
    16-bit PCM, saving and reading 16-bit little-endian sample data, and the
    concatenation of recordings into one WAV file. A file is its byte
    contents; a missing file is `None`. */
module WavUtils {
  import opened Numeric
  import opened Options
  import opened Pcm16

  const HEADER_SIZE: nat := 44
  const RECORDER_SAMPLE_RATE: Int32 := 44100
  const RECORDER_CHANNELS: Int32 := 1
  /** Size of the copy buffer in `mergeFiles`. */
  const COPY_BUFFER: nat := 4096

  /** `String.toByteArray()` of an ASCII string. */
  function Ascii(s: string): (b: seq<Byte>)
    requires forall i :: 0 <= i < |s| ==> s[i] as int < 0x100
    ensures |b| == |s| && forall i :: 0 <= i < |s| ==> b[i] == s[i] as int
  {
    seq(|s|, i requires 0 <= i < |s| => s[i] as int as Byte)
  }

  /** `sampleRate * 16 * channels / 8` in Int arithmetic (wrapping product,
      truncating division). */
  function ByteRate(sampleRate: Int32, channels: Int32): int
  {
    Quot(WrapInt32(sampleRate * 16 * channels), 8)
  }

  /** `channels * 16 / 8` in Int arithmetic. */
  function BlockAlign(channels: Int32): int
  {
    Quot(WrapInt32(channels * 16), 8)
  }

  /** Without overflow the byte rate is the sample rate times two bytes per
      sample per channel. */
  lemma ByteRateNatural(sampleRate: Int32, channels: Int32)
    requires 0 <= sampleRate && 0 <= channels && sampleRate * channels < 0x800_0000
    ensures ByteRate(sampleRate, channels) == 2 * (sampleRate * channels)
    ensures channels < 0x800_0000 ==> BlockAlign(channels) == 2 * channels
  {
    var p := sampleRate * channels;
    assert sampleRate * 16 * channels == 16 * p;
    QuotNatural(16 * p, 8);
    if channels < 0x800_0000 {
      QuotNatural(channels * 16, 8);
    }
  }

  /** `intToByteArray`: `putInt` in little-endian order. */
  function IntToByteArray(data: Int32): (b: seq<Byte>)
    ensures |b| == 4
  {
    Int32LE(data)
  }

  /** `shortToByteArray`: `putShort` in little-endian order. */
  function ShortToByteArray(data: Short): (b: seq<Byte>)
    ensures |b| == 2
  {
    Int16LE(data)
  }

  /** The chunk identifiers of the header. */
  const RIFF_ID: seq<Byte> := Ascii("RIFF")
  const WAVE_FMT_ID: seq<Byte> := Ascii("WAVEfmt ")
  const DATA_ID: seq<Byte> := Ascii("data")

  /** The 44 bytes `writeWavHeader(out, totalAudioLen, totalDataLen, sampleRate,
      channels)` writes, in the order of its `write` calls. */
  function WavHeader(totalAudioLen: int, totalDataLen: int, sampleRate: Int32, channels: Int32): (h: seq<Byte>)
    ensures |h| == HEADER_SIZE
  {
    RIFF_ID + IntToByteArray(WrapInt32(totalDataLen)) + WAVE_FMT_ID
    + (IntToByteArray(16) + ShortToByteArray(1) + ShortToByteArray(WrapInt16(channels)))
    + IntToByteArray(sampleRate) + IntToByteArray(WrapInt32(ByteRate(sampleRate, channels)))
    + (ShortToByteArray(WrapInt16(BlockAlign(channels))) + ShortToByteArray(16))
    + DATA_ID + IntToByteArray(WrapInt32(totalAudioLen))
  }

  /** The chunk identifiers of the header written by `writeWavHeader`:
      "RIFF" at 0, "WAVE" at 8, "fmt " at 12 and "data" at 36. */
  lemma WavHeaderIds(totalAudioLen: int, totalDataLen: int, sampleRate: Int32, channels: Int32)
    ensures var h := WavHeader(totalAudioLen, totalDataLen, sampleRate, channels);
      && h[0..4] == Ascii("RIFF")
      && h[8..12] == Ascii("WAVE")
      && h[12..16] == Ascii("fmt ")
      && h[36..40] == Ascii("data")
  {
    var h := WavHeader(totalAudioLen, totalDataLen, sampleRate, channels);
    assert h[8..16] == WAVE_FMT_ID;
    assert h[36..40] == DATA_ID;
  }

  /** The two sizes of the header written by `writeWavHeader`: the RIFF size at
      4 and the data size at 40, each the low 32 bits of its value. */
  lemma WavHeaderSizes(totalAudioLen: int, totalDataLen: int, sampleRate: Int32, channels: Int32)
    ensures var h := WavHeader(totalAudioLen, totalDataLen, sampleRate, channels);
      && UInt32Of(h[4..8]) == totalDataLen % TWO_32
      && UInt32Of(h[40..44]) == totalAudioLen % TWO_32
  {
    var h := WavHeader(totalAudioLen, totalDataLen, sampleRate, channels);
    assert h[4..8] == IntToByteArray(WrapInt32(totalDataLen));
    assert h[40..44] == IntToByteArray(WrapInt32(totalAudioLen));
    Int32LEWrap(totalDataLen);
    Int32LEWrap(totalAudioLen);
    Int32LEValue(totalDataLen);
    Int32LEValue(totalAudioLen);
  }

  /** The `fmt ` chunk of the header written by `writeWavHeader`: size 16,
      format 1 (PCM), the channel count, the sample rate, the byte rate, the
      block alignment and 16 bits per sample. */
  lemma WavHeaderFormat(totalAudioLen: int, totalDataLen: int, sampleRate: Int32, channels: Int32)
    ensures var h := WavHeader(totalAudioLen, totalDataLen, sampleRate, channels);
      && UInt32Of(h[16..20]) == 16
      && ShortOf(h[20], h[21]) == 1
      && ShortOf(h[22], h[23]) == WrapInt16(channels)
      && UInt32Of(h[24..28]) == sampleRate % TWO_32
      && UInt32Of(h[28..32]) == ByteRate(sampleRate, channels) % TWO_32
      && ShortOf(h[32], h[33]) == WrapInt16(BlockAlign(channels))
      && ShortOf(h[34], h[35]) == 16
  {
    var h := WavHeader(totalAudioLen, totalDataLen, sampleRate, channels);
    var f := h[16..36];
    assert f == IntToByteArray(16) + ShortToByteArray(1) + ShortToByteArray(WrapInt16(channels))
      + IntToByteArray(sampleRate) + IntToByteArray(WrapInt32(ByteRate(sampleRate, channels)))
      + ShortToByteArray(WrapInt16(BlockAlign(channels))) + ShortToByteArray(16);
    assert h[24..28] == IntToByteArray(sampleRate);
    assert h[28..32] == IntToByteArray(WrapInt32(ByteRate(sampleRate, channels)));
    ShortRoundTrip(1);
    ShortRoundTrip(16);
    ShortRoundTrip(WrapInt16(channels));
    ShortRoundTrip(WrapInt16(BlockAlign(channels)));
    Int32LEWrap(ByteRate(sampleRate, channels));
    Int32LEValue(ByteRate(sampleRate, channels));
    Int32LEValue(sampleRate);
    Int32LEValue(16);
  }

  /** The 44 bytes `updateHeader(file, audioLen, sampleRate, channels)` stores
      into its header buffer, group by group: bytes 22 and 32 take only the
      low byte of the channel count and of the block alignment, and bytes 23
      and 33 are always 0. */
  function UpdatedHeader(audioLen: int, sampleRate: Int32, channels: Int32): (h: seq<Byte>)
    ensures |h| == HEADER_SIZE
  {
    var totalDataLen := audioLen + 36;
    RIFF_ID + Int32LE(totalDataLen) + WAVE_FMT_ID + [16, 0, 0, 0, 1, 0, ByteAt(channels, 0), 0]
    + Int32LE(sampleRate) + Int32LE(ByteRate(sampleRate, channels)) + [ByteAt(BlockAlign(channels), 0), 0, 16, 0]
    + DATA_ID + Int32LE(audioLen)
  }

  /** The chunk identifiers of the header of `updateHeader`: "RIFF", "WAVE",
      "fmt " and "data" in place. */
  lemma UpdatedHeaderIds(audioLen: int, sampleRate: Int32, channels: Int32)
    ensures var h := UpdatedHeader(audioLen, sampleRate, channels);
      && h[0..4] == Ascii("RIFF") && h[8..12] == Ascii("WAVE")
      && h[12..16] == Ascii("fmt ") && h[36..40] == Ascii("data")
  {
    var h := UpdatedHeader(audioLen, sampleRate, channels);
    assert h[8..16] == WAVE_FMT_ID;
    assert h[36..40] == DATA_ID;
  }

  /** The sizes in the header of `updateHeader`: the RIFF size `audioLen + 36`
      and the data size `audioLen`, as the low 32 bits. */
  lemma UpdatedHeaderSizes(audioLen: int, sampleRate: Int32, channels: Int32)
    ensures var h := UpdatedHeader(audioLen, sampleRate, channels);
      && UInt32Of(h[4..8]) == (audioLen + 36) % TWO_32
      && UInt32Of(h[40..44]) == audioLen % TWO_32
  {
    var h := UpdatedHeader(audioLen, sampleRate, channels);
    assert h[4..8] == Int32LE(audioLen + 36);
    assert h[40..44] == Int32LE(audioLen);
    Int32LEValue(audioLen + 36);
    Int32LEValue(audioLen);
  }

  /** The fmt chunk of the header of `updateHeader`: size 16, format 1, the low
      byte of the channel count, the sample rate, the byte rate, the low byte
      of the block alignment and 16 bits per sample. */
  lemma UpdatedHeaderFormat(audioLen: int, sampleRate: Int32, channels: Int32)
    ensures var h := UpdatedHeader(audioLen, sampleRate, channels);
      && UInt32Of(h[16..20]) == 16 && h[20] == 1 && h[21] == 0
      && h[22] == channels % 0x100 && h[23] == 0
      && UInt32Of(h[24..28]) == sampleRate % TWO_32
      && UInt32Of(h[28..32]) == ByteRate(sampleRate, channels) % TWO_32
      && h[32] == BlockAlign(channels) % 0x100 && h[33] == 0
      && h[34] == 16 && h[35] == 0
  {
    var h := UpdatedHeader(audioLen, sampleRate, channels);
    var f := h[16..36];
    assert f == [16, 0, 0, 0, 1, 0, ByteAt(channels, 0), 0]
      + Int32LE(sampleRate) + Int32LE(ByteRate(sampleRate, channels)) + [ByteAt(BlockAlign(channels), 0), 0, 16, 0];
    assert h[24..28] == Int32LE(sampleRate);
    assert h[28..32] == Int32LE(ByteRate(sampleRate, channels));
    Int32LEValue(sampleRate);
    Int32LEValue(ByteRate(sampleRate, channels));
  }

  /** `updateHeader`: the file after its header buffer is written at offset 0,
      over the first 44 bytes (extending a shorter file). */
  function UpdateHeader(file: seq<Byte>, audioLen: int, sampleRate: Int32, channels: Int32): (updated: seq<Byte>)
    ensures |updated| == Max(|file|, HEADER_SIZE)
    ensures updated[..HEADER_SIZE] == UpdatedHeader(audioLen, sampleRate, channels)
    ensures |file| >= HEADER_SIZE ==> updated[HEADER_SIZE..] == file[HEADER_SIZE..]
  {
    UpdatedHeader(audioLen, sampleRate, channels) + if |file| >= HEADER_SIZE then file[HEADER_SIZE..] else []
  }

  /** The header `updateHeader` writes is the header `writeWavHeader` writes
      for the same sizes, as long as the channel count and the block alignment
      fit in one byte (0 <= channels < 128). */
  lemma {:induction false} UpdateAgreesWithWrite(audioLen: int, sampleRate: Int32, channels: Int32)
    requires 0 <= channels < 128
    ensures UpdatedHeader(audioLen, sampleRate, channels) == WavHeader(audioLen, audioLen + 36, sampleRate, channels)
  {
    Int32LEWrap(audioLen + 36);
    Int32LEWrap(audioLen);
    Int32LEWrap(ByteRate(sampleRate, channels));
    FormatFieldsAgree(channels);
  }

  /** For 0 <= channels < 128 the 16-bit channel count and block alignment
      written by `writeWavHeader` have a zero high byte. */
  lemma FormatFieldsAgree(channels: Int32)
    requires 0 <= channels < 128
    ensures IntToByteArray(16) + ShortToByteArray(1) + ShortToByteArray(WrapInt16(channels))
      == [16, 0, 0, 0, 1, 0, ByteAt(channels, 0), 0]
    ensures ShortToByteArray(WrapInt16(BlockAlign(channels))) + ShortToByteArray(16)
      == [ByteAt(BlockAlign(channels), 0), 0, 16, 0]
  {
    BlockAlignSmall(channels);
    SmallShortBytes(channels);
    SmallShortBytes(BlockAlign(channels));
  }

  /** The block alignment of at most 127 channels is twice the count. */
  lemma BlockAlignSmall(channels: Int32)
    requires 0 <= channels < 128
    ensures BlockAlign(channels) == 2 * channels
  {
    QuotNatural(channels * 16, 8);
  }

  /** A value in [0, 256) is written as a Short with a zero high byte. */
  lemma SmallShortBytes(x: int)
    requires 0 <= x < 0x100
    ensures ShortToByteArray(WrapInt16(x)) == [ByteAt(x, 0), 0]
  {
    assert WrapInt16(x) == x;
    assert ByteAt(x, 1) == (x / 0x100) % 0x100 == 0;
  }

  /** The two writers differ from 128 channels on: `updateHeader` drops the
      high byte of the block alignment. */
  lemma UpdateDiffersFromWriteAt128(audioLen: int, sampleRate: Int32)
    ensures UpdatedHeader(audioLen, sampleRate, 128)[33] == 0
    ensures WavHeader(audioLen, audioLen + 36, sampleRate, 128)[33] == 1
  {
    QuotNatural(128 * 16, 8);
    assert BlockAlign(128) == 256;
    var w := WavHeader(audioLen, audioLen + 36, sampleRate, 128);
    assert w[32..34] == ShortToByteArray(WrapInt16(BlockAlign(128)));
  }

  /** The file `savePcmToWav(pcm, output)` writes: the recorder-format header
      for `2 * |pcm|` data bytes, then every sample in little-endian order. */
  function WavFile(pcm: seq<Short>): (f: seq<Byte>)
    ensures |f| == HEADER_SIZE + 2 * |pcm|
  {
    WavHeader(2 * |pcm|, 2 * |pcm| + 36, RECORDER_SAMPLE_RATE, RECORDER_CHANNELS) + EncodeShorts(pcm)
  }

  /** `savePcmToWav`: writes the header, then fills a byte buffer with one
      `putShort` per sample and writes it. */
  method SavePcmToWav(pcmData: seq<Short>) returns (output: seq<Byte>)
    ensures output == WavFile(pcmData)
    ensures |output| == HEADER_SIZE + 2 * |pcmData|
    ensures output[HEADER_SIZE..] == EncodeShorts(pcmData)
  {
    var totalDataLen := |pcmData| * 2;
    var header := WavHeader(totalDataLen, totalDataLen + 36, RECORDER_SAMPLE_RATE, RECORDER_CHANNELS);
    var buffer := new Byte[|pcmData| * 2];
    ghost var encoded := EncodeShorts(pcmData);
    var i := 0;
    while i < |pcmData|
      invariant 0 <= i <= |pcmData|
      invariant forall k :: 0 <= k < 2 * i ==> buffer[k] == encoded[k]
    {
      var b := ShortToByteArray(pcmData[i]);
      assert b[0] == encoded[2 * i] && b[1] == encoded[2 * i + 1];
      buffer[2 * i] := b[0];
      buffer[2 * i + 1] := b[1];
      i := i + 1;
    }
    assert buffer[..] == encoded;
    output := header + buffer[..];
    assert output[HEADER_SIZE..] == buffer[..];
  }

  /** `readWavData`: nothing for a missing file or one shorter than the header;
      otherwise one sample per byte pair after the header. */
  function ReadWavData(file: Option<seq<Byte>>): (pcm: seq<Short>)
    ensures file.None? || |file.value| < HEADER_SIZE ==> pcm == []
    ensures file.Some? && |file.value| >= HEADER_SIZE ==>
      && |pcm| == (|file.value| - HEADER_SIZE) / 2
      && forall i :: 0 <= i < |pcm| ==>
           pcm[i] == ShortOf(file.value[HEADER_SIZE + 2 * i], file.value[HEADER_SIZE + 2 * i + 1])
  {
    match file
    case None => []
    case Some(bytes) =>
      if |bytes| < HEADER_SIZE then []
      else DecodeShorts(bytes[HEADER_SIZE..])
  }

  /** Reading back a saved file gives the saved samples. */
  lemma SaveThenRead(pcm: seq<Short>)
    ensures ReadWavData(Some(WavFile(pcm))) == pcm
  {
    var f := WavFile(pcm);
    assert f[HEADER_SIZE..] == EncodeShorts(pcm);
    DecodeEncode(pcm);
  }

  /** An input `mergeFiles` copies: it exists and holds at least a header. */
  predicate Kept(input: Option<seq<Byte>>)
  {
    input.Some? && |input.value| >= HEADER_SIZE
  }

  /** The data `mergeFiles` copies: each kept input without its first 44
      bytes, in input order. */
  function Payload(inputs: seq<Option<seq<Byte>>>): (p: seq<Byte>)
    ensures inputs == [] ==> p == []
  {
    if inputs == [] then []
    else
      var last := inputs[|inputs| - 1];
      Payload(inputs[..|inputs| - 1]) + if Kept(last) then last.value[HEADER_SIZE..] else []
  }

  /** The file `mergeFiles` leaves: the recorder-format header for the copied
      data, then the copied data. */
  function MergedWav(inputs: seq<Option<seq<Byte>>>): (f: seq<Byte>)
  {
    var data := Payload(inputs);
    WavHeader(|data|, |data| + 36, RECORDER_SAMPLE_RATE, RECORDER_CHANNELS) + data
  }

  /** `mergeFiles(inputs, output)`: `None` (the call returns false and writes
      nothing) for an empty list; otherwise a placeholder header, the data of
      every kept input copied `COPY_BUFFER` bytes at a time while the total is
      counted, and the header rewritten with that total. */
  method MergeFiles(inputs: seq<Option<seq<Byte>>>) returns (output: Option<seq<Byte>>)
    ensures inputs == [] <==> output.None?
    ensures inputs != [] ==> output == Some(MergedWav(inputs))
  {
    if |inputs| == 0 {
      return None;
    }
    var placeholder := WavHeader(0, 0, RECORDER_SAMPLE_RATE, RECORDER_CHANNELS);
    var out := placeholder;
    var totalDataLen := 0;
    for k := 0 to |inputs|
      invariant out == placeholder + Payload(inputs[..k])
      invariant totalDataLen == |Payload(inputs[..k])|
    {
      assert inputs[..k + 1][..k] == inputs[..k];
      if !Kept(inputs[k]) {
        continue;
      }
      var file := inputs[k].value;
      var offset := HEADER_SIZE;
      var before := out;
      while offset < |file|
        invariant HEADER_SIZE <= offset <= |file|
        invariant out == before + file[HEADER_SIZE..offset]
        invariant totalDataLen == |Payload(inputs[..k])| + (offset - HEADER_SIZE)
        decreases |file| - offset
      {
        var bytesRead := Min(COPY_BUFFER, |file| - offset);
        out := out + file[offset..offset + bytesRead];
        assert file[HEADER_SIZE..offset + bytesRead] == file[HEADER_SIZE..offset] + file[offset..offset + bytesRead];
        totalDataLen := totalDataLen + bytesRead;
        offset := offset + bytesRead;
      }
    }
    assert inputs[..|inputs|] == inputs;
    var updated := UpdateHeader(out, totalDataLen, RECORDER_SAMPLE_RATE, RECORDER_CHANNELS);
    assert out[HEADER_SIZE..] == Payload(inputs);
    UpdateAgreesWithWrite(totalDataLen, RECORDER_SAMPLE_RATE, RECORDER_CHANNELS);
    assert updated == updated[..HEADER_SIZE] + updated[HEADER_SIZE..];
    output := Some(updated);
  }

  /** The recordings saved by `savePcmToWav`, as inputs to `mergeFiles`. */
  function Saved(ps: seq<seq<Short>>): (inputs: seq<Option<seq<Byte>>>)
    ensures |inputs| == |ps|
    ensures forall i :: 0 <= i < |ps| ==> inputs[i] == Some(WavFile(ps[i]))
  {
    seq(|ps|, i requires 0 <= i < |ps| => Some(WavFile(ps[i])))
  }

  /** The data of merged recordings is the concatenation of their samples. */
  lemma {:induction false} PayloadOfSaved(ps: seq<seq<Short>>)
    ensures Payload(Saved(ps)) == EncodeShorts(Concat(ps))
  {
    if ps != [] {
      var n := |ps|;
      assert Saved(ps)[..n - 1] == Saved(ps[..n - 1]);
      PayloadOfSaved(ps[..n - 1]);
      assert WavFile(ps[n - 1])[HEADER_SIZE..] == EncodeShorts(ps[n - 1]);
      EncodeAppend(Concat(ps[..n - 1]), ps[n - 1]);
    }
  }

  /** Merging saved recordings and reading the result back gives their
      samples one after the other. */
  lemma MergeSavedRecordings(ps: seq<seq<Short>>)
    ensures ReadWavData(Some(MergedWav(Saved(ps)))) == Concat(ps)
  {
    var data := Payload(Saved(ps));
    PayloadOfSaved(ps);
    var f := MergedWav(Saved(ps));
    assert f[HEADER_SIZE..] == data;
    DecodeEncode(Concat(ps));
  }
}
