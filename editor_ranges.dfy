/** The selection rules shared by the chronicle editor
    (`com/sonfusion/app/EditorActivity.kt`) and the streaming editor
    (`com/podcastcreateur/app/AudioHelper.kt`): which samples playback and
    normalisation work on, given the view's selection and playhead. Both
    files compute these ranges with the same code. */
module EditorRanges {
  import opened Numeric

  /** Where `playAudio` starts and stops: at the selection start, or else
      the playhead, clamped to the samples; up to the selection end when it
      lies after the start, or else to the end of the samples. */
  function PlaybackRange(size: nat, selectionStart: int, selectionEnd: int, playhead: int): (r: (nat, int))
    ensures r.0 <= size && r.0 <= r.1
    ensures r.0 == Clamp(if selectionStart >= 0 then selectionStart else playhead, 0, size)
    ensures selectionEnd > r.0 ==> r.1 == selectionEnd
    ensures selectionEnd <= r.0 ==> r.1 == size
  {
    var startIdx := Clamp(if selectionStart >= 0 then selectionStart else playhead, 0, size);
    var endIdx := if selectionEnd > startIdx then selectionEnd else size;
    (startIdx, endIdx)
  }

  /** The range `normalizeSelection` works on: from the selection start (or
      0) to the selection end when it lies after that start (or to `size`, the number of samples). */
  function NormalizeRange(selectionStart: int, selectionEnd: int, size: int): (r: (nat, int))
    ensures selectionStart >= 0 ==> r.0 == selectionStart
    ensures selectionStart < 0 ==> r.0 == 0
    ensures selectionEnd <= r.0 ==> r.1 == size
    ensures selectionEnd > r.0 ==> r.1 == selectionEnd
  {
    var start := if selectionStart >= 0 then selectionStart else 0;
    var end := if selectionEnd > start then selectionEnd else size;
    (start, end)
  }

  /** A selection made in the view is normalised as is; with no selection
      the whole recording is. */
  lemma NormalizeRangeCases(selectionStart: int, selectionEnd: int, size: int)
    ensures 0 <= selectionStart < selectionEnd <= size ==>
      NormalizeRange(selectionStart, selectionEnd, size) == (selectionStart, selectionEnd)
    ensures selectionStart == -1 && selectionEnd == -1 ==>
      NormalizeRange(selectionStart, selectionEnd, size) == (0, size)
  {
  }
}
