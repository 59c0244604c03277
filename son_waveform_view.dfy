/** The waveform view of the chronicle editor (`com/sonfusion/app/WaveformView.kt`):
    it shows a whole array of samples and keeps a selection and a playhead,
    which a press, a drag and a release set directly. A touch arrives as the
    sample index computed from its position (`(x / width) * size`, a
    floating-point product that is not part of this model) and the view's
    width. */
module SonWaveformView {
  import opened Numeric

  /** The touch actions the view distinguishes; any other action is `Other`. */
  datatype Action = Down | Move | Up | Cancel | Other

  /** The selection once the finger is lifted: its two ends in increasing
      order. */
  function Ordered(start: int, end: int): (r: (int, int))
    ensures r.0 <= r.1
    ensures {r.0, r.1} == {start, end}
  {
    if start > end then (end, start) else (start, end)
  }

  class WaveformView {
    var samples: seq<Short>
    var selectionStart: int
    var selectionEnd: int
    var playheadPos: int

    constructor()
      ensures samples == [] && selectionStart == -1 && selectionEnd == -1 && playheadPos == 0
    {
      samples := [];
      selectionStart := -1;
      selectionEnd := -1;
      playheadPos := 0;
    }

    /** `setWaveform`: the view now shows `data`; selection and playhead are
        kept. */
    method SetWaveform(data: seq<Short>)
      modifies this
      ensures samples == data
      ensures selectionStart == old(selectionStart) && selectionEnd == old(selectionEnd)
      ensures playheadPos == old(playheadPos)
    {
      samples := data;
    }

    /** `clearSelection`: both ends to -1, the playhead untouched. */
    method ClearSelection()
      modifies this
      ensures selectionStart == -1 && selectionEnd == -1
      ensures playheadPos == old(playheadPos) && samples == old(samples)
    {
      selectionStart := -1;
      selectionEnd := -1;
    }

    /** `onTouchEvent`: ignored with no samples or no width; otherwise the
        index is clamped to [0, size], a press puts both selection ends and
        the playhead there, a drag moves the selection end, and a release
        puts the selection in order. */
    method OnTouchEvent(action: Action, rawIndex: int, width: int) returns (handled: bool)
      modifies this
      ensures samples == old(samples)
      ensures handled <==> old(samples) != [] && width != 0
      ensures !handled || action == Other ==>
        && selectionStart == old(selectionStart) && selectionEnd == old(selectionEnd)
        && playheadPos == old(playheadPos)
      ensures handled && action == Down ==>
        selectionStart == selectionEnd == playheadPos == Clamp(rawIndex, 0, |old(samples)|)
      ensures handled && action == Move ==>
        && selectionStart == old(selectionStart) && playheadPos == old(playheadPos)
        && selectionEnd == Clamp(rawIndex, 0, |old(samples)|)
      ensures handled && action in {Up, Cancel} ==>
        && (selectionStart, selectionEnd) == Ordered(old(selectionStart), old(selectionEnd))
        && playheadPos == old(playheadPos)
    {
      if |samples| == 0 || width == 0 {
        return false;
      }
      var sampleIdx := Clamp(rawIndex, 0, |samples|);
      match action {
        case Down =>
          selectionStart := sampleIdx;
          selectionEnd := sampleIdx;
          playheadPos := sampleIdx;
        case Move =>
          selectionEnd := sampleIdx;
        case Up =>
          OrderSelection();
        case Cancel =>
          OrderSelection();
        case Other =>
      }
      handled := true;
    }

    /** The release branch shared by `ACTION_UP` and `ACTION_CANCEL`. */
    method OrderSelection()
      modifies this
      ensures (selectionStart, selectionEnd) == Ordered(old(selectionStart), old(selectionEnd))
      ensures playheadPos == old(playheadPos) && samples == old(samples)
    {
      if selectionStart > selectionEnd {
        var temp := selectionStart;
        selectionStart := selectionEnd;
        selectionEnd := temp;
      }
    }
  }

  /** A press, a drag and a release leave a selection in order between the
      press point and the drag point, both within [0, size], with the
      playhead at the press point. */
  method PressDragRelease(view: WaveformView, down: int, move: int, up: int, width: int)
    requires view.samples != [] && width != 0
    modifies view
    ensures view.samples == old(view.samples)
    ensures var p := Clamp(down, 0, |view.samples|);
      && (view.selectionStart, view.selectionEnd) == Ordered(p, Clamp(move, 0, |view.samples|))
      && view.playheadPos == p
    ensures 0 <= view.selectionStart <= view.selectionEnd <= |view.samples|
  {
    var handled := view.OnTouchEvent(Down, down, width);
    handled := view.OnTouchEvent(Move, move, width);
    handled := view.OnTouchEvent(Up, up, width);
  }
}
