/** The waveform view of the recorder-and-editor app
    (`com/podcastcreateur/app/WaveformView.kt`): a growable buffer of peak
    values, a selection and a playhead, driven by taps, long presses, drags
    and releases. Touch positions arrive as point indices (the pixel to
    index conversion depends on the floating-point zoom factor and is not
    part of this model). */
module PodcastWaveformView {
  import opened Numeric
  import opened Options
  import opened Pcm16

  /** A peak value of the waveform; the view stores and removes peaks but
      never computes with them. */
  type Peak = real

  /** The touch actions the view reacts to; any other action is `Other`. */
  datatype Action = Down | Move | Up | Cancel | Other

  /** The playhead after the points [start, end) are removed: a playhead
      before the range stays, one after it moves back by the number of
      removed points, and one inside it lands on `start`. */
  function ShiftedPlayhead(p: int, start: int, end: int): (r: int)
    requires start <= end
    ensures p <= start ==> r == p
    ensures p >= end ==> r == p - (end - start)
    ensures start < p < end ==> r == start
  {
    if p > start then Max(p - (end - start), start) else p
  }

  /** Outside the removed range, the shifted playhead still designates the
      same peak. */
  lemma PlayheadFollowsPoint(points: seq<Peak>, start: int, end: int, p: int)
    requires 0 <= start < end <= |points|
    requires 0 <= p < |points| && (p < start || p >= end)
    ensures 0 <= ShiftedPlayhead(p, start, end) < |Splice(points, start, end)|
    ensures Splice(points, start, end)[ShiftedPlayhead(p, start, end)] == points[p]
  {
    var r := Splice(points, start, end);
    if p >= end {
      assert r[p - (end - start)] == points[p - (end - start) + (end - start)];
    }
  }

  /** The selection once a drag is released: put in order, or cleared when
      it is empty. */
  function Released(start: int, end: int): (r: (int, int))
    ensures start == end ==> r == (-1, -1)
    ensures start != end ==> r.0 < r.1 && {r.0, r.1} == {start, end}
  {
    var (s, e) := if start > end then (end, start) else (start, end);
    if s == e then (-1, -1) else (s, e)
  }

  class WaveformView {
    var points: seq<Peak>
    var totalPointsEstimate: int
    var selectionStart: int
    var selectionEnd: int
    var playheadPos: int
    var isDraggingSelection: bool

    /** The largest index a touch may select: `(points.size - 1).coerceAtLeast(0)`. */
    function LastIndex(): (r: int)
      reads this
      ensures r >= 0 && (points != [] ==> r == |points| - 1)
    {
      Max(|points| - 1, 0)
    }

    /** Selection ends are -1 or a point index, and a selection left after
        a drag is non-empty and in order. The playhead is not bounded: the
        editor writes it from outside the view, with positions that may lie
        past the points. */
    ghost predicate Valid()
      reads this
    {
      && -1 <= selectionStart <= LastIndex()
      && -1 <= selectionEnd <= LastIndex()
      && (!isDraggingSelection && selectionStart >= 0 ==> selectionStart < selectionEnd)
    }

    constructor()
      ensures points == [] && totalPointsEstimate == 0
      ensures selectionStart == -1 && selectionEnd == -1 && playheadPos == 0
      ensures !isDraggingSelection
      ensures Valid()
    {
      points := [];
      totalPointsEstimate := 0;
      selectionStart := -1;
      selectionEnd := -1;
      playheadPos := 0;
      isDraggingSelection := false;
    }

    /** `clearData`: no points, no selection, playhead at the start. */
    method ClearData()
      modifies this
      ensures points == [] && selectionStart == -1 && selectionEnd == -1 && playheadPos == 0
      ensures totalPointsEstimate == old(totalPointsEstimate)
      ensures isDraggingSelection == old(isDraggingSelection)
      ensures Valid()
    {
      points := [];
      selectionStart := -1;
      selectionEnd := -1;
      playheadPos := 0;
    }

    /** `initialize`: record the expected number of points, then clear. */
    method Initialize(totalPoints: int)
      modifies this
      ensures totalPointsEstimate == totalPoints
      ensures points == [] && selectionStart == -1 && selectionEnd == -1 && playheadPos == 0
      ensures isDraggingSelection == old(isDraggingSelection)
      ensures Valid()
    {
      totalPointsEstimate := totalPoints;
      ClearData();
    }

    /** The editor's `waveformView.playheadPos = …`: the playhead takes any
        value, and everything else is kept. */
    method SetPlayhead(p: int)
      requires Valid()
      modifies this
      ensures playheadPos == p
      ensures points == old(points) && totalPointsEstimate == old(totalPointsEstimate)
      ensures selectionStart == old(selectionStart) && selectionEnd == old(selectionEnd)
      ensures isDraggingSelection == old(isDraggingSelection)
      ensures Valid()
    {
      playheadPos := p;
    }

    /** `appendData`: the new points go at the end, in order; nothing else
        changes. */
    method AppendData(newPoints: seq<Peak>)
      requires Valid()
      modifies this
      ensures points == old(points) + newPoints
      ensures selectionStart == old(selectionStart) && selectionEnd == old(selectionEnd)
      ensures playheadPos == old(playheadPos) && isDraggingSelection == old(isDraggingSelection)
      ensures totalPointsEstimate == old(totalPointsEstimate)
      ensures Valid()
    {
      for i := 0 to |newPoints|
        invariant points == old(points) + newPoints[..i]
        invariant selectionStart == old(selectionStart) && selectionEnd == old(selectionEnd)
        invariant playheadPos == old(playheadPos) && isDraggingSelection == old(isDraggingSelection)
        invariant totalPointsEstimate == old(totalPointsEstimate)
        invariant |points| >= |old(points)|
      {
        assert newPoints[..i + 1] == newPoints[..i] + [newPoints[i]];
        points := points + [newPoints[i]];
      }
      assert newPoints[..|newPoints|] == newPoints;
    }

    /** `deleteRange`: an out-of-bounds or empty range changes nothing;
        otherwise the points [start, end) are removed, the selection is
        cleared and the playhead is shifted. */
    method DeleteRange(start: int, end: int)
      requires Valid()
      modifies this
      ensures start < 0 || end > old(|points|) || start >= end ==>
        && points == old(points)
        && selectionStart == old(selectionStart) && selectionEnd == old(selectionEnd)
        && playheadPos == old(playheadPos)
      ensures 0 <= start < end <= old(|points|) ==>
        && points == Splice(old(points), start, end)
        && selectionStart == -1 && selectionEnd == -1
        && playheadPos == ShiftedPlayhead(old(playheadPos), start, end)
      ensures isDraggingSelection == old(isDraggingSelection)
      ensures totalPointsEstimate == old(totalPointsEstimate)
      ensures Valid()
    {
      if start < 0 || end > |points| || start >= end {
        return;
      }
      var count := end - start;
      points := Splice(points, start, end);
      selectionStart := -1;
      selectionEnd := -1;
      if playheadPos > start {
        playheadPos := Max(playheadPos - count, start);
      }
    }

    /** `onSingleTapUp`: the playhead goes to the touched point, clamped to
        the buffer, and the selection is cleared; the new position is
        reported. */
    method OnSingleTapUp(index: int) returns (handled: bool, notified: int)
      requires Valid()
      modifies this
      ensures handled
      ensures playheadPos == Clamp(index, 0, old(LastIndex())) && notified == playheadPos
      ensures selectionStart == -1 && selectionEnd == -1
      ensures points == old(points) && isDraggingSelection == old(isDraggingSelection)
      ensures totalPointsEstimate == old(totalPointsEstimate)
      ensures Valid()
    {
      var idx := Clamp(index, 0, LastIndex());
      playheadPos := idx;
      selectionStart := -1;
      selectionEnd := -1;
      notified := playheadPos;
      handled := true;
    }

    /** `onLongPress`: a drag starts; both selection ends and the playhead go
        to the touched point, clamped to the buffer. */
    method OnLongPress(index: int) returns (notified: int)
      requires Valid()
      modifies this
      ensures isDraggingSelection
      ensures selectionStart == selectionEnd == playheadPos == Clamp(index, 0, old(LastIndex()))
      ensures notified == playheadPos
      ensures points == old(points) && totalPointsEstimate == old(totalPointsEstimate)
      ensures Valid()
    {
      isDraggingSelection := true;
      var s := Clamp(index, 0, LastIndex());
      selectionStart := s;
      selectionEnd := s;
      playheadPos := s;
      notified := playheadPos;
    }

    /** `onTouchEvent`, after the gesture detector (whose verdict is
        `detectorConsumed`): a move during a drag moves the selection end; a
        release or cancel ends the drag, orders the selection, clears it
        when empty and otherwise puts the playhead at its start. */
    method OnTouchEvent(action: Action, index: int, detectorConsumed: bool)
      returns (handled: bool, notified: Option<int>)
      requires Valid()
      modifies this
      ensures points == old(points) && totalPointsEstimate == old(totalPointsEstimate)
      ensures detectorConsumed || !old(isDraggingSelection) || action !in {Move, Up, Cancel} ==>
        && selectionStart == old(selectionStart) && selectionEnd == old(selectionEnd)
        && playheadPos == old(playheadPos) && isDraggingSelection == old(isDraggingSelection)
        && notified == None
        && handled == detectorConsumed
      ensures !detectorConsumed && old(isDraggingSelection) && action == Move ==>
        && handled && isDraggingSelection && notified == None
        && selectionStart == old(selectionStart)
        && selectionEnd == Clamp(index, 0, old(LastIndex()))
        && playheadPos == old(playheadPos)
      ensures !detectorConsumed && old(isDraggingSelection) && action in {Up, Cancel} ==>
        && handled && !isDraggingSelection
        && (selectionStart, selectionEnd) == Released(old(selectionStart), old(selectionEnd))
        && (selectionStart >= 0 ==> playheadPos == selectionStart && notified == Some(playheadPos))
        && (selectionStart < 0 ==> playheadPos == old(playheadPos) && notified == None)
      ensures Valid()
    {
      notified := None;
      if detectorConsumed {
        return true, None;
      }
      match action {
        case Move =>
          if isDraggingSelection {
            var maxIndex := LastIndex();
            var s := Clamp(index, 0, maxIndex);
            selectionEnd := s;
            return true, None;
          }
          return false, None;
        case Up =>
          handled, notified := EndDrag();
        case Cancel =>
          handled, notified := EndDrag();
        case _ =>
          return false, None;
      }
    }

    /** The release branch shared by `ACTION_UP` and `ACTION_CANCEL`. */
    method EndDrag() returns (handled: bool, notified: Option<int>)
      requires Valid()
      modifies this
      ensures points == old(points) && totalPointsEstimate == old(totalPointsEstimate)
      ensures !old(isDraggingSelection) ==>
        && !handled && notified == None
        && selectionStart == old(selectionStart) && selectionEnd == old(selectionEnd)
        && playheadPos == old(playheadPos) && !isDraggingSelection
      ensures old(isDraggingSelection) ==>
        && handled && !isDraggingSelection
        && (selectionStart, selectionEnd) == Released(old(selectionStart), old(selectionEnd))
        && (selectionStart >= 0 ==> playheadPos == selectionStart && notified == Some(playheadPos))
        && (selectionStart < 0 ==> playheadPos == old(playheadPos) && notified == None)
      ensures Valid()
    {
      notified := None;
      handled := false;
      if isDraggingSelection {
        isDraggingSelection := false;
        if selectionStart > selectionEnd {
          var t := selectionStart;
          selectionStart := selectionEnd;
          selectionEnd := t;
        }
        if selectionStart == selectionEnd {
          selectionStart := -1;
          selectionEnd := -1;
        } else if selectionStart >= 0 {
          playheadPos := selectionStart;
          notified := Some(playheadPos);
        }
        handled := true;
      }
    }
  }
}
