/**
 * `FixedTransparentErrorSimulator`: one object whose callbacks update its
 * fields and its canvas in place. Each callback is proved to change the
 * state exactly as the matching function of `Scene` says, and the public
 * callbacks keep the invariant `Scene.Valid`. Scheduling is not performed
 * here: a callback returns what it would hand to `root.after`.
 */
module Simulator {
  import opened Options
  import opened Canvas
  import ErrorCursor
  import opened ScrollBuffer
  import Progress
  import NameTicker
  import Scene
  import Invariants

  class ErrorSimulator {
    /** `self.canvas`. */
    const canvas: Surface
    /** `self.screen_height`; filling stops once the insertion point reaches it. */
    const screenHeight: int

    // Scroll buffer.
    var currentY: int
    var textItems: seq<TextItem>
    var screenFilled: bool

    // Error-line source and its cursor.
    const errorLines: seq<string>
    var currentLineIndex: nat

    // Progress engine.
    const progressUpdateIntervalMs: int
    var progressPercent: int
    var startTime: Option<int>
    var lastPercentUpdate: int
    const bar: Progress.Bar
    const barFillId: nat
    var barSlashIds: seq<nat>

    // Name ticker.
    const nameLines: seq<string>
    var nameIndex: nat
    var currentNameTextId: Option<nat>
    /** Stands for `_name_after_ids`: every callback the ticker handed to the scheduler, in order. */
    var nameScheduled: seq<NameTicker.Event>

    /** The object and its canvas as one value. */
    ghost function Snap(): Scene.State
      reads this, canvas
    {
      Scene.State(canvas.items, canvas.nextId,
                  screenHeight, currentY, textItems, screenFilled,
                  errorLines, currentLineIndex,
                  progressPercent, startTime, lastPercentUpdate,
                  bar, barFillId, barSlashIds,
                  nameLines, nameIndex, currentNameTextId, nameScheduled)
    }

    ghost predicate Valid()
      reads this, canvas
    {
      Scene.Valid(Snap())
    }

    /**
     * The state `__init__` sets up, on an empty canvas holding only the
     * zero-width fill; the bar's inner edges are given.
     */
    constructor (screenHeight: int, errorLines: seq<string>, nameLines: seq<string>,
                 barLeft: real, barTop: real, barRight: real, barBottom: real,
                 progressUpdateIntervalMs: int)
      ensures fresh(canvas) && this.progressUpdateIntervalMs == progressUpdateIntervalMs
      ensures Snap() == Scene.Initial(screenHeight, errorLines, nameLines, Progress.MakeBar(barLeft, barTop, barRight, barBottom))
      ensures Valid()
    {
      var surface := new Surface();
      var b := Progress.MakeBar(barLeft, barTop, barRight, barBottom);
      var fill := surface.Create(Rect(b.left, b.top, b.left, b.bottom));
      canvas := surface;
      this.screenHeight := screenHeight;
      currentY, textItems, screenFilled := 0, [], false;
      this.errorLines := errorLines;
      currentLineIndex := 0;
      this.progressUpdateIntervalMs := progressUpdateIntervalMs;
      progressPercent, startTime, lastPercentUpdate := 0, None, 0;
      bar := b;
      barFillId := fill;
      barSlashIds := [];
      this.nameLines := nameLines;
      nameIndex, currentNameTextId, nameScheduled := 0, None, [];
      new;
      Invariants.InitialValid(screenHeight, errorLines, nameLines, b);
    }

    /** `get_next_line`: the line under the cursor, then the cursor one line on, cyclically. */
    method GetNextLine() returns (line: string)
      requires ErrorCursor.Fits(errorLines, currentLineIndex)
      modifies this`currentLineIndex
      ensures (line, currentLineIndex) == ErrorCursor.NextLine(errorLines, old(currentLineIndex))
    {
      if |errorLines| == 0 {
        return ErrorCursor.Placeholder;
      }
      line := errorLines[currentLineIndex];
      currentLineIndex := (currentLineIndex + 1) % |errorLines|;
    }

    /**
     * `add_line`: draws the next error line at the insertion point,
     * appends its entry and moves the insertion point one line down,
     * marking the screen filled once it reaches the screen height.
     */
    method AddLine()
      requires canvas.Valid() && ErrorCursor.Fits(errorLines, currentLineIndex)
      modifies this`currentY, this`textItems, this`screenFilled, this`currentLineIndex, canvas
      ensures Snap() == Scene.AddLine(old(Snap()))
    {
      var line := GetNextLine();
      var id := canvas.Create(Text(TextX, currentY as real, line, NorthWest));
      textItems := textItems + [TextItem(id, currentY, TextColor)];
      currentY := currentY + LineHeight;
      if !screenFilled && currentY >= screenHeight {
        screenFilled := true;
      }
    }

    /**
     * `scroll_all_text_once`: moves every entry up one line, deletes the
     * ones that leave the top, then adds one line at the bottom.
     */
    method ScrollAllTextOnce()
      requires canvas.Valid() && ErrorCursor.Fits(errorLines, currentLineIndex)
      modifies this`currentY, this`textItems, this`screenFilled, this`currentLineIndex, canvas
      ensures Snap() == Scene.Scroll(old(Snap()))
    {
      var newItems: seq<TextItem> := [];
      var i := 0;
      while i < |textItems|
        invariant 0 <= i <= |textItems|
        invariant canvas.Valid() && canvas.nextId == old(canvas.nextId)
        invariant newItems == Survivors(textItems[..i])
        invariant canvas.items == Scene.ScrollCanvas(old(canvas.items), textItems[..i])
        modifies canvas
      {
        var e := textItems[i];
        var newY := e.y - LineHeight;
        canvas.MoveText(e.id, TextX, newY as real);
        if newY >= -LineHeight {
          newItems := newItems + [TextItem(e.id, newY, e.color)];
        } else {
          canvas.Delete(e.id);
        }
        assert textItems[..i + 1][..i] == textItems[..i];
        i := i + 1;
      }
      assert textItems[..i] == textItems;
      textItems := newItems;
      currentY := currentY - LineHeight;
      AddLine();
    }

    /** `update_display`, without its random re-arm: one line added while filling, one scroll step after. */
    method UpdateDisplay()
      requires canvas.Valid() && ErrorCursor.Fits(errorLines, currentLineIndex)
      modifies this`currentY, this`textItems, this`screenFilled, this`currentLineIndex, canvas
      ensures Snap() == Scene.UpdateDisplay(old(Snap()))
      ensures old(Valid()) ==> Valid()
    {
      ghost var s := Snap();
      if !screenFilled {
        AddLine();
      } else {
        ScrollAllTextOnce();
      }
      if Scene.Valid(s) {
        Invariants.UpdateDisplayKeeps(s);
      }
    }

    /** The delete loop of `update_progress_bar`: every old slash leaves the canvas. */
    method DeleteSlashes()
      requires canvas.Valid()
      modifies canvas
      ensures canvas.Valid() && canvas.nextId == old(canvas.nextId)
      ensures canvas.items == old(canvas.items) - SeqSet(barSlashIds)
    {
      var i := 0;
      while i < |barSlashIds|
        invariant 0 <= i <= |barSlashIds|
        invariant canvas.Valid() && canvas.nextId == old(canvas.nextId)
        invariant canvas.items == old(canvas.items) - SeqSet(barSlashIds[..i])
        modifies canvas
      {
        canvas.Delete(barSlashIds[i]);
        assert SeqSet(barSlashIds[..i + 1]) == SeqSet(barSlashIds[..i]) + {barSlashIds[i]} by {
          Invariants.SeqSetConcat(barSlashIds[..i], [barSlashIds[i]]);
          assert barSlashIds[..i + 1] == barSlashIds[..i] + [barSlashIds[i]];
          assert SeqSet([barSlashIds[i]]) == {barSlashIds[i]} by {
            assert [barSlashIds[i]][0] == barSlashIds[i];
          }
        }
        i := i + 1;
      }
      assert barSlashIds[..i] == barSlashIds;
    }

    /**
     * The drawing loop of `update_progress_bar`: over a fill of
     * `progressWidth` ending at `newRight`, one slash per spacing from the
     * left edge, under fresh ids, recorded in order.
     */
    method DrawSlashes(progressWidth: real, newRight: real)
      requires canvas.Valid() && newRight == bar.left + progressWidth
      modifies this`barSlashIds, canvas
      ensures canvas.Valid()
      ensures var n := Progress.SlashCount(bar.left, progressWidth);
        && barSlashIds == Scene.IdRange(old(canvas.nextId), n)
        && canvas.nextId == old(canvas.nextId) + n
        && canvas.items == Scene.AddSlashes(old(canvas.items), old(canvas.nextId), bar, n)
    {
      barSlashIds := [];
      ghost var n := Progress.SlashCount(bar.left, progressWidth);
      if progressWidth > Progress.MinSlashFill {
        var x := bar.left + Progress.SlashSpacing / 2.0;
        var maxX := newRight - Progress.SlashMargin;
        while x < maxX
          invariant |barSlashIds| <= n
          invariant x == Progress.SlashCentre(bar.left, |barSlashIds|)
          invariant canvas.Valid() && canvas.nextId == old(canvas.nextId) + |barSlashIds|
          invariant barSlashIds == Scene.IdRange(old(canvas.nextId), |barSlashIds|)
          invariant canvas.items == Scene.AddSlashes(old(canvas.items), old(canvas.nextId), bar, |barSlashIds|)
          decreases n - |barSlashIds|
          modifies this`barSlashIds, canvas
        {
          var sid := canvas.Create(Progress.SlashLine(bar, x));
          barSlashIds := barSlashIds + [sid];
          x := x + Progress.SlashSpacing;
        }
      }
      assert |barSlashIds| == n;
    }

    /**
     * `update_progress_bar`: stretches the fill to the current percentage
     * and replaces every old slash by the slashes for the new fill.
     */
    method UpdateProgressBar()
      requires canvas.Valid()
      modifies this`barSlashIds, canvas
      ensures Snap() == Scene.RedrawBar(old(Snap()))
    {
      var progressWidth := Progress.FillWidth(bar.width, progressPercent);
      var newRight := bar.left + progressWidth;
      canvas.MoveRect(barFillId, bar.left, bar.top, newRight, bar.bottom);
      DeleteSlashes();
      DrawSlashes(progressWidth, newRight);
    }

    /**
     * `update_progress_time_based` at clock reading `now` (milliseconds):
     * the percentage steps by one when three seconds have passed since the
     * last step, the bar is redrawn, and the next tick is scheduled only
     * while the percentage is below 100.
     */
    method UpdateProgressTimeBased(now: int) returns (next: Option<int>)
      requires canvas.Valid()
      modifies this`progressPercent, this`startTime, this`lastPercentUpdate, this`barSlashIds, canvas
      ensures Snap() == Scene.TickProgress(old(Snap()), now)
      ensures old(Valid()) ==> Valid()
      ensures next == if progressPercent < Progress.Full then Some(progressUpdateIntervalMs) else None
    {
      ghost var s := Snap();
      if startTime.None? {
        startTime := Some(now);
        lastPercentUpdate := now;
      }
      var sinceLastUpdate := now - lastPercentUpdate;
      if sinceLastUpdate >= Progress.IncrementGapMs && progressPercent < Progress.Full {
        progressPercent := progressPercent + 1;
        lastPercentUpdate := now;
      }
      progressPercent := if progressPercent < Progress.Full then progressPercent else Progress.Full;
      ghost var p := Progress.Tick(Scene.ProgressOf(s), now);
      assert progressPercent == p.percent && startTime == p.startTime && lastPercentUpdate == p.lastUpdate;
      assert Snap() == s.(percent := p.percent, startTime := p.startTime, lastUpdate := p.lastUpdate);
      UpdateProgressBar();
      if progressPercent < Progress.Full {
        next := Some(progressUpdateIntervalMs);
      } else {
        next := None;
      }
      if Scene.Valid(s) {
        Invariants.TickKeeps(s, now);
      }
    }

    /**
     * `_schedule_next_triplet` with the three random offsets given: with
     * names to show, three show events at the sorted offsets, the cursor
     * value captured for each, then a reschedule after one second; with
     * none, nothing at all.
     */
    method ScheduleNextTriplet(r0: int, r1: int, r2: int) returns (events: seq<NameTicker.Event>)
      requires 0 <= r0 <= NameTicker.MaxOffsetMs && 0 <= r1 <= NameTicker.MaxOffsetMs && 0 <= r2 <= NameTicker.MaxOffsetMs
      modifies this`nameIndex, this`nameScheduled
      ensures events == Scene.TripletEvents(old(Snap()), r0, r1, r2)
      ensures Snap() == Scene.ScheduleTriplet(old(Snap()), r0, r1, r2)
      ensures old(Valid()) ==> Valid()
    {
      ghost var s := Snap();
      events := [];
      if |nameLines| > 0 {
        var n := |nameLines|;
        var offsets := NameTicker.Sort3(r0, r1, r2);
        for k := 0 to 3
          invariant nameIndex == NameTicker.Cursor(s.nameIndex, n, k)
          invariant |events| == k
          invariant forall j | 0 <= j < k :: events[j] == NameTicker.Show(offsets[j], NameTicker.Cursor(s.nameIndex, n, j))
          invariant nameScheduled == s.scheduled + events
        {
          var event := NameTicker.Show(offsets[k], nameIndex);
          events := events + [event];
          nameScheduled := nameScheduled + [event];
          nameIndex := (nameIndex + 1) % n;
        }
        var again := NameTicker.Reschedule(NameTicker.PeriodMs);
        events := events + [again];
        nameScheduled := nameScheduled + [again];
        assert events == NameTicker.Triplet(s.nameIndex, n, offsets);
      }
      if Scene.Valid(s) {
        Invariants.ScheduleKeeps(s, r0, r1, r2);
      }
    }

    /**
     * `_show_name_line_and_advance(idx)`: deletes the name line shown so
     * far, then shows the name at `idx` (modulo the number of names)
     * centred below the bar.
     */
    method ShowNameLineAndAdvance(idx: nat)
      requires canvas.Valid()
      modifies this`currentNameTextId, canvas
      ensures Snap() == Scene.ShowName(old(Snap()), idx)
      ensures old(Valid()) ==> Valid()
    {
      ghost var s := Snap();
      if currentNameTextId.Some? {
        canvas.Delete(currentNameTextId.value);
        currentNameTextId := None;
      }
      if |nameLines| > 0 {
        var line := nameLines[idx % |nameLines|];
        var id := canvas.Create(Text(Scene.NameX(bar), Scene.NameY(bar), line, North));
        currentNameTextId := Some(id);
      }
      if Scene.Valid(s) {
        Invariants.ShowNameKeeps(s, idx);
      }
    }
  }
}
