# Fake error-screen simulator, modelled in Dafny

`test.py` draws a full-screen, transparent "system failure" overlay. Behind a
warning panel, red error lines scroll upward one 20 px row at a time. A
progress bar creeps from 0 % to 100 % at one percent per three seconds of
monotonic clock, and white diagonal slashes are redrawn over its filled part.
Below the bar, a ticker shows lines from a name list, three per second at
random moments.

This project models the animation core of `FixedTransparentErrorSimulator`:
`get_next_line`, `add_line`, `scroll_all_text_once`, `update_display`,
`update_progress_time_based`, `update_progress_bar`,
`_schedule_next_triplet` and `_show_name_line_and_advance`. The modules:

- `Canvas` — the Tk canvas, reduced to a map from item ids to items (scroll text, name text, line, rectangle). Ids are handed out in increasing order from 1, and moving or deleting an absent id is a no-op.
- `ErrorCursor` — the cyclic error-line cursor and its "NO ERROR LINES AVAILABLE" placeholder.
- `ScrollBuffer` — the `text_items` entries `(id, y, color)` as values. Covers what one scroll step keeps and evicts, and the line-by-line layout it preserves.
- `Progress` — the percentage state machine over an integer millisecond clock, plus the bar geometry: fill width, slash count and slash positions.
- `NameTicker` — the three show events and the reschedule that one triplet hands to the scheduler, with the sorted offsets and the captured name indices.
- `Scene` — the object's whole state as one value. Holds the invariant `Valid` (layout, drawn positions, and a canvas holding exactly what the object owns) and each callback as a function from the state before to the state after.
- `Invariants` — lemmas: each callback keeps `Valid`, and each touches only the items it owns.
- `Simulator` — the class `ErrorSimulator`, whose methods update its fields and canvas in place with the loops of the source. Each is proved to change the state exactly as the matching `Scene` function says, and the public callbacks keep `Valid`.

Scheduling is not performed. A callback returns, or records, what it would
hand to `root.after`. The clock reading and the three random offsets are
parameters.

The scroll step is the fixed `line_height` of 20 px (test.py:34, 217, 231), not the height of the top entry.

The error lines are a constructor parameter. The model also covers an empty list, which `load_error_lines` never returns (test.py:84-88).

## Model

| member | source | states |
|---|---|---|
| ErrorCursor.NextLine | test.py:102-107 | With no lines, the result is the placeholder and the cursor does not move. Otherwise it is the line under the cursor, the cursor moves to (i+1) mod n, and the cursor always stays in range. |
| ErrorCursor.EmptyAlwaysPlaceholder | test.py:102-104 | With no lines, every one of k calls returns the placeholder and the cursor never moves. |
| ErrorCursor.EmittedAt | test.py:102-107 | The j-th of k successive calls from cursor i returns line (i+j) mod n. |
| ErrorCursor.CursorAfterIs | test.py:105-106 | After k calls from cursor i, the cursor is (i+k) mod n. |
| ErrorCursor.FullCycle | test.py:102-107 | n calls from cursor i return the lines rotated to start at i, and the cursor is back at i. |
| ScrollBuffer.KeptPlusEvicted | test.py:214-229 | Every entry is either kept or evicted by a scroll step: kept plus evicted equals the old length. |
| ScrollBuffer.EvictsPrefix | test.py:214-229 | On entries in ascending order, a step evicts a prefix and releases exactly its ids. It keeps the rest, in order, each 20 px higher. Exactly the entries whose new y is below -20 go. |
| ScrollBuffer.AtMostOneEvicted | test.py:214-229 | With entries 20 px apart and none above -20, a step evicts at most one. |
| ScrollBuffer.ScrollKeepsStack | test.py:214-231 | A step preserves the layout (consecutive entries 20 apart, the last one at the insertion point minus 20) with the insertion point 20 higher. |
| ScrollBuffer.SurvivorIds | test.py:214-229 | Kept ids stay distinct. An entry's id is kept exactly when the entry stays, and released exactly when it goes. |
| ScrollBuffer.EvictedIds | test.py:214-229 | The released ids are ids of the buffer, and the kept ids are exactly the remaining ones. |
| ScrollBuffer.Bounded | test.py:202-232 | A laid-out buffer never holds more rows than fit between -20 and the insertion point. |
| Progress.Tick | test.py:243-253 | Starts the clock if unset. The percentage rises by exactly one iff the clock was already started, 3000 ms have passed since the last step, and it is below 100. It never exceeds 100, and `lastUpdate` moves to now exactly on a start or a step. |
| Progress.RunMonotone | test.py:243-253 | Over any run of ticks the percentage never decreases and stays within [0, 100]. |
| Progress.CompleteIsTerminal | test.py:249-264 | At 100 % a tick changes nothing and does not reschedule. |
| Progress.CompleteStaysComplete | test.py:243-264 | Once at 100 %, any run of ticks leaves the state unchanged. |
| Progress.RateLimited | test.py:248-251 | With readings that do not go backwards, each percent gained costs at least 3000 ms between the first and last update. |
| Progress.OnePercentPerThreeSeconds | test.py:243-259 | Ticking every 100 ms from a start at t0, after m ticks the percentage is min(100, m/30) and the last step was at t0 + 3000 times that. |
| Progress.Timeline | test.py:243-259 | From a start at 0: 1 % at 3 s, 3 % at 9.5 s, 100 % at 300 s, and no change after that. |
| Progress.MakeBar | test.py:175-182 | The recorded bar keeps its edges. Its width and height are at least 1, and equal the edge differences when those are at least 1. |
| Progress.FillWidth | test.py:269 | The fill width lies in [0, bar width]. It is 0 at 0 % and the full width at 100 %. |
| Progress.FillMonotone | test.py:269 | The fill never shrinks as the percentage grows. |
| Progress.SlashCount | test.py:285-298 | No slashes for a fill of 6 px or less. Otherwise, exactly the centres left + 7 + 14k that lie left of the fill's right edge minus 2. |
| Progress.SlashesInsideFill | test.py:285-298 | Every slash centre lies strictly inside the filled part of the bar. |
| NameTicker.Sort3 | test.py:354 | The three offsets come out in non-decreasing order, as a permutation of the input. |
| NameTicker.CursorIsMod | test.py:358-363 | Advancing the name cursor k times from i lands at (i+k) mod n. |
| NameTicker.TripletShowsConsecutive | test.py:354-367 | A triplet from cursor i shows names i, i+1 and i+2 mod n at sorted delays in [0, 999], then reschedules after 1000 ms. |
| NameTicker.ShownInTurn | test.py:358-367 | Across back-to-back triplets, the j-th show displays name (i+j) mod n: none skipped or repeated. |
| Invariants.InitialValid | test.py:33-69 | The state after construction satisfies the invariant. |
| Invariants.AddLineAppends | test.py:202-212 | `add_line` appends exactly one entry, under an id not yet on the canvas, at the old insertion point, with the cursor's line as text, and advances the cursor as `get_next_line` does. The new id is the only canvas change: every old item keeps its value. The insertion point moves down 20, and the filled flag becomes (filled or insertion point ≥ screen height), so it is one-way. |
| Invariants.AddLineKeeps | test.py:202-212 | `add_line`, applied to a buffer one row short of the layout, restores the whole invariant. |
| Invariants.FillScenario | test.py:202-212 | On a 40 px screen with lines "A", "", "B long line", the first two lines sit at rows 0 and 20 (the blank one takes a full row) and the screen is filled after the second. |
| Invariants.ScrollCanvasKeys | test.py:214-229 | The scroll pass deletes exactly the ids of the evicted entries from the canvas. |
| Invariants.ScrollCanvasOther | test.py:214-229 | The scroll pass leaves every item that is not a buffer entry untouched. |
| Invariants.ScrollCanvasEntry | test.py:214-229 | The scroll pass moves each kept entry's item to (10, y-20) and deletes each evicted entry's item. |
| Invariants.ScrollUpKeeps | test.py:214-231 | Halfway through a scroll step, the layout holds one row short, and the bar and name items are untouched. |
| Invariants.ScrollKeeps | test.py:214-232 | A scroll step keeps the invariant. |
| Invariants.ScrollShifts | test.py:214-232 | A scroll step gives the survivors followed by one new entry at the old bottom row. It evicts at most one entry, removes exactly the evicted ids and adds one, and leaves the insertion point fixed and every other item untouched. |
| Invariants.UpdateDisplayKeeps | test.py:234-238 | `update_display` keeps the invariant. The buffer grows by 1 before the screen is filled and by 1 minus the evicted count after. A filled screen stays filled with the insertion point fixed, and the buffer stays bounded. |
| Invariants.RedrawBarKeeps | test.py:266-298 | Redrawing the bar restores the invariant: the fill matches the percentage, and each slash sits at its position. Every old slash is deleted, new slash ids are fresh, and no scroll or name item is touched. |
| Invariants.TickKeeps | test.py:243-264 | A progress tick keeps the invariant, and its progress fields are those of `Progress.Tick`. |
| Invariants.TripletScheduled | test.py:344-367 | With no names, nothing is scheduled and nothing changes. Otherwise exactly four events: shows of names i, i+1, i+2 mod n at the sorted random offsets, then one reschedule at 1000 ms. The cursor moves to (i+3) mod n, and every event is recorded. |
| Invariants.ScheduleKeeps | test.py:358-363 | Scheduling a triplet keeps the invariant. |
| Invariants.ShowNameKeeps | test.py:369-396 | Showing a name keeps the invariant: the previous name text is deleted, and the new one is the text at idx mod n and the only name text on the canvas. With no names, none is shown, and no other item is touched. |
| Simulator.ErrorSimulator.constructor | test.py:9-76 | Builds a fresh canvas holding only the zero-width fill, in the initial state, which satisfies the invariant. |
| Simulator.ErrorSimulator.GetNextLine | test.py:102-107 | Returns the line and new cursor that `ErrorCursor.NextLine` gives. |
| Simulator.ErrorSimulator.AddLine | test.py:202-212 | Changes the object and canvas exactly as `Scene.AddLine`. |
| Simulator.ErrorSimulator.ScrollAllTextOnce | test.py:214-232 | The loop over the entries changes the object and canvas exactly as `Scene.Scroll`. |
| Simulator.ErrorSimulator.UpdateDisplay | test.py:234-238 | Changes the state exactly as `Scene.UpdateDisplay` and keeps the invariant. |
| Simulator.ErrorSimulator.UpdateProgressBar | test.py:266-298 | The delete loop and the slash loop change the state exactly as `Scene.RedrawBar`. |
| Simulator.ErrorSimulator.UpdateProgressTimeBased | test.py:243-264 | Changes the state exactly as `Scene.TickProgress` and keeps the invariant. Returns the 100 ms re-arm iff the percentage is still below 100. |
| Simulator.ErrorSimulator.ScheduleNextTriplet | test.py:344-367 | Its loop returns `Scene.TripletEvents` and changes the state exactly as `Scene.ScheduleTriplet`, keeping the invariant. |
| Simulator.ErrorSimulator.ShowNameLineAndAdvance | test.py:369-396 | Changes the state exactly as `Scene.ShowName` and keeps the invariant. |

## Left out

- Window setup (`root.attributes`, transparency, `overrideredirect`), the static panel drawn by `draw_outline_border` (border, warning triangle, title, `bar_bg_id`, the percentage label): none of these items is moved or deleted by the modelled callbacks. The modelled canvas therefore holds only the items the callbacks create, so its ids differ from Tk's; only their freshness matters.
- `load_error_lines`, `load_name_lines` and the fonts: file I/O and encodings. The line lists are constructor parameters.
- `tag_raise`/`tag_lower` (stacking order), every `itemconfig` (the per-pass re-colouring of scroll text, the percentage label text, its final white colour) and fill colours and fonts: the model has no stacking order or colours on canvas items. The entry's colour is kept in `text_items` as the source does.
- The scheduler itself: `root.after`, `after_cancel`, `mainloop`, and the random 300–900 ms re-arm delay of `update_display` (test.py:239-240). `nameScheduled` records the scheduled callbacks as event values in place of the after-ids kept in `_name_after_ids`.
- `start_name_scrolling`, `on_key_press` and Escape handling, and `run`, which only wire up the loops. The progress start `run` performs (test.py:412-413) is the state `Progress.Started`.
- Canvas call failures: the `try`/`except` branches around canvas calls, and the `bar_fill_id` falsy guard (test.py:267-268), are unreachable in the model, because canvas calls never fail and ids start at 1.
- Floating point: bar geometry uses exact reals, so the repeated `x += 14` accumulates no rounding.
- Time: the monotonic clock is an integer millisecond reading `now` passed to each tick. One reading stands for both `time.monotonic()` calls of the first tick.
- `total_duration_seconds`: stored by the source but never used to pace the percentage.
- Simulator.ErrorSimulator.UpdateDisplay: keeps the invariant as `old(Valid()) ==> Valid()` rather than requiring it. The same holds for the other public callbacks. Their only preconditions are what the code itself needs: a well-numbered canvas and a cursor that fits the error lines.
