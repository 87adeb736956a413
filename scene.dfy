/**
 * The whole state of `FixedTransparentErrorSimulator` as one value, the
 * invariant its callbacks keep, and each callback as a function from the
 * state before to the state after. The canvas holds exactly what the
 * object owns: the scrolling error lines (text anchored at its top-left
 * corner), the progress fill and its slashes, and at most one name line
 * (text anchored at the middle of its top edge).
 */
module Scene {
  import opened Options
  import opened Canvas
  import ErrorCursor
  import opened ScrollBuffer
  import Progress
  import NameTicker

  /**
   * The canvas and the object's fields: the scroll buffer, the error-line
   * cursor, the progress engine and the name ticker. `scheduled` stands
   * for `_name_after_ids`: every callback the ticker handed to the
   * scheduler, in order.
   */
  datatype State = State(
    items: map<nat, Item>, nextId: nat,
    screenHeight: int, currentY: int, textItems: seq<TextItem>, screenFilled: bool,
    errorLines: seq<string>, lineIndex: nat,
    percent: int, startTime: Option<int>, lastUpdate: int,
    bar: Progress.Bar, fillId: nat, slashIds: seq<nat>,
    nameLines: seq<string>, nameIndex: nat, nameTextId: Option<nat>,
    scheduled: seq<NameTicker.Event>)

  // ----- What the canvas items are -----

  predicate IsScrollText(it: Item)
  {
    it.Text? && it.anchor == NorthWest
  }

  predicate IsNameText(it: Item)
  {
    it.Text? && it.anchor == North
  }

  /** The x coordinate the name line is centred on. */
  function NameX(bar: Progress.Bar): real
  {
    (bar.left + bar.right) / 2.0
  }

  /** The top edge of the name line, 50 px below the bar. */
  function NameY(bar: Progress.Bar): real
  {
    bar.bottom + NameTicker.NameOffsetY
  }

  /** The entry `e` is drawn on the canvas as a scroll text at its row. */
  predicate DrawnAt(m: map<nat, Item>, e: TextItem)
  {
    e.id in m && IsScrollText(m[e.id]) && m[e.id].x == TextX && m[e.id].y == e.y as real
  }

  predicate ScrollDrawn(m: map<nat, Item>, items: seq<TextItem>)
  {
    forall k | 0 <= k < |items| :: DrawnAt(m, items[k])
  }

  predicate SlashesPresent(m: map<nat, Item>, ids: seq<nat>)
  {
    forall j | 0 <= j < |ids| :: ids[j] in m && m[ids[j]].Line?
  }

  predicate Distinct(ids: seq<nat>)
  {
    forall a, b | 0 <= a < b < |ids| :: ids[a] != ids[b]
  }

  /** The `j`-th slash id holds the slash drawn at the `j`-th centre. */
  predicate SlashesDrawn(m: map<nat, Item>, bar: Progress.Bar, ids: seq<nat>)
  {
    forall j | 0 <= j < |ids| :: ids[j] in m && m[ids[j]] == Progress.SlashLine(bar, Progress.SlashCentre(bar.left, j))
  }

  /** The current name text, if any, is a name line centred below the bar. */
  predicate NameShown(m: map<nat, Item>, bar: Progress.Bar, names: seq<string>, current: Option<nat>)
  {
    current.Some? ==>
      var id := current.value;
      id in m && IsNameText(m[id]) && m[id].x == NameX(bar) && m[id].y == NameY(bar) && m[id].text in names
  }

  /** No name text is on the canvas but the current one. */
  predicate OnlyName(m: map<nat, Item>, current: Option<nat>)
  {
    forall id | id in m && IsNameText(m[id]) :: current == Some(id)
  }

  /** `m2` holds every item of `m` whose id is in `ids`, unchanged. */
  predicate SameOn(m: map<nat, Item>, m2: map<nat, Item>, ids: set<nat>)
  {
    forall id | id in ids && id in m :: id in m2 && m2[id] == m[id]
  }

  // ----- The invariant -----

  /**
   * The scroll buffer is laid out line by line up to the insertion point,
   * every entry is drawn at its row, and a filled screen stays filled;
   * `slack` lets the insertion point sit one line short of that while a
   * scroll step is half done.
   */
  ghost predicate ScrollOk(s: State, slack: int)
  {
    && Stacked(s.textItems, s.currentY)
    && s.currentY + slack >= 0
    && (s.screenFilled ==> s.currentY + slack >= s.screenHeight)
    && DistinctIds(s.textItems)
    && ScrollDrawn(s.items, s.textItems)
  }

  ghost predicate ProgressOk(s: State)
  {
    && 0 <= s.percent <= Progress.Full
    && Progress.ValidBar(s.bar)
    && s.fillId in s.items && s.items[s.fillId].Rect?
    && SlashesPresent(s.items, s.slashIds)
    && Distinct(s.slashIds)
  }

  /** The fill and the slashes on the canvas are the ones drawn for the current percentage. */
  ghost predicate BarShown(s: State)
  {
    && s.fillId in s.items
    && s.items[s.fillId] == Progress.FillRect(s.bar, s.percent)
    && |s.slashIds| == Progress.SlashCount(s.bar.left, Progress.FillWidth(s.bar.width, s.percent))
    && SlashesDrawn(s.items, s.bar, s.slashIds)
  }

  /** The name cursor fits the names, and the only name text on the canvas is the current one. */
  ghost predicate TickerOk(s: State)
  {
    && (|s.nameLines| > 0 ==> s.nameIndex < |s.nameLines|)
    && NameShown(s.items, s.bar, s.nameLines, s.nameTextId)
    && OnlyName(s.items, s.nameTextId)
  }

  /** The ids of everything on the canvas that is not a scrolling line. */
  function Others(s: State): set<nat>
  {
    SeqSet(s.slashIds) + {s.fillId} + Elements(s.nameTextId)
  }

  /** The canvas holds exactly the items the object owns: nothing leaks. */
  ghost predicate Owned(s: State)
  {
    s.items.Keys == IdSet(s.textItems) + Others(s)
  }

  ghost predicate Layout(s: State, slack: int)
  {
    && Numbered(s.items, s.nextId)
    && ErrorCursor.Fits(s.errorLines, s.lineIndex)
    && ScrollOk(s, slack)
    && ProgressOk(s)
    && TickerOk(s)
    && Owned(s)
  }

  /** The invariant every callback keeps. */
  ghost predicate Valid(s: State)
  {
    Layout(s, 0) && BarShown(s)
  }

  // ----- The callbacks -----

  /**
   * The state `__init__` and `draw_progress_bar` leave: nothing scrolled,
   * 0 %, and only the zero-width fill (the first id) on the canvas.
   */
  function Initial(screenHeight: int, errorLines: seq<string>, nameLines: seq<string>, bar: Progress.Bar): State
  {
    State(map[1 := Rect(bar.left, bar.top, bar.left, bar.bottom)], 2,
          screenHeight, 0, [], false,
          errorLines, 0,
          0, None, 0,
          bar, 1, [],
          nameLines, 0, None, [])
  }

  /** The state after `add_line`. */
  function AddLine(s: State): State
    requires ErrorCursor.Fits(s.errorLines, s.lineIndex)
  {
    var next := ErrorCursor.NextLine(s.errorLines, s.lineIndex);
    var y := s.currentY + LineHeight;
    s.(items := s.items[s.nextId := Text(TextX, s.currentY as real, next.0, NorthWest)],
       nextId := s.nextId + 1,
       textItems := s.textItems + [TextItem(s.nextId, s.currentY, TextColor)],
       currentY := y,
       screenFilled := s.screenFilled || y >= s.screenHeight,
       lineIndex := next.1)
  }

  /** A text item moved to the scroll column at row `y`; other items are left alone. */
  function MovedText(it: Item, y: int): Item
  {
    if it.Text? then it.(x := TextX, y := y as real) else it
  }

  /** One entry's part of the scroll pass: move it up a line, then delete it if it left the top. */
  function ScrollEntry(m: map<nat, Item>, e: TextItem): map<nat, Item>
  {
    var moved := if e.id in m && m[e.id].Text? then m[e.id := MovedText(m[e.id], e.y - LineHeight)] else m;
    if Keeps(e) then moved else moved - {e.id}
  }

  /** The canvas after the scroll pass over `items`, in order. */
  function ScrollCanvas(m: map<nat, Item>, items: seq<TextItem>): map<nat, Item>
    decreases |items|
  {
    if items == [] then m else ScrollEntry(ScrollCanvas(m, items[..|items| - 1]), Last(items))
  }

  /** The state halfway through `scroll_all_text_once`: every entry moved up, the evicted ones deleted. */
  function ScrollUp(s: State): State
  {
    s.(items := ScrollCanvas(s.items, s.textItems),
       textItems := Survivors(s.textItems),
       currentY := s.currentY - LineHeight)
  }

  /** The state after `scroll_all_text_once`. */
  function Scroll(s: State): State
    requires ErrorCursor.Fits(s.errorLines, s.lineIndex)
  {
    AddLine(ScrollUp(s))
  }

  /** The state after `update_display`, not counting its re-arm. */
  function UpdateDisplay(s: State): State
    requires ErrorCursor.Fits(s.errorLines, s.lineIndex)
  {
    if !s.screenFilled then AddLine(s) else Scroll(s)
  }

  /** `n` slashes drawn on `m` under fresh ids from `firstId`, left to right. */
  function AddSlashes(m: map<nat, Item>, firstId: nat, bar: Progress.Bar, n: nat): map<nat, Item>
    decreases n
  {
    if n == 0 then m
    else AddSlashes(m, firstId, bar, n - 1)[firstId + n - 1 := Progress.SlashLine(bar, Progress.SlashCentre(bar.left, n - 1))]
  }

  /** The ids `firstId`, `firstId + 1`, ..., `n` of them. */
  function IdRange(firstId: nat, n: nat): (ids: seq<nat>)
    ensures |ids| == n
  {
    seq(n, j requires 0 <= j < n => firstId + j)
  }

  /** The state after `update_progress_bar`: fill stretched, old slashes deleted, new ones drawn. */
  function RedrawBar(s: State): State
  {
    var fill := Progress.FillRect(s.bar, s.percent);
    var moved := if s.fillId in s.items && s.items[s.fillId].Rect? then s.items[s.fillId := fill] else s.items;
    var n := Progress.SlashCount(s.bar.left, Progress.FillWidth(s.bar.width, s.percent));
    s.(items := AddSlashes(moved - SeqSet(s.slashIds), s.nextId, s.bar, n),
       nextId := s.nextId + n,
       slashIds := IdRange(s.nextId, n))
  }

  /** The progress fields as a value. */
  function ProgressOf(s: State): Progress.ProgressState
  {
    Progress.ProgressState(s.percent, s.startTime, s.lastUpdate)
  }

  /** The state after `update_progress_time_based` at clock reading `now`. */
  function TickProgress(s: State, now: int): State
  {
    var p := Progress.Tick(ProgressOf(s), now);
    RedrawBar(s.(percent := p.percent, startTime := p.startTime, lastUpdate := p.lastUpdate))
  }

  /** The callbacks `_schedule_next_triplet` hands to the scheduler, for the three random offsets. */
  function TripletEvents(s: State, r0: int, r1: int, r2: int): seq<NameTicker.Event>
  {
    if |s.nameLines| == 0 then []
    else NameTicker.Triplet(s.nameIndex, |s.nameLines|, NameTicker.Sort3(r0, r1, r2))
  }

  /** The state after `_schedule_next_triplet`. */
  function ScheduleTriplet(s: State, r0: int, r1: int, r2: int): State
  {
    if |s.nameLines| == 0 then s
    else s.(nameIndex := NameTicker.AfterTriplet(s.nameIndex, |s.nameLines|),
            scheduled := s.scheduled + TripletEvents(s, r0, r1, r2))
  }

  /** The state after `_show_name_line_and_advance(idx)`. */
  function ShowName(s: State, idx: nat): State
  {
    var cleared := s.items - Elements(s.nameTextId);
    if |s.nameLines| == 0 then s.(items := cleared, nameTextId := None)
    else
      s.(items := cleared[s.nextId := Text(NameX(s.bar), NameY(s.bar), s.nameLines[idx % |s.nameLines|], North)],
         nextId := s.nextId + 1,
         nameTextId := Some(s.nextId))
  }
}
