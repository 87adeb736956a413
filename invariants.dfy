/**
 * What the callbacks of `Scene` keep and what they change: each keeps the
 * invariant `Scene.Valid`, and each touches only the canvas items it
 * owns.
 */
module Invariants {
  import opened Options
  import opened Canvas
  import ErrorCursor
  import opened ScrollBuffer
  import Progress
  import NameTicker
  import opened Scene

  // ----- Frames -----

  lemma SeqSetConcat(a: seq<nat>, b: seq<nat>)
    ensures SeqSet(a + b) == SeqSet(a) + SeqSet(b)
  {
    var c := a + b;
    forall x | x in SeqSet(c)
      ensures x in SeqSet(a) + SeqSet(b)
    {
      var k :| 0 <= k < |c| && c[k] == x;
      if k >= |a| {
        assert b[k - |a|] == x;
      }
    }
    forall x | x in SeqSet(a) + SeqSet(b)
      ensures x in SeqSet(c)
    {
      if x in SeqSet(a) {
        var k :| 0 <= k < |a| && a[k] == x;
        assert c[k] == x;
      } else {
        var k :| 0 <= k < |b| && b[k] == x;
        assert c[|a| + k] == x;
      }
    }
  }

  lemma ScrollDrawnFrame(m: map<nat, Item>, m2: map<nat, Item>, items: seq<TextItem>, ids: set<nat>)
    requires ScrollDrawn(m, items) && SameOn(m, m2, ids) && IdSet(items) <= ids
    ensures ScrollDrawn(m2, items)
  {
    forall k | 0 <= k < |items|
      ensures DrawnAt(m2, items[k])
    {
      assert items[k].id in IdSet(items);
    }
  }

  lemma SlashesFrame(m: map<nat, Item>, m2: map<nat, Item>, bar: Progress.Bar, slashIds: seq<nat>, ids: set<nat>)
    requires SameOn(m, m2, ids) && SeqSet(slashIds) <= ids
    ensures SlashesPresent(m, slashIds) ==> SlashesPresent(m2, slashIds)
    ensures SlashesDrawn(m, bar, slashIds) ==> SlashesDrawn(m2, bar, slashIds)
  {
    forall j | 0 <= j < |slashIds|
      ensures slashIds[j] in ids
    {
      assert slashIds[j] in SeqSet(slashIds);
    }
  }

  /** The parts of a valid state are told apart by their kind of item. */
  lemma Kinds(s: State)
    requires ScrollDrawn(s.items, s.textItems) && ProgressOk(s)
    requires NameShown(s.items, s.bar, s.nameLines, s.nameTextId)
    ensures forall id | id in IdSet(s.textItems) :: id in s.items && IsScrollText(s.items[id])
    ensures forall id | id in SeqSet(s.slashIds) :: id in s.items && s.items[id].Line?
    ensures IdSet(s.textItems) !! Others(s)
    ensures s.fillId !in SeqSet(s.slashIds)
    ensures Elements(s.nameTextId) !! (SeqSet(s.slashIds) + {s.fillId})
  {
    forall id | id in IdSet(s.textItems)
      ensures id in s.items && IsScrollText(s.items[id])
    {
      var k :| 0 <= k < |s.textItems| && s.textItems[k].id == id;
      assert DrawnAt(s.items, s.textItems[k]);
    }
    forall id | id in SeqSet(s.slashIds)
      ensures id in s.items && s.items[id].Line?
    {
      var j :| 0 <= j < |s.slashIds| && s.slashIds[j] == id;
    }
  }

  // ----- __init__ -----

  /** The initial state satisfies the invariant, for any bar `draw_progress_bar` can record. */
  lemma InitialValid(screenHeight: int, errorLines: seq<string>, nameLines: seq<string>, bar: Progress.Bar)
    requires Progress.ValidBar(bar)
    ensures Valid(Initial(screenHeight, errorLines, nameLines, bar))
  {
    var s := Initial(screenHeight, errorLines, nameLines, bar);
    assert s.items.Keys == {1};
    assert Progress.FillRect(bar, 0) == s.items[1];
  }

  // ----- add_line -----

  /**
   * `add_line` appends exactly one entry, under an id not yet on the
   * canvas, at the old insertion point, draws the cursor's line there and
   * moves the insertion point one line down; a filled screen stays filled.
   */
  lemma AddLineAppends(s: State)
    requires Numbered(s.items, s.nextId) && ErrorCursor.Fits(s.errorLines, s.lineIndex)
    ensures var r := AddLine(s);
      && |r.textItems| == |s.textItems| + 1
      && r.textItems[..|s.textItems|] == s.textItems
      && Last(r.textItems).id !in s.items
      && Last(r.textItems).y == s.currentY
      && r.items.Keys == s.items.Keys + {Last(r.textItems).id}
      && SameOn(s.items, r.items, s.items.Keys)
      && r.items[Last(r.textItems).id].text ==
           (if |s.errorLines| == 0 then ErrorCursor.Placeholder else s.errorLines[s.lineIndex])
      && r.lineIndex == ErrorCursor.NextLine(s.errorLines, s.lineIndex).1
      && r.currentY == s.currentY + LineHeight
      && (s.screenFilled ==> r.screenFilled)
      && (r.screenFilled <==> s.screenFilled || r.currentY >= s.screenHeight)
  {
    var r := AddLine(s);
    assert r.textItems[..|s.textItems|] == s.textItems;
  }

  /** The scroll part of the invariant after `add_line`, from one line short of it. */
  lemma AddLineScrollOk(s: State)
    requires ErrorCursor.Fits(s.errorLines, s.lineIndex) && s.nextId !in s.items
    requires ScrollOk(s, LineHeight)
    ensures ScrollOk(AddLine(s), 0)
  {
    var r := AddLine(s);
    var id := s.nextId;
    var n := |s.textItems|;
    assert forall k | 0 <= k < n :: r.textItems[k] == s.textItems[k];
    assert r.textItems[n] == TextItem(id, s.currentY, TextColor);
    assert n > 0 ==> Last(s.textItems) == r.textItems[n - 1];
    assert Stacked(r.textItems, r.currentY);
    forall k | 0 <= k < |r.textItems|
      ensures DrawnAt(r.items, r.textItems[k])
    {
      if k < n {
        assert DrawnAt(s.items, s.textItems[k]);
      }
    }
    forall a, b | 0 <= a < b < |r.textItems|
      ensures r.textItems[a].id != r.textItems[b].id
    {
      if b == n {
        assert DrawnAt(s.items, s.textItems[a]);
      }
    }
  }

  /** `add_line` adds one id to the scroll buffer's ids. */
  lemma AddLineIds(s: State)
    requires ErrorCursor.Fits(s.errorLines, s.lineIndex)
    ensures IdSet(AddLine(s).textItems) == IdSet(s.textItems) + {s.nextId}
  {
    var r := AddLine(s);
    var n := |s.textItems|;
    assert forall k | 0 <= k < n :: r.textItems[k] == s.textItems[k];
    assert r.textItems[n].id == s.nextId;
    forall x | x in IdSet(r.textItems)
      ensures x in IdSet(s.textItems) + {s.nextId}
    {
      var k :| 0 <= k < |r.textItems| && r.textItems[k].id == x;
      if k < n {
        assert s.textItems[k].id == x;
      }
    }
  }

  /** `add_line` on a buffer one line short of its layout restores the whole invariant. */
  lemma AddLineKeeps(s: State)
    requires Layout(s, LineHeight) && BarShown(s)
    ensures Valid(AddLine(s))
  {
    var r := AddLine(s);
    assert s.nextId !in s.items;
    AddLineScrollOk(s);
    AddLineIds(s);
    assert SameOn(s.items, r.items, s.items.Keys);
    SlashesFrame(s.items, r.items, s.bar, s.slashIds, s.items.Keys);
    assert ProgressOk(r) && BarShown(r);
    assert TickerOk(r);
    assert Owned(r);
  }

  /**
   * Filling a 40 px screen from the lines `"A"`, `""` and `"B long line"`:
   * the first two lines land at rows 0 and 20, the blank line taking its
   * full row, and the screen counts as filled after the second.
   */
  lemma FillScenario(nameLines: seq<string>, bar: Progress.Bar)
    ensures var s0 := Initial(40, ["A", "", "B long line"], nameLines, bar);
      var s1 := AddLine(s0);
      var s2 := AddLine(s1);
      && |s1.textItems| == 1 && s1.textItems[0].y == 0 && s1.items[s1.textItems[0].id].text == "A"
      && !s1.screenFilled
      && |s2.textItems| == 2 && s2.textItems[1].y == 20 && s2.items[s2.textItems[1].id].text == ""
      && s2.currentY == 40 && s2.screenFilled
  {
  }

  // ----- scroll_all_text_once -----

  /** The scroll pass deletes exactly the ids it evicts. */
  lemma {:induction false} ScrollCanvasKeys(m: map<nat, Item>, items: seq<TextItem>)
    ensures ScrollCanvas(m, items).Keys == m.Keys - SeqSet(Evicted(items))
    decreases |items|
  {
    if items != [] {
      var init := items[..|items| - 1];
      var e := Last(items);
      var c := ScrollCanvas(m, init);
      ScrollCanvasKeys(m, init);
      var moved := if e.id in c && c[e.id].Text? then c[e.id := MovedText(c[e.id], e.y - LineHeight)] else c;
      assert moved.Keys == c.Keys;
      SeqSetConcat(Evicted(init), if Keeps(e) then [] else [e.id]);
      assert SeqSet([e.id]) == {e.id} by {
        assert [e.id][0] == e.id;
      }
    }
  }

  /** The scroll pass leaves an item that is not in the buffer alone. */
  lemma {:induction false} ScrollCanvasOther(m: map<nat, Item>, items: seq<TextItem>, id: nat)
    requires forall k | 0 <= k < |items| :: items[k].id != id
    ensures id in ScrollCanvas(m, items) <==> id in m
    ensures id in m ==> ScrollCanvas(m, items)[id] == m[id]
    decreases |items|
  {
    if items != [] {
      var init := items[..|items| - 1];
      assert forall k | 0 <= k < |init| :: init[k] == items[k];
      ScrollCanvasOther(m, init, id);
    }
  }

  /** The scroll pass moves each kept entry up one line and deletes each evicted one. */
  lemma {:induction false} ScrollCanvasEntry(m: map<nat, Item>, items: seq<TextItem>, j: nat)
    requires DistinctIds(items) && j < |items| && items[j].id in m
    ensures var c := ScrollCanvas(m, items);
      if Keeps(items[j]) then items[j].id in c && c[items[j].id] == MovedText(m[items[j].id], items[j].y - LineHeight)
      else items[j].id !in c
    decreases |items|
  {
    var n := |items|;
    var init := items[..n - 1];
    assert forall k | 0 <= k < n - 1 :: init[k] == items[k];
    if j == n - 1 {
      ScrollCanvasOther(m, init, items[j].id);
    } else {
      ScrollCanvasEntry(m, init, j);
    }
  }

  /** The scroll pass never turns an item into a name line. */
  lemma {:induction false} ScrollCanvasKinds(m: map<nat, Item>, items: seq<TextItem>)
    ensures forall id | id in ScrollCanvas(m, items) ::
      id in m && (IsNameText(ScrollCanvas(m, items)[id]) ==> IsNameText(m[id]))
    decreases |items|
  {
    if items != [] {
      ScrollCanvasKinds(m, items[..|items| - 1]);
    }
  }

  /** The scroll pass leaves every item that is not a scrolling line alone. */
  lemma ScrollUpOthers(s: State)
    requires IdSet(s.textItems) !! Others(s)
    ensures SameOn(s.items, ScrollUp(s).items, Others(s))
  {
    var items := s.textItems;
    forall id | id in Others(s) && id in s.items
      ensures id in ScrollUp(s).items && ScrollUp(s).items[id] == s.items[id]
    {
      forall k | 0 <= k < |items|
        ensures items[k].id != id
      {
        assert items[k].id in IdSet(items);
      }
      ScrollCanvasOther(s.items, items, id);
    }
  }

  /** Every surviving entry is drawn at its new row after the scroll pass. */
  lemma ScrollUpDrawn(s: State)
    requires Ascending(s.textItems) && DistinctIds(s.textItems)
    requires ScrollDrawn(s.items, s.textItems)
    ensures ScrollDrawn(ScrollUp(s).items, ScrollUp(s).textItems)
  {
    var items := s.textItems;
    var c := ScrollUp(s).items;
    var r := ScrollUp(s).textItems;
    var k := |Evicted(items)|;
    EvictsPrefix(items);
    forall i | 0 <= i < |r|
      ensures DrawnAt(c, r[i])
    {
      SurvivorAt(items, i);
      assert DrawnAt(s.items, items[k + i]);
      ScrollCanvasEntry(s.items, items, k + i);
    }
  }

  /** The scroll pass adds no name text and keeps the current one. */
  lemma ScrollUpTicker(s: State)
    requires TickerOk(s) && SameOn(s.items, ScrollUp(s).items, Others(s))
    ensures TickerOk(ScrollUp(s))
  {
    ScrollCanvasKinds(s.items, s.textItems);
  }

  /** After the scroll pass the canvas holds the surviving lines and everything else it held. */
  lemma ScrollUpOwned(s: State)
    requires Owned(s) && Numbered(s.items, s.nextId)
    requires Ascending(s.textItems) && DistinctIds(s.textItems) && IdSet(s.textItems) !! Others(s)
    ensures Owned(ScrollUp(s)) && Numbered(ScrollUp(s).items, s.nextId)
  {
    ScrollCanvasKeys(s.items, s.textItems);
    EvictedIds(s.textItems);
  }

  /** Halfway through a scroll step the layout holds one line short, and the bar is untouched. */
  lemma ScrollUpKeeps(s: State)
    requires Valid(s)
    ensures Layout(ScrollUp(s), LineHeight) && BarShown(ScrollUp(s))
    ensures SameOn(s.items, ScrollUp(s).items, Others(s))
  {
    var h := ScrollUp(s);
    var items := s.textItems;
    ConsecutiveAscending(items);
    Kinds(s);
    SurvivorsDistinct(items);
    ScrollKeepsStack(items, s.currentY);
    ScrollUpOthers(s);
    ScrollUpDrawn(s);
    ScrollUpTicker(s);
    ScrollUpOwned(s);
    SlashesFrame(s.items, h.items, s.bar, s.slashIds, Others(s));
  }

  /** A scroll step keeps the invariant. */
  lemma ScrollKeeps(s: State)
    requires Valid(s)
    ensures Valid(Scroll(s))
  {
    ScrollUpKeeps(s);
    AddLineKeeps(ScrollUp(s));
  }

  /**
   * A scroll step on a valid state keeps the surviving entries, each one
   * line up and in order, appends the new line at the old bottom row,
   * deletes exactly the evicted ids (at most one) and touches no item that
   * is not a scrolling line; the insertion point stays where it was.
   */
  lemma ScrollShifts(s: State)
    requires Numbered(s.items, s.nextId) && ErrorCursor.Fits(s.errorLines, s.lineIndex)
    requires Stacked(s.textItems, s.currentY)
    requires IdSet(s.textItems) <= s.items.Keys && IdSet(s.textItems) !! Others(s)
    ensures var r := Scroll(s);
      && r.textItems == Survivors(s.textItems) + [TextItem(s.nextId, s.currentY - LineHeight, TextColor)]
      && |Evicted(s.textItems)| <= 1
      && (forall k | 0 <= k < |Evicted(s.textItems)| :: Evicted(s.textItems)[k] !in r.items)
      && r.items.Keys == s.items.Keys - SeqSet(Evicted(s.textItems)) + {s.nextId}
      && SameOn(s.items, r.items, Others(s))
      && r.currentY == s.currentY
  {
    ScrollShiftsBuffer(s);
    ConsecutiveAscending(s.textItems);
    ScrollShiftsCanvas(s);
  }

  /** The buffer half of `ScrollShifts`. */
  lemma ScrollShiftsBuffer(s: State)
    requires Numbered(s.items, s.nextId) && ErrorCursor.Fits(s.errorLines, s.lineIndex)
    requires Stacked(s.textItems, s.currentY)
    ensures var r := Scroll(s);
      && r.textItems == Survivors(s.textItems) + [TextItem(s.nextId, s.currentY - LineHeight, TextColor)]
      && |Evicted(s.textItems)| <= 1
      && r.currentY == s.currentY
  {
    AtMostOneEvicted(s.textItems);
  }

  /** The canvas half of `ScrollShifts`. */
  lemma ScrollShiftsCanvas(s: State)
    requires Numbered(s.items, s.nextId) && ErrorCursor.Fits(s.errorLines, s.lineIndex)
    requires IdSet(s.textItems) <= s.items.Keys && IdSet(s.textItems) !! Others(s)
    requires Ascending(s.textItems)
    ensures var r := Scroll(s);
      && (forall k | 0 <= k < |Evicted(s.textItems)| :: Evicted(s.textItems)[k] !in r.items)
      && r.items.Keys == s.items.Keys - SeqSet(Evicted(s.textItems)) + {s.nextId}
      && SameOn(s.items, r.items, Others(s))
  {
    var items := s.textItems;
    var ev := Evicted(items);
    var h := ScrollUp(s);
    var r := AddLine(h);
    ReleasedWithin(items);
    ScrollCanvasKeys(s.items, items);
    assert h.items.Keys == s.items.Keys - SeqSet(ev);
    ScrollUpOthers(s);
    assert s.nextId !in s.items;
    assert r.items == h.items[s.nextId := r.items[s.nextId]];
    forall k | 0 <= k < |ev|
      ensures ev[k] !in r.items
    {
      assert ev[k] in SeqSet(ev);
    }
  }

  // ----- update_display -----

  /**
   * `update_display` keeps the invariant; the buffer grows by one line
   * while the screen fills and by one minus the evicted lines after, a
   * filled screen stays filled with its insertion point fixed, and the
   * buffer never holds more lines than fit above the insertion point.
   */
  lemma UpdateDisplayKeeps(s: State)
    requires Valid(s)
    ensures Valid(UpdateDisplay(s))
    ensures var r := UpdateDisplay(s);
      && |r.textItems| == |s.textItems| + 1 - (if s.screenFilled then |Evicted(s.textItems)| else 0)
      && (s.screenFilled ==> |Evicted(s.textItems)| <= 1 && r.screenFilled && r.currentY == s.currentY)
      && (!s.screenFilled ==> r.currentY == s.currentY + LineHeight)
      && LineHeight * |r.textItems| <= r.currentY + LineHeight
  {
    var r := UpdateDisplay(s);
    if !s.screenFilled {
      AddLineKeeps(s);
    } else {
      ScrollKeeps(s);
      ScrollShifts(s);
      KeptPlusEvicted(s.textItems);
    }
    Bounded(r.textItems, r.currentY);
  }

  // ----- update_progress_bar -----

  /** What drawing `n` slashes from `firstId` adds. */
  lemma {:induction false} AddSlashesAt(m: map<nat, Item>, firstId: nat, bar: Progress.Bar, n: nat)
    ensures forall id :: id in AddSlashes(m, firstId, bar, n) <==> id in m || firstId <= id < firstId + n
    ensures forall id | id in m && !(firstId <= id < firstId + n) :: AddSlashes(m, firstId, bar, n)[id] == m[id]
    ensures forall id | firstId <= id < firstId + n ::
      AddSlashes(m, firstId, bar, n)[id] == Progress.SlashLine(bar, Progress.SlashCentre(bar.left, id - firstId))
    decreases n
  {
    if n > 0 {
      AddSlashesAt(m, firstId, bar, n - 1);
    }
  }

  /** After redrawing the bar the canvas holds the old ids but the old slashes, and the new slash ids. */
  lemma RedrawBarKeys(s: State)
    requires s.fillId in s.items && s.items[s.fillId].Rect?
    ensures var r := RedrawBar(s);
      && (forall id :: id in r.items <==>
            (id in s.items && id !in SeqSet(s.slashIds)) || s.nextId <= id < s.nextId + |r.slashIds|)
      && (forall id | s.nextId <= id < s.nextId + |r.slashIds| :: id in r.items && r.items[id].Line?)
  {
    var base := s.items[s.fillId := Progress.FillRect(s.bar, s.percent)] - SeqSet(s.slashIds);
    AddSlashesAt(base, s.nextId, s.bar, |RedrawBar(s).slashIds|);
  }

  /** Redrawing the bar moves the fill and leaves every item that is not a slash alone. */
  lemma RedrawBarUnchanged(s: State)
    requires Numbered(s.items, s.nextId)
    requires s.fillId in s.items && s.items[s.fillId].Rect? && s.fillId !in SeqSet(s.slashIds)
    ensures var r := RedrawBar(s);
      && (forall id | id in s.items && id !in SeqSet(s.slashIds) && id != s.fillId ::
            id in r.items && r.items[id] == s.items[id])
      && s.fillId in r.items && r.items[s.fillId] == Progress.FillRect(s.bar, s.percent)
  {
    var base := s.items[s.fillId := Progress.FillRect(s.bar, s.percent)] - SeqSet(s.slashIds);
    AddSlashesAt(base, s.nextId, s.bar, |RedrawBar(s).slashIds|);
  }

  /** The new slash ids are the next free ids, each holding the slash for its position. */
  lemma RedrawBarSlashes(s: State)
    requires s.fillId in s.items && s.items[s.fillId].Rect?
    ensures var r := RedrawBar(s);
      && (forall id :: id in SeqSet(r.slashIds) <==> s.nextId <= id < s.nextId + |r.slashIds|)
      && SlashesDrawn(r.items, s.bar, r.slashIds)
  {
    var r := RedrawBar(s);
    var n := |r.slashIds|;
    var first := s.nextId;
    var base := s.items[s.fillId := Progress.FillRect(s.bar, s.percent)] - SeqSet(s.slashIds);
    AddSlashesAt(base, first, s.bar, n);
    forall id | first <= id < first + n
      ensures id in SeqSet(r.slashIds)
    {
      assert r.slashIds[id - first] == id;
    }
  }

  /** Redrawing the bar swaps the old slash ids for the new ones and keeps every other owned id. */
  lemma RedrawBarOwned(s: State)
    requires Owned(s) && s.fillId in s.items && s.items[s.fillId].Rect?
    requires SeqSet(s.slashIds) !! (IdSet(s.textItems) + {s.fillId} + Elements(s.nameTextId))
    ensures Owned(RedrawBar(s))
  {
    RedrawBarKeys(s);
    RedrawBarSlashes(s);
  }

  /**
   * Redrawing the bar deletes every old slash, gives the new slashes fresh
   * ids, and leaves scrolling lines and the name line alone.
   */
  lemma RedrawBarFrame(s: State)
    requires Numbered(s.items, s.nextId)
    requires s.fillId in s.items && s.items[s.fillId].Rect? && s.fillId !in SeqSet(s.slashIds)
    requires (IdSet(s.textItems) + Elements(s.nameTextId)) !! (SeqSet(s.slashIds) + {s.fillId})
    requires SeqSet(s.slashIds) <= s.items.Keys
    ensures var r := RedrawBar(s);
      && Numbered(r.items, r.nextId)
      && (forall id | id in SeqSet(s.slashIds) :: id !in r.items)
      && (forall j | 0 <= j < |r.slashIds| :: r.slashIds[j] !in s.items)
      && SameOn(s.items, r.items, IdSet(s.textItems) + Elements(s.nameTextId))
  {
    RedrawBarKeys(s);
    RedrawBarUnchanged(s);
  }

  /** Redrawing the bar draws the fill and the slashes for the current percentage. */
  lemma RedrawBarShown(s: State)
    requires ProgressOk(s) && s.fillId !in SeqSet(s.slashIds)
    requires Numbered(s.items, s.nextId)
    ensures ProgressOk(RedrawBar(s)) && BarShown(RedrawBar(s))
  {
    var r := RedrawBar(s);
    RedrawBarUnchanged(s);
    RedrawBarSlashes(s);
    forall j | 0 <= j < |r.slashIds|
      ensures r.slashIds[j] in SeqSet(r.slashIds)
    {
    }
  }

  /** Redrawing the bar adds no name text, so the only name text is still the current one. */
  lemma RedrawBarTicker(s: State)
    requires TickerOk(s) && Numbered(s.items, s.nextId)
    requires s.fillId in s.items && s.items[s.fillId].Rect? && s.fillId !in SeqSet(s.slashIds)
    requires Elements(s.nameTextId) !! (SeqSet(s.slashIds) + {s.fillId})
    ensures TickerOk(RedrawBar(s))
  {
    RedrawBarKeys(s);
    RedrawBarUnchanged(s);
  }

  /**
   * Redrawing the bar restores the whole invariant: the fill matches the
   * percentage, every old slash is deleted, the new slashes have fresh
   * ids, and no scrolling line or name line is touched.
   */
  lemma RedrawBarKeeps(s: State)
    requires Layout(s, 0)
    ensures Valid(RedrawBar(s))
    ensures var r := RedrawBar(s);
      && (forall id | id in SeqSet(s.slashIds) :: id !in r.items)
      && (forall j | 0 <= j < |r.slashIds| :: r.slashIds[j] !in s.items)
      && SameOn(s.items, r.items, IdSet(s.textItems) + Elements(s.nameTextId))
  {
    var r := RedrawBar(s);
    Kinds(s);
    RedrawBarFrame(s);
    ScrollDrawnFrame(s.items, r.items, s.textItems, IdSet(s.textItems) + Elements(s.nameTextId));
    RedrawBarShown(s);
    RedrawBarTicker(s);
    RedrawBarOwned(s);
  }

  // ----- update_progress_time_based -----

  /** A progress tick keeps the invariant and moves the progress fields as `Progress.Tick` says. */
  lemma TickKeeps(s: State, now: int)
    requires Valid(s)
    ensures Valid(TickProgress(s, now))
    ensures ProgressOf(TickProgress(s, now)) == Progress.Tick(ProgressOf(s), now)
  {
    var p := Progress.Tick(ProgressOf(s), now);
    var t := s.(percent := p.percent, startTime := p.startTime, lastUpdate := p.lastUpdate);
    assert Layout(t, 0);
    RedrawBarKeeps(t);
  }

  // ----- the name ticker -----

  /** Scheduling a triplet keeps the invariant: the cursor still fits the names. */
  lemma ScheduleKeeps(s: State, r0: int, r1: int, r2: int)
    requires Valid(s)
    ensures Valid(ScheduleTriplet(s, r0, r1, r2))
  {
    if |s.nameLines| > 0 {
      NameTicker.CursorIsMod(s.nameIndex, |s.nameLines|, 3);
    }
  }

  /**
   * `_schedule_next_triplet` schedules nothing without names; otherwise
   * exactly three shows, of the names at the cursor and the two after it,
   * at the three offsets in sorted order, then one reschedule a second
   * later, and the cursor ends three names on.
   */
  lemma TripletScheduled(s: State, r0: int, r1: int, r2: int)
    requires |s.nameLines| > 0 ==> s.nameIndex < |s.nameLines|
    requires 0 <= r0 <= NameTicker.MaxOffsetMs && 0 <= r1 <= NameTicker.MaxOffsetMs && 0 <= r2 <= NameTicker.MaxOffsetMs
    ensures var es := TripletEvents(s, r0, r1, r2);
      && (|s.nameLines| == 0 ==> es == [] && ScheduleTriplet(s, r0, r1, r2) == s)
      && (|s.nameLines| > 0 ==>
            var n := |s.nameLines|;
            && |es| == 4
            && es[0].Show? && es[1].Show? && es[2].Show?
            && es[0].index == s.nameIndex && es[1].index == (s.nameIndex + 1) % n && es[2].index == (s.nameIndex + 2) % n
            && 0 <= es[0].delay <= es[1].delay <= es[2].delay <= NameTicker.MaxOffsetMs
            && multiset{es[0].delay, es[1].delay, es[2].delay} == multiset{r0, r1, r2}
            && es[3] == NameTicker.Reschedule(NameTicker.PeriodMs)
            && ScheduleTriplet(s, r0, r1, r2).nameIndex == (s.nameIndex + 3) % n
            && ScheduleTriplet(s, r0, r1, r2).scheduled == s.scheduled + es)
  {
    if |s.nameLines| > 0 {
      NameTicker.TripletShowsConsecutive(s.nameIndex, |s.nameLines|, r0, r1, r2);
      NameTicker.CursorIsMod(s.nameIndex, |s.nameLines|, 3);
    }
  }

  /** Showing a name swaps the old name id for the new one and keeps every other owned id. */
  lemma ShowNameOwned(s: State, idx: nat)
    requires Owned(s) && s.nextId !in s.items
    requires Elements(s.nameTextId) !! (IdSet(s.textItems) + SeqSet(s.slashIds) + {s.fillId})
    ensures Owned(ShowName(s, idx))
  {
    var cleared := s.items - Elements(s.nameTextId);
    assert cleared.Keys == s.items.Keys - Elements(s.nameTextId);
  }

  /** After showing a name, the only name text on the canvas is the new one. */
  lemma ShowNameTicker(s: State, idx: nat)
    requires TickerOk(s) && s.nextId !in s.items
    ensures TickerOk(ShowName(s, idx))
  {
    var cleared := s.items - Elements(s.nameTextId);
    assert forall id | id in cleared :: id in s.items && cleared[id] == s.items[id] && s.nameTextId != Some(id);
  }

  /** Showing a name leaves every scrolling line, slash and the fill alone. */
  lemma ShowNameFrame(s: State, idx: nat)
    requires Elements(s.nameTextId) !! (IdSet(s.textItems) + SeqSet(s.slashIds) + {s.fillId})
    requires Numbered(s.items, s.nextId)
    ensures s.nextId !in s.items
    ensures SameOn(s.items, ShowName(s, idx).items, IdSet(s.textItems) + SeqSet(s.slashIds) + {s.fillId})
  {
  }

  /**
   * Showing a name keeps the invariant: the old name text is deleted, the
   * new one (if any) is the only name text on the canvas, and nothing
   * else is touched.
   */
  lemma ShowNameKeeps(s: State, idx: nat)
    requires Valid(s)
    ensures Valid(ShowName(s, idx))
    ensures var r := ShowName(s, idx);
      && (forall id | id in Elements(s.nameTextId) :: id !in r.items)
      && (|s.nameLines| == 0 ==> r.nameTextId == None)
      && (|s.nameLines| > 0 ==>
            && r.nameTextId == Some(s.nextId) && s.nextId !in s.items
            && r.items[s.nextId].text == s.nameLines[idx % |s.nameLines|])
      && SameOn(s.items, r.items, IdSet(s.textItems) + SeqSet(s.slashIds) + {s.fillId})
  {
    var r := ShowName(s, idx);
    var kept := IdSet(s.textItems) + SeqSet(s.slashIds) + {s.fillId};
    Kinds(s);
    ShowNameFrame(s, idx);
    ScrollDrawnFrame(s.items, r.items, s.textItems, kept);
    SlashesFrame(s.items, r.items, s.bar, s.slashIds, kept);
    ShowNameTicker(s, idx);
    ShowNameOwned(s, idx);
  }
}
