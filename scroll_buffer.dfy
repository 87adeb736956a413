/**
 * The scroll buffer of the error log, as values: the ordered entries
 * `(id, y, color)` of `text_items`, and what one scroll step
 * (`scroll_all_text_once`) does to them. Every line is one fixed
 * `LineHeight` tall.
 */
module ScrollBuffer {
  import Canvas
  /** `self.line_height`, the fixed step of every line. */
  const LineHeight: int := 20
  /** The colour every scrolling line is drawn in. */
  const TextColor: string := "#fe1926"
  /** The left edge every scrolling line is anchored at. */
  const TextX: real := 10.0

  /** One entry of `text_items`: a canvas id, its top edge and its colour. */
  datatype TextItem = TextItem(id: nat, y: int, color: string)

  /** An entry moved up by one line. */
  function Lowered(e: TextItem): TextItem
  {
    e.(y := e.y - LineHeight)
  }

  /** Whether an entry stays after a scroll step: its new top is not above `-LineHeight`. */
  predicate Keeps(e: TextItem)
  {
    e.y - LineHeight >= -LineHeight
  }

  function Last(items: seq<TextItem>): TextItem
    requires items != []
  {
    items[|items| - 1]
  }

  /** The entries a scroll step keeps, each moved up by one line, in their old order. */
  function Survivors(items: seq<TextItem>): (r: seq<TextItem>)
    ensures |r| <= |items|
    ensures forall k | 0 <= k < |r| :: r[k].y >= -LineHeight
    decreases |items|
  {
    if items == [] then []
    else
      Survivors(items[..|items| - 1]) + if Keeps(Last(items)) then [Lowered(Last(items))] else []
  }

  /** The canvas ids of the entries a scroll step drops, in their old order. */
  function Evicted(items: seq<TextItem>): (r: seq<nat>)
    decreases |items|
  {
    if items == [] then []
    else
      Evicted(items[..|items| - 1]) + if Keeps(Last(items)) then [] else [Last(items).id]
  }

  function IdSeq(items: seq<TextItem>): seq<nat>
  {
    seq(|items|, k requires 0 <= k < |items| => items[k].id)
  }

  /** The canvas ids of the entries, as a set. */
  function IdSet(items: seq<TextItem>): set<nat>
  {
    set k | 0 <= k < |items| :: items[k].id
  }

  function LoweredAll(items: seq<TextItem>): seq<TextItem>
  {
    seq(|items|, k requires 0 <= k < |items| => Lowered(items[k]))
  }

  /** Consecutive entries are exactly one line apart. */
  predicate Consecutive(items: seq<TextItem>)
  {
    forall k | 0 <= k < |items| - 1 :: items[k + 1].y == items[k].y + LineHeight
  }

  predicate Ascending(items: seq<TextItem>)
  {
    forall a, b | 0 <= a < b < |items| :: items[a].y < items[b].y
  }

  predicate DistinctIds(items: seq<TextItem>)
  {
    forall a, b | 0 <= a < b < |items| :: items[a].id != items[b].id
  }

  /**
   * The layout both buffer operations keep: the entries are one line
   * apart, the last sits one line above the insertion point `cursorY`,
   * and none is above `-LineHeight`.
   */
  predicate Stacked(items: seq<TextItem>, cursorY: int)
  {
    && Consecutive(items)
    && (items != [] ==> Last(items).y == cursorY - LineHeight)
    && forall k | 0 <= k < |items| :: items[k].y >= -LineHeight
  }

  /** Every entry is kept or evicted, never both, never neither. */
  lemma {:induction false} KeptPlusEvicted(items: seq<TextItem>)
    ensures |Survivors(items)| + |Evicted(items)| == |items|
    decreases |items|
  {
    if items != [] {
      KeptPlusEvicted(items[..|items| - 1]);
    }
  }

  lemma {:induction false} ConsecutiveAscending(items: seq<TextItem>)
    requires Consecutive(items)
    ensures Ascending(items)
    decreases |items|
  {
    if |items| > 1 {
      var init := items[..|items| - 1];
      assert Consecutive(init);
      ConsecutiveAscending(init);
      forall a, b | 0 <= a < b < |items|
        ensures items[a].y < items[b].y
      {
        if b == |items| - 1 && a < b - 1 {
          assert init[a].y < init[b - 1].y;
        }
      }
    }
  }

  /** When no entry is kept, a scroll step drops them all. */
  lemma {:induction false} NoneKept(items: seq<TextItem>)
    requires forall k | 0 <= k < |items| :: !Keeps(items[k])
    ensures Survivors(items) == [] && Evicted(items) == IdSeq(items)
    decreases |items|
  {
    if items != [] {
      var init := items[..|items| - 1];
      NoneKept(init);
      assert IdSeq(items) == IdSeq(init) + [Last(items).id];
    }
  }

  /** On entries in ascending order, the kept ones are exactly those from some index `k` on. */
  lemma {:induction false} KeptFrom(items: seq<TextItem>) returns (k: nat)
    requires Ascending(items)
    ensures k <= |items|
    ensures forall a | 0 <= a < |items| :: Keeps(items[a]) <==> k <= a
    decreases |items|
  {
    if items == [] {
      k := 0;
    } else {
      var n := |items|;
      var init := items[..n - 1];
      k := KeptFrom(init);
      assert forall a | 0 <= a < n - 1 :: init[a] == items[a];
      if !Keeps(items[n - 1]) {
        k := n;
        forall a | 0 <= a < n - 1
          ensures !Keeps(items[a])
        {
          assert items[a].y < items[n - 1].y;
        }
      }
    }
  }

  /** Where the kept entries start at `k`, a step keeps the entries from `k` on, each one line higher. */
  lemma {:induction false} SplitSurvivors(items: seq<TextItem>, k: nat)
    requires k <= |items|
    requires forall a | 0 <= a < |items| :: Keeps(items[a]) <==> k <= a
    ensures Survivors(items) == LoweredAll(items[k..])
    decreases |items|
  {
    if items != [] {
      var n := |items|;
      var init := items[..n - 1];
      if k == n {
        NoneKept(items);
      } else {
        assert forall a | 0 <= a < n - 1 :: init[a] == items[a];
        SplitSurvivors(init, k);
        assert items[k..] == init[k..] + [items[n - 1]];
        assert LoweredAll(items[k..]) == LoweredAll(init[k..]) + [Lowered(items[n - 1])];
      }
    }
  }

  /** Where the kept entries start at `k`, a step releases the ids of the first `k` entries. */
  lemma {:induction false} SplitEvicted(items: seq<TextItem>, k: nat)
    requires k <= |items|
    requires forall a | 0 <= a < |items| :: Keeps(items[a]) <==> k <= a
    ensures Evicted(items) == IdSeq(items[..k])
    decreases |items|
  {
    if items != [] {
      var n := |items|;
      var init := items[..n - 1];
      if k == n {
        NoneKept(items);
        assert items[..k] == items;
      } else {
        assert forall a | 0 <= a < n - 1 :: init[a] == items[a];
        SplitEvicted(init, k);
        assert items[..k] == init[..k];
      }
    }
  }

  /**
   * On entries in ascending order a scroll step drops a prefix: the `k`
   * entries above the top edge, whose ids it releases, and keeps all the
   * rest, each one line higher, in order.
   */
  lemma EvictsPrefix(items: seq<TextItem>)
    requires Ascending(items)
    ensures |Evicted(items)| <= |items|
    ensures var k := |Evicted(items)|;
      && Survivors(items) == LoweredAll(items[k..])
      && Evicted(items) == IdSeq(items[..k])
      && (forall a | 0 <= a < k :: !Keeps(items[a]))
      && (forall a | k <= a < |items| :: Keeps(items[a]))
  {
    var k := KeptFrom(items);
    SplitSurvivors(items, k);
    SplitEvicted(items, k);
    assert |IdSeq(items[..k])| == k;
  }

  /** With entries one line apart and none above `-LineHeight`, at most one is evicted per step. */
  lemma AtMostOneEvicted(items: seq<TextItem>)
    requires Consecutive(items)
    requires forall k | 0 <= k < |items| :: items[k].y >= -LineHeight
    ensures |Evicted(items)| <= 1
  {
    ConsecutiveAscending(items);
    EvictsPrefix(items);
  }

  /** A scroll step keeps the layout, with the insertion point one line higher. */
  lemma ScrollKeepsStack(items: seq<TextItem>, cursorY: int)
    requires Stacked(items, cursorY)
    ensures Stacked(Survivors(items), cursorY - LineHeight)
  {
    ConsecutiveAscending(items);
    EvictsPrefix(items);
    var k := |Evicted(items)|;
    var r := Survivors(items);
    assert |r| == |items| - k;
    if r != [] {
      assert Last(r) == Lowered(Last(items));
    }
  }

  /** The entries a scroll step keeps are the suffix after the evicted ones, one line higher. */
  lemma SurvivorAt(items: seq<TextItem>, m: nat)
    requires Ascending(items)
    requires m < |Survivors(items)|
    ensures |Evicted(items)| + m < |items|
    ensures Survivors(items)[m] == Lowered(items[|Evicted(items)| + m])
  {
    EvictsPrefix(items);
  }

  /** With distinct ids, an entry's id is among the lowered entries from `k` on exactly when it is one of them. */
  lemma IdInSuffix(items: seq<TextItem>, k: nat, j: nat)
    requires k <= |items| && j < |items| && DistinctIds(items)
    ensures items[j].id in IdSeq(LoweredAll(items[k..])) <==> k <= j
  {
    var ids := IdSeq(LoweredAll(items[k..]));
    assert |ids| == |items| - k;
    if k <= j {
      assert ids[j - k] == items[j].id;
    } else {
      forall m | 0 <= m < |ids|
        ensures ids[m] != items[j].id
      {
        assert ids[m] == items[k + m].id;
      }
    }
  }

  /** With distinct ids, an entry's id is among the ids of the first `k` entries exactly when it is one of them. */
  lemma IdInPrefix(items: seq<TextItem>, k: nat, j: nat)
    requires k <= |items| && j < |items| && DistinctIds(items)
    ensures items[j].id in IdSeq(items[..k]) <==> j < k
    ensures items[j].id in Canvas.SeqSet(IdSeq(items[..k])) <==> j < k
  {
    var ids := IdSeq(items[..k]);
    assert |ids| == k;
    if j < k {
      assert ids[j] == items[j].id;
    } else {
      forall a | 0 <= a < k
        ensures ids[a] != items[j].id
      {
        assert ids[a] == items[a].id;
      }
    }
  }

  /** With distinct ids, the ids of the lowered entries from `k` on are all ids but those of the first `k`. */
  lemma SuffixIdSet(items: seq<TextItem>, k: nat)
    requires k <= |items| && DistinctIds(items)
    ensures IdSet(LoweredAll(items[k..])) == IdSet(items) - Canvas.SeqSet(IdSeq(items[..k]))
  {
    var r := LoweredAll(items[k..]);
    var pre := Canvas.SeqSet(IdSeq(items[..k]));
    forall x | x in IdSet(r)
      ensures x in IdSet(items) && x !in pre
    {
      var m :| 0 <= m < |r| && r[m].id == x;
      assert r[m].id == items[k + m].id;
      IdInPrefix(items, k, k + m);
    }
    forall x | x in IdSet(items) && x !in pre
      ensures x in IdSet(r)
    {
      var j :| 0 <= j < |items| && items[j].id == x;
      IdInPrefix(items, k, j);
      assert r[j - k].id == x;
    }
  }

  /** The kept entries keep distinct ids. */
  lemma SurvivorsDistinct(items: seq<TextItem>)
    requires Ascending(items) && DistinctIds(items)
    ensures DistinctIds(Survivors(items))
  {
    var k := KeptFrom(items);
    SplitSurvivors(items, k);
    var r := LoweredAll(items[k..]);
    assert forall m | 0 <= m < |r| :: r[m].id == items[k + m].id;
  }

  /** An entry's id is among the kept ids exactly when the entry is kept. */
  lemma KeptIds(items: seq<TextItem>)
    requires Ascending(items) && DistinctIds(items)
    ensures forall j | 0 <= j < |items| :: items[j].id in IdSeq(Survivors(items)) <==> Keeps(items[j])
  {
    var k := KeptFrom(items);
    SplitSurvivors(items, k);
    forall j | 0 <= j < |items|
      ensures items[j].id in IdSeq(LoweredAll(items[k..])) <==> Keeps(items[j])
    {
      IdInSuffix(items, k, j);
    }
  }

  /** An entry's id is among the released ids exactly when the entry is evicted. */
  lemma ReleasedIds(items: seq<TextItem>)
    requires Ascending(items) && DistinctIds(items)
    ensures forall j | 0 <= j < |items| :: items[j].id in Evicted(items) <==> !Keeps(items[j])
  {
    var k := KeptFrom(items);
    SplitEvicted(items, k);
    forall j | 0 <= j < |items|
      ensures items[j].id in IdSeq(items[..k]) <==> !Keeps(items[j])
    {
      IdInPrefix(items, k, j);
    }
  }

  /** A scroll step releases exactly the ids it evicts and keeps every other id. */
  lemma SurvivorIds(items: seq<TextItem>)
    requires Ascending(items) && DistinctIds(items)
    ensures DistinctIds(Survivors(items))
    ensures forall j | 0 <= j < |items| ::
      (items[j].id in IdSeq(Survivors(items)) <==> Keeps(items[j])) &&
      (items[j].id in Evicted(items) <==> !Keeps(items[j]))
  {
    SurvivorsDistinct(items);
    KeptIds(items);
    ReleasedIds(items);
  }

  /** The ids a scroll step releases are ids of the buffer. */
  lemma ReleasedWithin(items: seq<TextItem>)
    requires Ascending(items)
    ensures Canvas.SeqSet(Evicted(items)) <= IdSet(items)
  {
    var k := KeptFrom(items);
    SplitEvicted(items, k);
    var gone := IdSeq(items[..k]);
    forall a | 0 <= a < k
      ensures gone[a] in IdSet(items)
    {
      assert gone[a] == items[a].id;
    }
  }

  /** The ids a scroll step keeps are the buffer's ids minus the released ones. */
  lemma KeptSet(items: seq<TextItem>)
    requires Ascending(items) && DistinctIds(items)
    ensures IdSet(Survivors(items)) == IdSet(items) - Canvas.SeqSet(Evicted(items))
  {
    var k := KeptFrom(items);
    SplitSurvivors(items, k);
    SplitEvicted(items, k);
    SuffixIdSet(items, k);
  }

  /**
   * The ids a scroll step releases are ids of the buffer, and the ids it
   * keeps are exactly the others.
   */
  lemma EvictedIds(items: seq<TextItem>)
    requires Ascending(items) && DistinctIds(items)
    ensures Canvas.SeqSet(Evicted(items)) <= IdSet(items)
    ensures IdSet(Survivors(items)) == IdSet(items) - Canvas.SeqSet(Evicted(items))
  {
    ReleasedWithin(items);
    KeptSet(items);
  }

  /** The first of `n` stacked entries sits `n` lines above the insertion point. */
  lemma {:induction false} FirstEntry(items: seq<TextItem>, cursorY: int)
    requires items != [] && Consecutive(items)
    requires Last(items).y == cursorY - LineHeight
    ensures items[0].y == cursorY - LineHeight * |items|
    decreases |items|
  {
    if |items| > 1 {
      var init := items[..|items| - 1];
      FirstEntry(init, cursorY - LineHeight);
    }
  }

  /** The buffer never holds more lines than fit between `-LineHeight` and the insertion point. */
  lemma Bounded(items: seq<TextItem>, cursorY: int)
    requires Stacked(items, cursorY) && cursorY >= 0
    ensures LineHeight * |items| <= cursorY + LineHeight
  {
    if items != [] {
      FirstEntry(items, cursorY);
      assert items[0].y >= -LineHeight;
    }
  }
}
