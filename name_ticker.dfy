/**
 * The name ticker as values: the show events one call of
 * `_schedule_next_triplet` hands to the scheduler, each carrying the
 * name index it resolved when it was scheduled.
 */
module NameTicker {
  import Arith

  /** The delay after which `_schedule_next_triplet` schedules itself again. */
  const PeriodMs: int := 1000
  /** Random offsets are drawn from `[0, MaxOffsetMs]`. */
  const MaxOffsetMs: int := 999
  /** How far below the bar's bottom edge the name line is drawn. */
  const NameOffsetY: real := 50.0

  /** A scheduled callback: show the name at `index` after `delay` ms, or run the next triplet. */
  datatype Event = Show(delay: int, index: nat) | Reschedule(delay: int)

  /** `sorted` of three offsets. */
  function Sort3(a: int, b: int, c: int): (r: seq<int>)
    ensures |r| == 3 && r[0] <= r[1] <= r[2]
    ensures multiset{r[0], r[1], r[2]} == multiset{a, b, c}
  {
    if a <= b then
      if b <= c then [a, b, c]
      else if a <= c then [a, c, b]
      else [c, a, b]
    else
      if a <= c then [b, a, c]
      else if b <= c then [b, c, a]
      else [c, b, a]
  }

  /** The cursor one step on, modulo the number of names. */
  function Advance(i: nat, n: nat): (j: nat)
    requires n > 0
    ensures j < n
  {
    (i + 1) % n
  }

  /** The cursor after `k` steps from `i`. */
  function Cursor(i: nat, n: nat, k: nat): (j: nat)
    requires n > 0
    decreases k
  {
    if k == 0 then i else Advance(Cursor(i, n, k - 1), n)
  }

  /** The events of one triplet from cursor `i`: three shows at the sorted offsets, then the reschedule. */
  function Triplet(i: nat, n: nat, offsets: seq<int>): (es: seq<Event>)
    requires n > 0 && |offsets| == 3
  {
    [Show(offsets[0], Cursor(i, n, 0)), Show(offsets[1], Cursor(i, n, 1)), Show(offsets[2], Cursor(i, n, 2)),
     Reschedule(PeriodMs)]
  }

  /** The cursor a triplet from `i` leaves behind. */
  function AfterTriplet(i: nat, n: nat): (j: nat)
    requires n > 0
  {
    Cursor(i, n, 3)
  }

  /** The name indices shown, in order, by `k` consecutive triplets from cursor `i`. */
  function ShownIndices(i: nat, n: nat, k: nat): (idx: seq<nat>)
    requires n > 0
    ensures |idx| == 3 * k
    decreases k
  {
    if k == 0 then []
    else [Cursor(i, n, 0), Cursor(i, n, 1), Cursor(i, n, 2)] + ShownIndices(AfterTriplet(i, n), n, k - 1)
  }

  /** Stepping the cursor `k` times from an index `i` lands on `(i + k) mod n`. */
  lemma {:induction false} CursorIsMod(i: nat, n: nat, k: nat)
    requires n > 0 && i < n
    ensures Cursor(i, n, k) == (i + k) % n
    decreases k
  {
    if k == 0 {
      Arith.ModUnique(i, n, 0, i);
    } else {
      CursorIsMod(i, n, k - 1);
      Arith.ModAddLeft(i + k - 1, 1, n);
    }
  }

  /**
   * A triplet from cursor `i` shows names `i`, `i + 1` and `i + 2` modulo
   * `n`, at non-decreasing delays within the window, then reschedules
   * itself one period later.
   */
  lemma TripletShowsConsecutive(i: nat, n: nat, a: int, b: int, c: int)
    requires n > 0 && i < n
    requires 0 <= a <= MaxOffsetMs && 0 <= b <= MaxOffsetMs && 0 <= c <= MaxOffsetMs
    ensures var es := Triplet(i, n, Sort3(a, b, c));
      && es[0].Show? && es[1].Show? && es[2].Show?
      && es[0].index == i && es[1].index == (i + 1) % n && es[2].index == (i + 2) % n
      && 0 <= es[0].delay <= es[1].delay <= es[2].delay <= MaxOffsetMs
      && es[3] == Reschedule(PeriodMs)
  {
    CursorIsMod(i, n, 0);
    CursorIsMod(i, n, 1);
    CursorIsMod(i, n, 2);
    var r := Sort3(a, b, c);
    assert r[0] in multiset{a, b, c} && r[2] in multiset{a, b, c};
  }

  /**
   * Across consecutive windows no name is skipped or repeated: the `j`-th
   * show of `k` back-to-back triplets from cursor `i` shows name
   * `(i + j) mod n`.
   */
  lemma {:induction false} ShownInTurn(i: nat, n: nat, k: nat, j: nat)
    requires n > 0 && i < n && j < 3 * k
    ensures ShownIndices(i, n, k)[j] == (i + j) % n
    decreases k
  {
    if j < 3 {
      CursorIsMod(i, n, j);
    } else {
      CursorIsMod(i, n, 3);
      ShownInTurn(AfterTriplet(i, n), n, k - 1, j - 3);
      Arith.ModAddLeft(i + 3, j - 3, n);
    }
  }
}
