/**
 * The cyclic cursor over the error lines that feed the scrolling log
 * (`get_next_line`): each call hands out the line under the cursor and
 * moves the cursor on, wrapping after the last line.
 */
module ErrorCursor {
  import Arith

  /** What `get_next_line` returns when there are no error lines at all. */
  const Placeholder: string := "NO ERROR LINES AVAILABLE"

  /** A cursor the source can hold: an index into the lines, or anything when there are none. */
  predicate Fits(lines: seq<string>, i: nat)
  {
    |lines| == 0 || i < |lines|
  }

  /** One call of `get_next_line`: the line it returns and the cursor it leaves. */
  function NextLine(lines: seq<string>, i: nat): (r: (string, nat))
    requires Fits(lines, i)
    ensures Fits(lines, r.1)
    ensures |lines| == 0 ==> r == (Placeholder, i)
    ensures |lines| > 0 ==> r.0 == lines[i] && r.1 == (i + 1) % |lines|
  {
    if |lines| == 0 then (Placeholder, i)
    else (lines[i], (i + 1) % |lines|)
  }

  /** The lines `k` consecutive calls return, starting from cursor `i`. */
  function Emitted(lines: seq<string>, i: nat, k: nat): (out: seq<string>)
    requires Fits(lines, i)
    ensures |out| == k
    decreases k
  {
    if k == 0 then []
    else [NextLine(lines, i).0] + Emitted(lines, NextLine(lines, i).1, k - 1)
  }

  /** The cursor after `k` consecutive calls from cursor `i`. */
  function CursorAfter(lines: seq<string>, i: nat, k: nat): (c: nat)
    requires Fits(lines, i)
    ensures Fits(lines, c)
    decreases k
  {
    if k == 0 then i else CursorAfter(lines, NextLine(lines, i).1, k - 1)
  }

  /** With no error lines every call returns the placeholder and the cursor stays put. */
  lemma {:induction false} EmptyAlwaysPlaceholder(lines: seq<string>, i: nat, k: nat)
    requires |lines| == 0
    ensures Emitted(lines, i, k) == seq(k, _ => Placeholder)
    ensures CursorAfter(lines, i, k) == i
    decreases k
  {
    if k > 0 {
      EmptyAlwaysPlaceholder(lines, i, k - 1);
    }
  }

  /** The `j`-th of `k` calls from cursor `i` returns the line `j` places further on, cyclically. */
  lemma {:induction false} EmittedAt(lines: seq<string>, i: nat, k: nat, j: nat)
    requires |lines| > 0 && i < |lines| && j < k
    ensures Emitted(lines, i, k)[j] == lines[(i + j) % |lines|]
    decreases k
  {
    var n := |lines|;
    if j == 0 {
      Arith.ModUnique(i, n, 0, i);
    } else {
      var i' := NextLine(lines, i).1;
      assert Emitted(lines, i, k)[j] == Emitted(lines, i', k - 1)[j - 1];
      EmittedAt(lines, i', k - 1, j - 1);
      Arith.ModAddLeft(i + 1, j - 1, n);
    }
  }

  /** After `k` calls from cursor `i` the cursor stands at `(i + k) mod n`. */
  lemma {:induction false} CursorAfterIs(lines: seq<string>, i: nat, k: nat)
    requires |lines| > 0 && i < |lines|
    ensures CursorAfter(lines, i, k) == (i + k) % |lines|
    decreases k
  {
    var n := |lines|;
    if k == 0 {
      Arith.ModUnique(i, n, 0, i);
    } else {
      var i' := NextLine(lines, i).1;
      CursorAfterIs(lines, i', k - 1);
      Arith.ModAddLeft(i + 1, k - 1, n);
    }
  }

  /**
   * One full round of `n` calls returns every line exactly once, in file
   * order, starting from the cursor, and brings the cursor back.
   */
  lemma FullCycle(lines: seq<string>, i: nat)
    requires |lines| > 0 && i < |lines|
    ensures Emitted(lines, i, |lines|) == lines[i..] + lines[..i]
    ensures CursorAfter(lines, i, |lines|) == i
  {
    var n := |lines|;
    var out := Emitted(lines, i, n);
    var rot := lines[i..] + lines[..i];
    assert |rot| == n == |out|;
    forall j | 0 <= j < n
      ensures out[j] == rot[j]
    {
      EmittedAt(lines, i, n, j);
      RotatedAt(lines, i, j);
    }
    CursorAfterIs(lines, i, n);
    Arith.ModUnique(i + n, n, 1, i);
  }

  /** The `j`-th line of the lines rotated to start at `i` is line `(i + j) mod n`. */
  lemma RotatedAt(lines: seq<string>, i: nat, j: nat)
    requires i < |lines| && j < |lines|
    ensures (lines[i..] + lines[..i])[j] == lines[(i + j) % |lines|]
  {
    var n := |lines|;
    if i + j < n {
      Arith.ModUnique(i + j, n, 0, i + j);
    } else {
      Arith.ModUnique(i + j, n, 1, i + j - n);
      assert (lines[i..] + lines[..i])[j] == lines[..i][j - (n - i)];
    }
  }
}
