/**
 * The render surface: a Tk canvas reduced to the items it holds. Every
 * item has an integer id handed out in increasing order, starting at 1,
 * as Tk does; deleting or moving an id the canvas does not hold is a
 * no-op.
 */
module Canvas {
  /** Where a text item is anchored: its top-left corner, or the middle of its top edge. */
  datatype Anchor = NorthWest | North

  datatype Item =
    | Text(x: real, y: real, text: string, anchor: Anchor)
    | Line(x1: real, y1: real, x2: real, y2: real, width: int)
    | Rect(left: real, top: real, right: real, bottom: real)

  /** Every id in use was handed out before `nextId`, and ids start at 1. */
  predicate Numbered(items: map<nat, Item>, nextId: nat)
  {
    1 <= nextId && forall id | id in items :: 1 <= id < nextId
  }

  /** A sequence of canvas ids as a set. */
  function SeqSet(ids: seq<nat>): set<nat>
  {
    set k | 0 <= k < |ids| :: ids[k]
  }

  class Surface {
    var items: map<nat, Item>
    var nextId: nat

    ghost predicate Valid()
      reads this
    {
      Numbered(items, nextId)
    }

    constructor ()
      ensures Valid() && items == map[] && nextId == 1
    {
      items := map[];
      nextId := 1;
    }

    method Create(item: Item) returns (id: nat)
      requires Valid()
      modifies this
      ensures Valid()
      ensures id == old(nextId) && id !in old(items) && 1 <= id
      ensures items == old(items)[id := item] && nextId == old(nextId) + 1
    {
      id := nextId;
      items := items[id := item];
      nextId := nextId + 1;
    }

    /** Moves a text item to `(x, y)` (the two-value form of Tk's `coords`). */
    method MoveText(id: nat, x: real, y: real)
      requires Valid()
      modifies this`items
      ensures Valid()
      ensures items == if id in old(items) && old(items)[id].Text?
                       then old(items)[id := old(items)[id].(x := x, y := y)]
                       else old(items)
    {
      if id in items && items[id].Text? {
        items := items[id := items[id].(x := x, y := y)];
      }
    }

    /** Gives a rectangle new corners (the four-value form of Tk's `coords`). */
    method MoveRect(id: nat, left: real, top: real, right: real, bottom: real)
      requires Valid()
      modifies this`items
      ensures Valid()
      ensures items == if id in old(items) && old(items)[id].Rect?
                       then old(items)[id := Rect(left, top, right, bottom)]
                       else old(items)
    {
      if id in items && items[id].Rect? {
        items := items[id := Rect(left, top, right, bottom)];
      }
    }

    method Delete(id: nat)
      requires Valid()
      modifies this`items
      ensures Valid()
      ensures items == old(items) - {id}
    {
      items := items - {id};
    }
  }
}
