/** The linked queue of util.c:49-87 against a plain sequence. */
module LinkedQueue {
  import opened Wrappers

  class Cell<T> {
    const data: T
    var next: Cell?<T>

    constructor (d: T)
      ensures data == d && next == null
    {
      data, next := d, null;
    }
  }

  class Queue<T> {
    var next: Cell?<T>
    var tail: Cell?<T>
    var num: nat
    ghost var cells: seq<Cell<T>>
    ghost var contents: seq<T>
    ghost var repr: set<Cell<T>>

    ghost predicate Valid()
      reads this, repr
    {
      && num == |contents| == |cells|
      && (forall i :: 0 <= i < |cells| ==> cells[i] in repr && cells[i].data == contents[i])
      && (forall i, j :: 0 <= i < j < |cells| ==> cells[i] != cells[j])
      && (forall i {:trigger cells[i].next} :: 0 <= i < |cells| - 1 ==> cells[i].next == cells[i + 1])
      && if cells == [] then next == null && tail == null
         else next == cells[0] && tail == cells[|cells| - 1] && tail.next == null
    }

    constructor ()
      ensures Valid() && contents == [] && repr == {}
    {
      next, tail, num, cells, contents, repr := null, null, 0, [], [], {};
    }

    /** `queue_push` (util.c:49-70). */
    method Push(d: T)
      requires Valid()
      modifies this, repr
      ensures Valid() && fresh(repr - old(repr))
      ensures contents == old(contents) + [d]
    {
      var entry := new Cell(d);
      if tail != null {
        tail.next := entry;
      }
      tail := entry;
      if next == null {
        next := entry;
      }
      num := num + 1;
      cells, contents, repr := cells + [entry], contents + [d], repr + {entry};
    }

    /** `queue_pop` (util.c:72-87): -1 on an empty queue. */
    method Pop() returns (r: Option<T>)
      requires Valid()
      modifies this
      ensures Valid() && repr == old(repr)
      ensures if old(contents) == [] then r == None && contents == []
              else r == Some(old(contents)[0]) && contents == old(contents)[1..]
    {
      if next == null { return None; }
      var entry := next;
      assert |cells| > 1 ==> entry.next == cells[1];
      next := entry.next;
      if next == null {
        tail := null;
      }
      num := num - 1;
      cells, contents := cells[1..], contents[1..];
      return Some(entry.data);
    }
  }
}
