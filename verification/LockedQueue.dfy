/**
  `ks_locked_queue`: an intrusive list with a length kept beside it. Each method is what happens
  between taking and giving back the mutex, and is one atomic step of module QueueThread.
 */
module LockedQueue {
  import opened ListHeads

  class Queue {
    const head: ListHead
    var size: nat
    ghost var entries: seq<ListHead>

    ghost predicate Valid()
      reads this, head, entries
    {
      Ring([head] + entries) && size == |entries|
    }

    constructor ()
      ensures Valid() && entries == [] && fresh(head)
    {
      head := new ListHead();
      size := 0;
      entries := [];
    }

    method PushFront(entry: ListHead)
      requires Valid() && entry != head && entry !in entries
      modifies this, head, entries, entry
      ensures Valid() && entries == [entry] + old(entries)
    {
      AddHead(entry, head, [head] + entries);
      entries := [entry] + entries;
      assert [head, entry] + ([head] + old(entries))[1..] == [head] + entries;
      size := size + 1;
    }

    method PushBack(entry: ListHead)
      requires Valid() && entry != head && entry !in entries
      modifies this, head, entries, entry
      ensures Valid() && entries == old(entries) + [entry]
    {
      AddTail(entry, head, [head] + entries);
      entries := entries + [entry];
      assert [head] + old(entries) + [entry] == [head] + entries;
      size := size + 1;
    }

    method IsEmpty() returns (empty: bool)
      requires Valid()
      ensures empty == (entries == [])
    {
      TestsAreRight([head] + entries, 0);
      empty := ListHeads.Empty(head);
    }

    method Size() returns (n: nat)
      requires Valid()
      ensures n == |entries|
    {
      n := size;
    }

    method PopFront() returns (entry: ListHead?)
      requires Valid()
      modifies this, head, entries
      ensures Valid()
      ensures if old(entries) == [] then entry == null && entries == []
              else entry == old(entries)[0] && entries == old(entries)[1..]
    {
      ghost var s := [head] + entries;
      TestsAreRight(s, 0);
      entry := null;
      if !ListHeads.Empty(head) {
        assert s[0].next == Ahead(s, 0);
        entry := head.next;
        Del(entry, s, 1);
        entries := entries[1..];
        assert Without(s, 1) == [head] + entries;
        size := size - 1;
      }
    }

    method PopBack() returns (entry: ListHead?)
      requires Valid()
      modifies this, head, entries
      ensures Valid()
      ensures if old(entries) == [] then entry == null && entries == []
              else entry == old(entries)[|old(entries)| - 1] && entries == old(entries)[..|old(entries)| - 1]
    {
      ghost var s := [head] + entries;
      TestsAreRight(s, 0);
      entry := null;
      if !ListHeads.Empty(head) {
        assert s[0].prev == Behind(s, 0);
        entry := head.prev;
        Del(entry, s, |s| - 1);
        entries := entries[..|entries| - 1];
        assert Without(s, |s| - 1) == [head] + entries;
        size := size - 1;
      }
    }
  }
}
