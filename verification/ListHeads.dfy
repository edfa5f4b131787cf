/**
  The intrusive doubly linked lists of `list.h`. A list is a ring of nodes that starts with its head;
  the operations change single `next` and `prev` fields, and are shown here to act on the ring as
  sequence operations. A poisoned link is `null`.
 */
module ListHeads {

  class ListHead {
    var next: ListHead?
    var prev: ListHead?

    /** `INIT_LIST_HEAD` */
    constructor ()
      ensures Ring([this])
    {
      next, prev := this, this;
    }
  }

  ghost predicate Distinct(s: seq<ListHead>) {
    forall i, j :: 0 <= i < j < |s| ==> s[i] != s[j]
  }

  /** The neighbours of position `i` in the ring. */
  function Ahead(s: seq<ListHead>, i: nat): ListHead
    requires i < |s|
  {
    if i + 1 < |s| then s[i + 1] else s[0]
  }

  function Behind(s: seq<ListHead>, i: nat): ListHead
    requires i < |s|
  {
    if i > 0 then s[i - 1] else s[|s| - 1]
  }

  /** The nodes of `s`, in this order, are all of a ring; links in both directions agree. */
  ghost predicate Ring(s: seq<ListHead>)
    reads s
  {
    && s != [] && Distinct(s)
    && (forall i {:trigger s[i].next} :: 0 <= i < |s| ==> s[i].next == Ahead(s, i))
    && (forall i {:trigger s[i].prev} :: 0 <= i < |s| ==> s[i].prev == Behind(s, i))
  }

  ghost predicate Disjoint(a: seq<ListHead>, b: seq<ListHead>) {
    forall i, j :: 0 <= i < |a| && 0 <= j < |b| ==> a[i] != b[j]
  }

  method InitListHead(list: ListHead)
    modifies list
    ensures Ring([list])
  {
    list.next := list;
    list.prev := list;
  }

  /** `list_empty` */
  predicate Empty(head: ListHead)
    reads head
  {
    head.next == head
  }

  /** `list_is_last` */
  predicate IsLast(entry: ListHead, head: ListHead)
    reads entry
  {
    entry.next == head
  }

  /** `list_is_singular` */
  predicate IsSingular(head: ListHead)
    reads head
  {
    !Empty(head) && head.next == head.prev
  }

  /** The three tests see the number of entries, and the position of an entry. */
  lemma TestsAreRight(s: seq<ListHead>, i: nat)
    requires Ring(s) && i < |s|
    ensures Empty(s[0]) <==> |s| == 1
    ensures IsSingular(s[0]) <==> |s| == 2
    ensures IsLast(s[i], s[0]) <==> i == |s| - 1
  {
    assert s[0].next == Ahead(s, 0) && s[0].prev == Behind(s, 0);
  }

  /** `__list_add` of a node behind position `i`. */
  method AddBetween(entry: ListHead, prev: ListHead, next: ListHead, ghost s: seq<ListHead>, ghost i: nat)
    requires Ring(s) && i < |s| && entry !in s
    requires prev == s[i] && next == Ahead(s, i)
    modifies entry, prev, next
    ensures Ring(s[..i + 1] + [entry] + s[i + 1..])
  {
    ghost var t := s[..i + 1] + [entry] + s[i + 1..];
    next.prev := entry;
    entry.next := next;
    entry.prev := prev;
    prev.next := entry;
    forall j | 0 <= j < |t| ensures t[j].next == Ahead(t, j) && t[j].prev == Behind(t, j) {
      if j < i + 1 { assert t[j] == s[j]; } else if j > i + 1 { assert t[j] == s[j - 1]; }
    }
  }

  /** `list_add_head` */
  method AddHead(entry: ListHead, head: ListHead, ghost s: seq<ListHead>)
    requires Ring(s) && head == s[0] && entry !in s
    modifies entry, s
    ensures Ring([head, entry] + s[1..])
  {
    AddBetween(entry, head, head.next, s, 0);
    assert s[..1] + [entry] + s[1..] == [head, entry] + s[1..];
  }

  /** `list_add_tail` */
  method AddTail(entry: ListHead, head: ListHead, ghost s: seq<ListHead>)
    requires Ring(s) && head == s[0] && entry !in s
    modifies entry, s
    ensures Ring(s + [entry])
  {
    AddBetween(entry, head.prev, head, s, |s| - 1);
    assert s[..|s|] + [entry] + s[|s|..] == s + [entry];
  }

  function Without<T>(s: seq<T>, i: nat): seq<T>
    requires i < |s|
  {
    s[..i] + s[i + 1..]
  }

  /** `__list_del_entry`: the neighbours are joined, the links of the entry itself stay. */
  method Unlink(entry: ListHead, ghost s: seq<ListHead>, ghost i: nat)
    requires Ring(s) && 0 < i < |s| && entry == s[i]
    modifies entry.prev, entry.next
    ensures Ring(Without(s, i))
  {
    var prev, next := entry.prev, entry.next;
    next.prev := prev;
    prev.next := next;
  }

  /** `list_del` */
  method Del(entry: ListHead, ghost s: seq<ListHead>, ghost i: nat)
    requires Ring(s) && 0 < i < |s| && entry == s[i]
    modifies s
    ensures Ring(Without(s, i)) && entry.next == null && entry.prev == null
  {
    Unlink(entry, s, i);
    entry.next := null;
    entry.prev := null;
  }

  /** `list_move_tail` of an entry to the tail of its own list. */
  method MoveTail(entry: ListHead, head: ListHead, ghost s: seq<ListHead>, ghost i: nat)
    requires Ring(s) && head == s[0] && 0 < i < |s| && entry == s[i]
    modifies s
    ensures Ring(Without(s, i) + [entry])
  {
    Unlink(entry, s, i);
    AddTail(entry, head, Without(s, i));
  }

  /** `list_rotate_left` */
  method RotateLeft(head: ListHead, ghost s: seq<ListHead>)
    requires Ring(s) && head == s[0]
    modifies s
    ensures Ring(if |s| == 1 then s else [head] + s[2..] + [s[1]])
  {
    TestsAreRight(s, 0);
    if !Empty(head) {
      MoveTail(head.next, head, s, 1);
      assert Without(s, 1) == [head] + s[2..];
    }
  }

  /** `list_move_tail` of an entry to the tail of another list. */
  method MoveTailTo(entry: ListHead, head: ListHead, ghost s: seq<ListHead>, ghost i: nat, ghost t: seq<ListHead>)
    requires Ring(s) && 0 < i < |s| && entry == s[i] && Ring(t) && head == t[0] && Disjoint(s, t)
    modifies s, t
    ensures Ring(Without(s, i)) && Ring(t + [entry])
  {
    Unlink(entry, s, i);
    AddTail(entry, head, t);
  }

  /** `list_del_init` */
  method DelInit(entry: ListHead, ghost s: seq<ListHead>, ghost i: nat)
    requires Ring(s) && 0 < i < |s| && entry == s[i]
    modifies s
    ensures Ring(Without(s, i)) && Ring([entry])
  {
    Unlink(entry, s, i);
    InitListHead(entry);
  }

  /** `__list_cut_position` behind position `k` of a list. */
  method CutBehind(list: ListHead, head: ListHead, entry: ListHead, ghost s: seq<ListHead>, ghost k: nat)
    requires Ring(s) && head == s[0] && 0 < k < |s| && entry == s[k] && list !in s
    modifies list, s
    ensures Ring([list] + s[1..k + 1]) && Ring([head] + s[k + 1..])
  {
    var newFirst := entry.next;
    list.next := head.next;
    list.next.prev := list;
    list.prev := entry;
    entry.next := list;
    head.next := newFirst;
    newFirst.prev := head;
    CutLinks(list, s, k);
  }

  /** The links as the cut leaves them: entry `k` and the first entry now meet `list`, the head skips to the rest. */
  ghost predicate CutAt(list: ListHead, s: seq<ListHead>, k: nat)
    requires 0 < k < |s|
    reads list, s
  {
    && list.next == s[1] && list.prev == s[k]
    && (forall i {:trigger s[i].next} :: 0 <= i < |s| ==>
          s[i].next == if i == 0 then Ahead(s, k) else if i == k then list else Ahead(s, i))
    && (forall i {:trigger s[i].prev} :: 0 <= i < |s| ==>
          s[i].prev == if i == 1 then list else if i == (if k + 1 < |s| then k + 1 else 0) then s[0] else Behind(s, i))
  }

  /** They make two rings. */
  lemma CutLinks(list: ListHead, s: seq<ListHead>, k: nat)
    requires Distinct(s) && 0 < k < |s| && list !in s && CutAt(list, s, k)
    ensures Ring([list] + s[1..k + 1]) && Ring([s[0]] + s[k + 1..])
  {
    hide CutAt, Ring;
    CutPart(list, s, k);
    LeftPart(list, s, k);
  }

  lemma CutPart(list: ListHead, s: seq<ListHead>, k: nat)
    requires Distinct(s) && 0 < k < |s| && list !in s && CutAt(list, s, k)
    ensures Ring([list] + s[1..k + 1])
  {
    var t := [list] + s[1..k + 1];
    assert |t| == k + 1 && forall j {:trigger t[j]} :: 0 < j < |t| ==> t[j] == s[j];
  }

  lemma LeftPart(list: ListHead, s: seq<ListHead>, k: nat)
    requires Distinct(s) && 0 < k < |s| && list !in s && CutAt(list, s, k)
    ensures Ring([s[0]] + s[k + 1..])
  {
    var u := [s[0]] + s[k + 1..];
    assert |u| == |s| - k && forall j {:trigger u[j]} :: 0 < j < |u| ==> u[j] == s[k + j];
  }

  /**
    `list_cut_position`: the entries up to `entry` move to `list`. Whatever `list` was the head of is
    forgotten, except when `head` is empty: then `list` is not touched at all.
   */
  method CutPosition(list: ListHead, head: ListHead, entry: ListHead, ghost s: seq<ListHead>, ghost k: nat)
    requires Ring(s) && head == s[0] && k < |s| && entry == s[k] && list !in s
    modifies list, s
    ensures |s| > 1 ==> Ring([list] + s[1..k + 1]) && Ring([head] + s[k + 1..])
    ensures |s| == 1 ==> unchanged(list) && unchanged(head)
  {
    TestsAreRight(s, 0);
    if Empty(head) {
      return;
    }
    if IsSingular(head) && (head.next != entry && head != entry) {
      return;
    }
    if entry == head {
      InitListHead(list);
      assert [list] + s[1..1] == [list] && [head] + s[1..] == s;
    } else {
      CutBehind(list, head, entry, s, k);
    }
  }

  /** `__list_splice` of the entries of `l` behind position `i` of `s`; the head of `l` keeps its links. */
  method SpliceBetween(list: ListHead, prev: ListHead, next: ListHead, ghost l: seq<ListHead>, ghost s: seq<ListHead>,
          ghost i: nat)
    requires Ring(l) && list == l[0] && |l| > 1 && Ring(s) && i < |s| && Disjoint(l, s)
    requires prev == s[i] && next == Ahead(s, i)
    modifies l[1..], prev, next
    ensures Ring(s[..i + 1] + l[1..] + s[i + 1..])
  {
    var first, last := list.next, list.prev;
    ghost var t := s[..i + 1] + l[1..] + s[i + 1..];
    assert first == l[1] == l[1..][0] && last == l[|l| - 1] == l[1..][|l| - 2];
    first.prev := prev;
    prev.next := first;
    last.next := next;
    next.prev := last;
    SplicedIsDistinct(l, s, i);
    forall j | 0 <= j < |t| ensures t[j].next == Ahead(t, j) && t[j].prev == Behind(t, j) {
      if j <= i { assert t[j] == s[j]; }
      else if j <= i + |l| - 1 { assert t[j] == l[j - i]; }
      else { assert t[j] == s[j - |l| + 1]; }
    }
  }

  lemma SplicedIsDistinct(l: seq<ListHead>, s: seq<ListHead>, i: nat)
    requires Distinct(l) && Distinct(s) && Disjoint(l, s) && |l| > 1 && i < |s|
    ensures Distinct(s[..i + 1] + l[1..] + s[i + 1..])
  {
  }

  /** `list_splice` */
  method Splice(list: ListHead, head: ListHead, ghost l: seq<ListHead>, ghost s: seq<ListHead>)
    requires Ring(l) && list == l[0] && Ring(s) && head == s[0] && Disjoint(l, s)
    modifies l[1..], s
    ensures Ring([head] + l[1..] + s[1..])
  {
    TestsAreRight(l, 0);
    if !Empty(list) {
      SpliceBetween(list, head, head.next, l, s, 0);
      assert s[..1] + l[1..] + s[1..] == [head] + l[1..] + s[1..];
    } else {
      assert [head] + l[1..] + s[1..] == s;
    }
  }

  /** `list_splice_tail` */
  method SpliceTail(list: ListHead, head: ListHead, ghost l: seq<ListHead>, ghost s: seq<ListHead>)
    requires Ring(l) && list == l[0] && Ring(s) && head == s[0] && Disjoint(l, s)
    modifies l[1..], s
    ensures Ring(s + l[1..])
  {
    TestsAreRight(l, 0);
    if !Empty(list) {
      SpliceBetween(list, head.prev, head, l, s, |s| - 1);
      assert s[..|s|] + l[1..] + s[|s|..] == s + l[1..];
    } else {
      assert s + l[1..] == s;
    }
  }

  lemma HeadStaysOut(l: seq<ListHead>, s: seq<ListHead>)
    requires Ring(l) && Ring(s) && Disjoint(l, s)
    ensures l[0] !in l[1..] && l[0] !in s && l[0] !in [s[0]] + l[1..] + s[1..] && l[0] !in s + l[1..]
  {
  }

  /** `list_splice_init` */
  method SpliceInit(list: ListHead, head: ListHead, ghost l: seq<ListHead>, ghost s: seq<ListHead>)
    requires Ring(l) && list == l[0] && Ring(s) && head == s[0] && Disjoint(l, s)
    modifies l, s
    ensures Ring([head] + l[1..] + s[1..]) && Ring([list])
  {
    TestsAreRight(l, 0);
    ghost var t := [head] + l[1..] + s[1..];
    HeadStaysOut(l, s);
    if !Empty(list) {
      SpliceBetween(list, head, head.next, l, s, 0);
      assert s[..1] + l[1..] + s[1..] == t;
      label Spliced:
      InitListHead(list);
      StillARing@Spliced(t);
    } else {
      assert [head] + l[1..] + s[1..] == s && [list] == l;
    }
  }

  /** `list_splice_tail_init` */
  method SpliceTailInit(list: ListHead, head: ListHead, ghost l: seq<ListHead>, ghost s: seq<ListHead>)
    requires Ring(l) && list == l[0] && Ring(s) && head == s[0] && Disjoint(l, s)
    modifies l, s
    ensures Ring(s + l[1..]) && Ring([list])
  {
    TestsAreRight(l, 0);
    HeadStaysOut(l, s);
    if !Empty(list) {
      SpliceBetween(list, head.prev, head, l, s, |s| - 1);
      assert s[..|s|] + l[1..] + s[|s|..] == s + l[1..];
      label Spliced:
      InitListHead(list);
      StillARing@Spliced(s + l[1..]);
    } else {
      assert s + l[1..] == s && [list] == l;
    }
  }

  /**
    Cutting a list anywhere and splicing the cut part back restores it, whatever `list` was before,
    provided the list had entries. An empty list instead receives the entries `list` had.
   */
  method CutThenSplice(list: ListHead, head: ListHead, entry: ListHead, ghost l: seq<ListHead>, ghost s: seq<ListHead>,
          ghost k: nat)
    requires Ring(s) && head == s[0] && k < |s| && entry == s[k]
    requires Ring(l) && list == l[0] && Disjoint(l, s)
    modifies l, s
    ensures Ring([list]) && Ring(if |s| > 1 then s else [head] + l[1..])
  {
    hide Ring, Disjoint, Distinct;
    CutParts(list, l, s, k);
    CutPosition(list, head, entry, s, k);
    if |s| == 1 { StillARing(l); }
    ghost var cut := if |s| > 1 then [list] + s[1..k + 1] else l;
    ghost var left := if |s| > 1 then [head] + s[k + 1..] else s;
    SpliceInit(list, head, cut, left);
    assert [head] + cut[1..] + left[1..] == if |s| > 1 then s else [head] + l[1..] by {
      assert cut[1..] == if |s| > 1 then s[1..k + 1] else l[1..];
    }
  }

  lemma CutParts(list: ListHead, l: seq<ListHead>, s: seq<ListHead>, k: nat)
    requires Ring(s) && k < |s| && Ring(l) && list == l[0] && Disjoint(l, s)
    ensures l != [] && list in l && list !in s && Disjoint([list] + s[1..k + 1], [s[0]] + s[k + 1..])
  {
  }

  twostate lemma StillARing(l: seq<ListHead>)
    requires old(Ring(l)) && forall i :: 0 <= i < |l| ==> unchanged(l[i])
    ensures Ring(l)
  {
  }

  // ---------------------------------------------------------------------------------------------
  // Traversal

  /** Following `next`, or `prev`, `n` times from a node of a ring. */
  ghost function Forward(s: seq<ListHead>, x: ListHead, n: nat): (y: ListHead)
    requires Ring(s) && x in s
    reads s
    ensures y in s
  {
    if n == 0 then x else Forward(s, Step(s, x, true), n - 1)
  }

  ghost function Backward(s: seq<ListHead>, x: ListHead, n: nat): (y: ListHead)
    requires Ring(s) && x in s
    reads s
    ensures y in s
  {
    if n == 0 then x else Backward(s, Step(s, x, false), n - 1)
  }

  ghost function Step(s: seq<ListHead>, x: ListHead, ahead: bool): (y: ListHead)
    requires Ring(s) && x in s
    reads s
    ensures y in s
  {
    var i :| 0 <= i < |s| && s[i] == x;
    assert x.next == Ahead(s, i) && x.prev == Behind(s, i);
    if ahead then x.next else x.prev
  }

  lemma {:induction false} ForwardFrom(s: seq<ListHead>, i: nat, n: nat)
    requires Ring(s) && i + n < |s|
    ensures Forward(s, s[i], n) == s[i + n]
    decreases n
  {
    if n > 0 {
      assert s[i].next == Ahead(s, i);
      ForwardFrom(s, i + 1, n - 1);
    }
  }

  lemma {:induction false} BackwardFrom(s: seq<ListHead>, i: nat, n: nat)
    requires Ring(s) && n <= i < |s|
    ensures Backward(s, s[i], n) == s[i - n]
    decreases n
  {
    if n > 0 {
      assert s[i].prev == Behind(s, i);
      BackwardFrom(s, i - 1, n - 1);
    }
  }

  /** Walking `prev` from the head meets the entries in the reverse of the order in which `next` does. */
  lemma BackwardReverses(s: seq<ListHead>, n: nat)
    requires Ring(s) && 0 < n < |s|
    ensures Forward(s, s[0], n) == s[n]
    ensures Backward(s, s[0], n) == s[|s| - n] == Forward(s, s[0], |s| - n)
  {
    ForwardFrom(s, 0, n);
    ForwardFrom(s, 0, |s| - n);
    assert s[0].prev == Behind(s, 0);
    BackwardFrom(s, |s| - 1, n - 1);
  }
}
