/** The intrusive doubly linked list: a ring through its items and a node of the list itself. */
module IntrusiveList {
  import opened Sequences

  class Node {
    var next: Node?
    var prev: Node?

    constructor ()
      ensures next == null && prev == null
    {
      next, prev := null, null;
    }
  }

  /** The ring: before the first item and behind the last one stands the list's own node `c`. */
  function At(s: seq<Node>, c: Node, i: int): Node {
    if 0 <= i < |s| then s[i] else c
  }

  ghost predicate Apart(s: seq<Node>, c: Node) {
    c !in s && forall i, j | 0 <= i < j < |s| :: s[i] != s[j]
  }

  ghost predicate Linked(s: seq<Node>, c: Node)
    reads s, c
  {
    && c.next == At(s, c, 0)
    && c.prev == At(s, c, |s| - 1)
    && forall i | 0 <= i < |s| :: s[i].prev == At(s, c, i - 1) && s[i].next == At(s, c, i + 1)
  }

  lemma RemovedAt(s: seq<Node>, c: Node, k: nat, i: int)
    requires k < |s|
    ensures At(Without(s, k), c, i) == At(s, c, if i < k then i else i + 1)
    ensures 0 <= i < |s| - 1 ==> Without(s, k)[i] == s[if i < k then i else i + 1]
  {
  }

  lemma InsertedAt(s: seq<Node>, c: Node, n: nat, x: Node, i: int)
    requires n <= |s|
    ensures At(With(s, n, x), c, i) ==
      if i == n then x else At(s, c, if i < n then i else i - 1)
    ensures 0 <= i <= |s| ==> With(s, n, x)[i] == if i == n then x else s[if i < n then i else i - 1]
  {
  }

  lemma OnlyAt(s: seq<Node>, c: Node, k: int)
    requires Apart(s, c)
    ensures forall i | 0 <= i < |s| :: s[i] == At(s, c, k) <==> i == k
    ensures c !in s
    ensures if 0 <= k < |s| then At(s, c, k) == s[k] && At(s, c, k) != c else At(s, c, k) == c
  {
  }

  lemma ApartRemove(s: seq<Node>, c: Node, k: nat)
    requires Apart(s, c) && k < |s|
    ensures Apart(Without(s, k), c) && s[k] !in Without(s, k)
    ensures forall x | x in Without(s, k) :: x in s
  {
  }

  lemma ApartInsert(s: seq<Node>, c: Node, n: nat, x: Node)
    requires Apart(s, c) && n <= |s| && x !in s && x != c
    ensures Apart(With(s, n, x), c)
    ensures forall y | y in With(s, n, x) :: y == x || y in s
  {
  }

  lemma SplicedAt(s: seq<Node>, c: Node, n: nat, x: Node, i: nat)
    requires n <= |s| && i <= |s|
    ensures var r := With(s, n, x);
      && r[i] == (if i == n then x else s[if i < n then i else i - 1])
      && At(r, c, i - 1) == (if i - 1 == n then x else At(s, c, if i - 1 < n then i - 1 else i - 2))
      && At(r, c, i + 1) == (if i + 1 == n then x else At(s, c, if i + 1 < n then i + 1 else i))
  {
    hide With, At;
    InsertedAt(s, c, n, x, i - 1);
    InsertedAt(s, c, n, x, i);
    InsertedAt(s, c, n, x, i + 1);
  }

  lemma Spliced(s: seq<Node>, c: Node, n: nat, x: Node)
    requires n <= |s|
    ensures var r := With(s, n, x);
      && (forall i | 0 <= i < |r| ::
           && r[i] == (if i == n then x else s[if i < n then i else i - 1])
           && At(r, c, i - 1) == (if i - 1 == n then x else At(s, c, if i - 1 < n then i - 1 else i - 2))
           && At(r, c, i + 1) == (if i + 1 == n then x else At(s, c, if i + 1 < n then i + 1 else i)))
      && At(r, c, 0) == (if n == 0 then x else At(s, c, 0))
      && At(r, c, |r| - 1) == (if n == |s| then x else At(s, c, |s| - 1))
  {
    hide With, At;
    forall i | 0 <= i < |s| + 1
      ensures var r := With(s, n, x);
        && r[i] == (if i == n then x else s[if i < n then i else i - 1])
        && At(r, c, i - 1) == (if i - 1 == n then x else At(s, c, if i - 1 < n then i - 1 else i - 2))
        && At(r, c, i + 1) == (if i + 1 == n then x else At(s, c, if i + 1 < n then i + 1 else i))
    {
      SplicedAt(s, c, n, x, i);
    }
    InsertedAt(s, c, n, x, 0);
    InsertedAt(s, c, n, x, |s|);
  }

  /** The ring is closed again once the neighbours of place `n` and the new node there agree. */
  lemma SplicedAround(s: seq<Node>, c: Node, n: nat, x: Node)
    requires n <= |s|
    requires x.prev == At(s, c, n - 1) && x.next == At(s, c, n)
    requires forall i | 0 <= i < |s| ::
      && s[i].prev == (if i == n then x else At(s, c, i - 1))
      && s[i].next == (if i == n - 1 then x else At(s, c, i + 1))
    requires c.next == (if n == 0 then x else At(s, c, 0))
    requires c.prev == (if n == |s| then x else At(s, c, |s| - 1))
    ensures Linked(With(s, n, x), c)
  {
    hide With, At;
    Spliced(s, c, n, x);
  }

  class List {
    const node: Node
    var size: nat
    ghost var items: seq<Node>

    ghost predicate Valid()
      reads this, items, node
    {
      Apart(items, node) && Linked(items, node) && size == |items|
    }

    constructor ()
      ensures Valid() && items == [] && fresh(node)
    {
      node := new Node();
      size, items := 0, [];
      new;
      node.prev := node;
      node.next := node;
    }

    /** `get_value`: the list's own node is no item. */
    method GetValue(x: Node) returns (item: Node?)
      ensures item == if x == node then null else x
    {
      return if x == node then null else x;
    }

    method Front() returns (item: Node?)
      requires Valid()
      ensures item == if items == [] then null else items[0]
    {
      item := GetValue(node.next);
    }

    method Back() returns (item: Node?)
      requires Valid()
      ensures item == if items == [] then null else items[|items| - 1]
    {
      item := GetValue(node.prev);
    }

    method Next(item: Node, ghost k: nat) returns (after: Node?)
      requires Valid() && k < |items| && items[k] == item
      ensures after == if k + 1 == |items| then null else items[k + 1]
    {
      hide At;
      OnlyAt(items, node, k + 1);
      after := GetValue(item.next);
    }

    method Prev(item: Node, ghost k: nat) returns (before: Node?)
      requires Valid() && k < |items| && items[k] == item
      ensures before == if k == 0 then null else items[k - 1]
    {
      hide At;
      OnlyAt(items, node, k - 1);
      before := GetValue(item.prev);
    }

    method Empty() returns (empty: bool)
      requires Valid()
      ensures empty == (items == [])
    {
      hide At;
      OnlyAt(items, node, 0);
      return node.next == node;
    }

    /** `insert_between`: `n` is the place of the new item. */
    method InsertBetween(item: Node, before: Node, after: Node, ghost n: nat)
      requires Valid() && item !in items && item != node && n <= |items|
      requires before == At(items, node, n - 1) && after == At(items, node, n)
      modifies this, items, node, item
      ensures Valid() && items == With(old(items), n, item)
    {
      hide Apart, With, At;
      ghost var was := items;
      OnlyAt(was, node, n - 1);
      OnlyAt(was, node, n);
      ApartInsert(was, node, n, item);
      item.prev := before;
      item.next := after;
      before.next := item;
      after.prev := item;
      size := size + 1;
      items := With(was, n, item);
      SplicedAround(was, node, n, item);
    }

    /** `remove_node`, for the item at place `k`. */
    method RemoveNode(item: Node, ghost k: nat)
      requires Valid() && k < |items| && items[k] == item
      modifies this, items, node
      ensures Valid() && items == Without(old(items), k)
      ensures item.next == null && item.prev == null
    {
      hide Apart, Without, At;
      ghost var was := items;
      OnlyAt(was, node, k - 1);
      OnlyAt(was, node, k);
      OnlyAt(was, node, k + 1);
      ApartRemove(was, node, k);
      item.prev.next := item.next;
      item.next.prev := item.prev;
      item.next := null;
      item.prev := null;
      size := size - 1;
      items := Without(was, k);
      forall i | 0 <= i < |items|
        ensures items[i].prev == At(items, node, i - 1) && items[i].next == At(items, node, i + 1)
      {
        RemovedAt(was, node, k, i - 1);
        RemovedAt(was, node, k, i);
        RemovedAt(was, node, k, i + 1);
      }
      RemovedAt(was, node, k, 0);
      RemovedAt(was, node, k, |items| - 1);
    }

    method PushBack(item: Node)
      requires Valid() && item !in items && item != node
      modifies this, items, node, item
      ensures Valid() && items == old(items) + [item]
    {
      hide Linked, Apart, At;
      Ends(items, node);
      InsertBetween(item, node.prev, node, |items|);
    }

    method PushFront(item: Node)
      requires Valid() && item !in items && item != node
      modifies this, items, node, item
      ensures Valid() && items == [item] + old(items)
    {
      hide Linked, Apart, At;
      Ends(items, node);
      InsertBetween(item, node, node.next, 0);
    }

    method PopFront() returns (item: Node?)
      requires Valid()
      modifies this, items, node
      ensures Valid()
      ensures old(items) == [] ==> item == null && items == []
      ensures old(items) != [] ==>
        && item == old(items)[0] && items == old(items)[1..]
        && item.next == null && item.prev == null
    {
      hide Linked, Apart, At;
      Ends(items, node);
      item := GetValue(node.next);
      if item != null {
        RemoveNode(item, 0);
      }
    }

    method PopBack() returns (item: Node?)
      requires Valid()
      modifies this, items, node
      ensures Valid()
      ensures old(items) == [] ==> item == null && items == []
      ensures old(items) != [] ==>
        && item == old(items)[|old(items)| - 1] && items == old(items)[..|old(items)| - 1]
        && item.next == null && item.prev == null
    {
      hide Linked, Apart, At;
      Ends(items, node);
      item := GetValue(node.prev);
      if item != null {
        RemoveNode(item, |items| - 1);
      }
    }

    method InsertBefore(after: Node, item: Node, ghost k: nat)
      requires Valid() && item !in items && item != node
      requires k < |items| && items[k] == after
      modifies this, items, node, item
      ensures Valid() && items == With(old(items), k, item)
    {
      hide Apart, At;
      OnlyAt(items, node, k);
      InsertBetween(item, after.prev, after, k);
    }

    method Remove(item: Node, ghost k: nat)
      requires Valid() && k < |items| && items[k] == item
      modifies this, items, node
      ensures Valid() && items == Without(old(items), k)
      ensures item.next == null && item.prev == null
    {
      RemoveNode(item, k);
    }

    /** `each`: the links alone lead through the items, in order. */
    method Each() returns (visited: seq<Node>)
      requires Valid()
      ensures visited == items
    {
      hide Linked, Apart, At;
      visited := [];
      var item := Front();
      while item != null
        invariant visited <= items
        invariant item == if |visited| == |items| then null else items[|visited|]
        decreases |items| - |visited|
      {
        visited := visited + [item];
        item := Next(item, |visited| - 1);
      }
    }

    /** `clear`: the items are taken off the front, one by one. */
    method Clear() returns (popped: seq<Node>)
      requires Valid()
      modifies this, items, node
      ensures Valid() && items == [] && popped == old(items)
      ensures forall i | 0 <= i < |popped| :: popped[i].next == null && popped[i].prev == null
    {
      hide Linked, At, Apart;
      ghost var all := items;
      ghost var n := 0;
      popped := [];
      var empty := Empty();
      while !empty
        invariant Valid() && empty == (items == [])
        invariant 0 <= n <= |all| && popped == all[..n] && items == all[n..]
        invariant forall i | 0 <= i < n :: all[i].next == null && all[i].prev == null
        invariant Apart(all, node)
        decreases |items|
      {
        OnlyOnce(all, node, n);
        var item := PopFront();
        popped := popped + [item];
        n := n + 1;
        empty := Empty();
      }
    }

    /** The links without the size. */
    ghost predicate Closed()
      reads this, items, node
    {
      Apart(items, node) && Linked(items, node)
    }

    /** No node is in both lists. */
    ghost predicate Separate(other: List)
      reads this, other
    {
      && this != other && node != other.node
      && node !in other.items && other.node !in items
      && forall x | x in items :: x !in other.items
    }

    /** The move constructor: takes over the ring of `other`, which is left empty. */
    constructor Move(other: List)
      requires other.Valid()
      modifies other, other.items, other.node
      ensures Valid() && fresh(node) && items == old(other.items)
      ensures other.Valid() && other.items == []
    {
      hide Apart, At, Linked;
      node := new Node();
      size, items := other.size, other.items;
      new;
      ghost var s, c := items, other.node;
      OnlyAt(s, c, 0);
      ApartOther(s, c, node);
      MoveLinks(other.node, s);
      if node.next == other.node {
        node.prev := node;
        node.next := node;
      }
      other.node.next := other.node;
      other.node.prev := other.node;
      other.size := 0;
      other.items := [];
      NoItems(c);
      NoItems(node);
    }

    /** The move constructor of the list's own node: of an empty list, it takes over a link to the old node. */
    method MoveLinks(c: Node, ghost s: seq<Node>)
      requires Apart(s, c) && Linked(s, c) && node !in s && node != c
      modifies node, c, s
      ensures c.next == null && c.prev == null
      ensures if s == [] then node.next == c && node.prev == c else node.next == s[0] && Linked(s, node)
    {
      hide Apart, At, Linked;
      InnerOf(s, c);
      node.next := c.next;
      node.prev := c.prev;
      node.next.prev := node;
      node.prev.next := node;
      c.next := null;
      c.prev := null;
      if s != [] {
        Reclosed(s, c, node);
      }
    }

    /** The ends of a ring that was closed by `c` are turned to this list's own node. */
    method CloseRing(ghost s: seq<Node>, ghost c: Node)
      requires Apart(s, c) && node !in s && Inner(s, c) && s != []
      requires node.next == s[0] && node.prev == s[|s| - 1]
      modifies s[0], s[|s| - 1]
      ensures Apart(s, node) && Linked(s, node) && Inner(s, c)
    {
      hide Apart, At, Linked;
      OnlyOneEnd(s, c);
      ApartOther(s, c, node);
      node.next.prev := node;
      node.prev.next := node;
      Reclosed(s, c, node);
    }

    /** The cases of `swap` with one empty list. */
    method TakeRing(other: List)
      requires Closed() && other.Closed() && Separate(other) && items == [] && other.items != []
      modifies this, node, other, other.items, other.node
      ensures Closed() && other.Closed() && items == old(other.items) && other.items == []
      ensures size == old(size) && other.size == old(other.size)
    {
      hide Apart, At, Linked, Inner;
      ghost var s, c := other.items, other.node;
      InnerOf(s, c);
      node.next := other.node.next;
      node.prev := other.node.prev;
      CloseRing(s, c);
      other.node.next := other.node;
      other.node.prev := other.node;
      items, other.items := s, [];
      NoItems(c);
    }

    /** The case of `swap` with items in both lists. */
    method SwapRings(other: List)
      requires Closed() && other.Closed() && (this == other || Separate(other)) && items != [] && other.items != []
      modifies this, items, node, other, other.items, other.node
      ensures Closed() && other.Closed() && items == old(other.items) && other.items == old(items)
      ensures size == old(size) && other.size == old(other.size)
    {
      hide Apart, At, Separate, Linked, Inner;
      ghost var a, b := items, other.items;
      InnerOf(a, node);
      InnerOf(b, other.node);
      if this != other {
        SeparateMeans(this, other);
      }
      var tmp := node.next;
      node.next := other.node.next;
      other.node.next := tmp;
      tmp := node.prev;
      node.prev := other.node.prev;
      other.node.prev := tmp;
      other.CloseRing(a, node);
      CloseRing(b, other.node);
      items, other.items := b, a;
    }

    /** `swap`, with another list or with itself. */
    method Swap(other: List)
      requires Valid() && other.Valid() && (this == other || Separate(other))
      modifies this, items, node, other, other.items, other.node
      ensures Valid() && other.Valid() && items == old(other.items) && other.items == old(items)
    {
      hide Apart, Linked;
      if size == 0 {
        if other.size == 0 {
        } else {
          TakeRing(other);
        }
      } else {
        if other.size == 0 {
          other.TakeRing(this);
        } else {
          SwapRings(other);
        }
      }
      size, other.size := other.size, size;
    }
  }

  lemma OnlyOnce(s: seq<Node>, c: Node, n: nat)
    requires Apart(s, c) && n <= |s|
    ensures forall i | 0 <= i < n :: s[i] !in s[n..] && s[i] != c
  {
  }

  lemma Ends(s: seq<Node>, c: Node)
    requires Apart(s, c) && Linked(s, c)
    ensures c.next == At(s, c, 0) && c.prev == At(s, c, |s| - 1)
    ensures At(s, c, -1) == c && At(s, c, |s|) == c
    ensures if s == [] then c.next == c && c.prev == c
      else c.next == s[0] != c && c.prev == s[|s| - 1] != c
  {
  }

  /** Another node of its own closes the same ring. */
  lemma ReclosedAt(s: seq<Node>, c: Node, d: Node, i: int)
    ensures At(s, d, i) == if 0 <= i < |s| then At(s, c, i) else d
  {
  }

  ghost predicate Inner(s: seq<Node>, c: Node)
    reads s
  {
    forall i | 0 <= i < |s| ::
      (i == 0 || s[i].prev == At(s, c, i - 1)) && (i == |s| - 1 || s[i].next == At(s, c, i + 1))
  }

  lemma Reclosed(s: seq<Node>, c: Node, d: Node)
    requires Inner(s, c)
    requires if s == [] then d.next == d && d.prev == d
      else s[0].prev == d && s[|s| - 1].next == d && d.next == s[0] && d.prev == s[|s| - 1]
    ensures Linked(s, d)
  {
    hide At;
    forall i | 0 <= i < |s|
      ensures s[i].prev == At(s, d, i - 1) && s[i].next == At(s, d, i + 1)
    {
      ReclosedAt(s, c, d, i - 1);
      ReclosedAt(s, c, d, i + 1);
    }
    ReclosedAt(s, c, d, 0);
    ReclosedAt(s, c, d, |s| - 1);
    if s != [] {
      OnlyEnds(s, c);
    }
  }

  lemma OnlyEnds(s: seq<Node>, c: Node)
    requires s != []
    ensures At(s, c, 0) == s[0] && At(s, c, |s| - 1) == s[|s| - 1]
  {
  }

  lemma SeparateMeans(list: List, other: List)
    requires list.Separate(other) && list.items != [] && other.items != []
    ensures var a, b := list.items, other.items;
      && list.node !in b && other.node !in a && list.node != other.node && list != other
      && (forall i | 0 <= i < |a| ::
           a[i] != b[0] && a[i] != b[|b| - 1] && a[i] != other.node)
      && (forall i | 0 <= i < |b| ::
           b[i] != a[0] && b[i] != a[|a| - 1] && b[i] != list.node)
  {
    var a, b := list.items, other.items;
    assert a[0] in a && a[|a| - 1] in a && b[0] in b && b[|b| - 1] in b;
    assert forall i | 0 <= i < |a| :: a[i] in a;
    assert forall i | 0 <= i < |b| :: b[i] in b;
  }

  /** The ring without its own node: what the moves of a list do not touch. */
  lemma InnerOf(s: seq<Node>, c: Node)
    requires Apart(s, c) && Linked(s, c)
    ensures Inner(s, c)
    ensures if s == [] then c.next == c && c.prev == c
      else
        && c.next == s[0] && c.prev == s[|s| - 1]
        && (forall i | 0 <= i < |s| :: s[i] == s[0] <==> i == 0)
        && (forall i | 0 <= i < |s| :: s[i] == s[|s| - 1] <==> i == |s| - 1)
    ensures forall i | 0 <= i < |s| :: s[i] != c
  {
  }

  lemma OnlyOneEnd(s: seq<Node>, c: Node)
    requires Apart(s, c)
    ensures forall i | 0 <= i < |s| :: (s[i] == s[0] <==> i == 0) && (s[i] == s[|s| - 1] <==> i == |s| - 1)
  {
  }

  lemma ApartOther(s: seq<Node>, c: Node, d: Node)
    requires Apart(s, c) && d !in s
    ensures Apart(s, d)
  {
  }

  lemma NoItems(c: Node)
    ensures Apart([], c)
    ensures c.next == c && c.prev == c ==> Linked([], c)
  {
  }

  /** The move constructor of a node that is in no list. */
  method MoveFreeNode(other: Node) returns (x: Node)
    requires other.next == null && other.prev == null
    modifies other
    ensures fresh(x) && x.next == null && x.prev == null && other.next == null && other.prev == null
  {
    x := new Node();
    x.next := other.next;
    x.prev := other.prev;
    other.next := null;
    other.prev := null;
  }

  /** The move constructor of a node in a list: the new node takes the place of `other`. */
  method MoveNode(other: Node, ghost list: List, ghost k: nat) returns (x: Node)
    requires list.Valid() && k < |list.items| && list.items[k] == other
    modifies list, list.items, list.node
    ensures fresh(x) && other.next == null && other.prev == null
    ensures list.Valid() && list.items == old(list.items)[k := x]
  {
    hide Apart, At;
    ghost var was, c := list.items, list.node;
    x := new Node();
    OnlyAt(was, c, k - 1);
    OnlyAt(was, c, k);
    OnlyAt(was, c, k + 1);
    x.next := other.next;
    x.prev := other.prev;
    if x.next != null {
      x.next.prev := x;
    }
    if x.prev != null {
      x.prev.next := x;
    }
    other.next := null;
    other.prev := null;
    ApartReplace(was, c, k, x);
    list.items := was[k := x];
    RelinkedAround(was, c, k, x);
  }

  /** The ring is closed again once the neighbours of place `k` and the new node there agree. */
  lemma RelinkedAround(s: seq<Node>, c: Node, k: nat, x: Node)
    requires k < |s|
    requires x.prev == At(s, c, k - 1) && x.next == At(s, c, k + 1)
    requires forall i | 0 <= i < |s| && i != k ::
      && s[i].prev == (if i == k + 1 then x else At(s, c, i - 1))
      && s[i].next == (if i == k - 1 then x else At(s, c, i + 1))
    requires c.next == (if k == 0 then x else At(s, c, 0))
    requires c.prev == (if k == |s| - 1 then x else At(s, c, |s| - 1))
    ensures Linked(s[k := x], c)
  {
    hide At;
    ReplacedAll(s, c, k, x);
  }

  lemma ReplacedAll(s: seq<Node>, c: Node, k: nat, x: Node)
    requires k < |s|
    ensures var r := s[k := x];
      && (forall i | 0 <= i < |r| ::
           && r[i] == (if i == k then x else s[i])
           && At(r, c, i - 1) == (if i - 1 == k then x else At(s, c, i - 1))
           && At(r, c, i + 1) == (if i + 1 == k then x else At(s, c, i + 1)))
      && At(r, c, 0) == (if k == 0 then x else At(s, c, 0))
      && At(r, c, |r| - 1) == (if k == |s| - 1 then x else At(s, c, |s| - 1))
  {
    hide At;
    forall i | 0 <= i < |s|
      ensures var r := s[k := x];
        && r[i] == (if i == k then x else s[i])
        && At(r, c, i - 1) == (if i - 1 == k then x else At(s, c, i - 1))
        && At(r, c, i + 1) == (if i + 1 == k then x else At(s, c, i + 1))
    {
      ReplacedAt(s, c, k, x, i - 1);
      ReplacedAt(s, c, k, x, i + 1);
    }
    ReplacedAt(s, c, k, x, 0);
    ReplacedAt(s, c, k, x, |s| - 1);
  }

  lemma ApartReplace(s: seq<Node>, c: Node, k: nat, x: Node)
    requires Apart(s, c) && k < |s| && x !in s && x != c
    ensures Apart(s[k := x], c)
  {
  }

  lemma ReplacedAt(s: seq<Node>, c: Node, k: nat, x: Node, i: int)
    requires k < |s|
    ensures At(s[k := x], c, i) == if i == k then x else At(s, c, i)
    ensures 0 <= i < |s| ==> s[k := x][i] == if i == k then x else s[i]
  {
  }
}
