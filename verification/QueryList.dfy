/** The resolver's list of active queries: a doubly linked list without a sentinel. */
module QueryList {
  import opened Sequences

  class Query {
    var next: Query?
    var prev: Query?
    var deadline: int
  }

  function At(items: seq<Query>, i: int): Query? {
    if 0 <= i < |items| then items[i] else null
  }

  ghost predicate Distinct(items: seq<Query>) {
    forall i, j | 0 <= i < j < |items| :: items[i] != items[j]
  }

  /** The links follow the order of the items. */
  ghost predicate Linked(items: seq<Query>)
    reads items`next, items`prev
  {
    forall i | 0 <= i < |items| :: items[i].prev == At(items, i - 1) && items[i].next == At(items, i + 1)
  }

  lemma RemovedAt(s: seq<Query>, k: nat, i: int)
    requires k < |s|
    ensures At(Without(s, k), i) == At(s, if i < k then i else i + 1)
    ensures 0 <= i < |s| - 1 ==> Without(s, k)[i] == s[if i < k then i else i + 1]
  {
  }

  lemma InsertedAt(s: seq<Query>, n: nat, q: Query, i: int)
    requires n <= |s|
    ensures At(With(s, n, q), i) ==
      if i == n then q else At(s, if i < n then i else i - 1)
    ensures 0 <= i <= |s| ==> With(s, n, q)[i] == if i == n then q else s[if i < n then i else i - 1]
  {
  }

  lemma OnlyAt(s: seq<Query>, k: int)
    requires Distinct(s)
    ensures forall i | 0 <= i < |s| :: s[i] == At(s, k) <==> i == k
    ensures if 0 <= k < |s| then At(s, k) == s[k] else At(s, k) == null
  {
  }

  lemma DistinctRemove(s: seq<Query>, k: nat)
    requires Distinct(s) && k < |s|
    ensures Distinct(Without(s, k))
  {
  }

  lemma DistinctInsert(s: seq<Query>, n: nat, q: Query)
    requires Distinct(s) && n <= |s| && q !in s
    ensures Distinct(With(s, n, q))
  {
  }

  ghost function Deadlines(s: seq<Query>): (d: seq<int>)
    reads s`deadline
    ensures |d| == |s| && forall i | 0 <= i < |s| :: d[i] == s[i].deadline
  {
    if s == [] then [] else Deadlines(s[..|s| - 1]) + [s[|s| - 1].deadline]
  }

  ghost predicate Sorted(s: seq<Query>)
    reads s`deadline
  {
    forall i, j | 0 <= i < j < |s| :: s[i].deadline <= s[j].deadline
  }

  /** What `MoveToPlace` ensures about the place is what keeps a sorted list sorted. */
  lemma SortedWith(s: seq<Query>, n: nat, q: Query)
    requires Sorted(s) && n <= |s|
    requires n > 0 ==> s[n - 1].deadline <= q.deadline
    requires forall i | n <= i < |s| :: q.deadline < s[i].deadline
    ensures Sorted(With(s, n, q))
  {
    hide With;
    var r := With(s, n, q);
    forall i, j | 0 <= i < j < |r|
      ensures r[i].deadline <= r[j].deadline
    {
      InsertedAt(s, n, q, i);
      InsertedAt(s, n, q, j);
    }
  }

  lemma SortedWithout(s: seq<Query>, k: nat)
    requires Sorted(s) && k < |s|
    ensures Sorted(Without(s, k))
  {
    hide Without;
    var r := Without(s, k);
    forall i, j | 0 <= i < j < |r|
      ensures r[i].deadline <= r[j].deadline
    {
      RemovedAt(s, k, i);
      RemovedAt(s, k, j);
    }
  }

  class List {
    var head: Query?
    var tail: Query?
    ghost var items: seq<Query>

    ghost predicate Valid()
      reads this, items
    {
      && Distinct(items)
      && Linked(items)
      && head == At(items, 0)
      && tail == At(items, |items| - 1)
    }

    /** `qlist_init`. */
    constructor ()
      ensures Valid() && items == []
    {
      head, tail, items := null, null, [];
    }

    /** `qlist_remove`, for the query at place `k`. */
    method Remove(q: Query, ghost k: nat)
      requires Valid() && k < |items| && items[k] == q
      modifies this, items`next, items`prev
      ensures Valid() && items == Without(old(items), k)
    {
      hide Distinct, Without, At;
      ghost var was := items;
      OnlyAt(was, k - 1);
      OnlyAt(was, k + 1);
      DistinctRemove(was, k);
      if q.prev != null {
        q.prev.next := q.next;
      } else {
        head := q.next;
      }
      if q.next != null {
        q.next.prev := q.prev;
      } else {
        tail := q.prev;
      }
      items := Without(was, k);
      forall i | 0 <= i < |items|
        ensures items[i].prev == At(items, i - 1) && items[i].next == At(items, i + 1)
      {
        RemovedAt(was, k, i - 1);
        RemovedAt(was, k, i);
        RemovedAt(was, k, i + 1);
      }
      RemovedAt(was, k, 0);
      RemovedAt(was, k, |items| - 1);
    }

    /** `qlist_add_head`. */
    method AddHead(q: Query)
      requires Valid() && q !in items
      modifies this, items`prev, q`next, q`prev
      ensures Valid() && items == With(old(items), 0, q)
    {
      hide Distinct, With, At;
      ghost var was := items;
      OnlyAt(was, -1);
      OnlyAt(was, 0);
      DistinctInsert(was, 0, q);
      q.next := head;
      if head != null {
        head.prev := q;
      } else {
        tail := q;
      }
      head := q;
      q.prev := null;
      items := With(was, 0, q);
      Spliced(was, 0, q);
    }

    /** `qlist_insert_after`: behind the query at place `n - 1`, or at the head if there is none. */
    method InsertAfter(q: Query, p: Query?, ghost n: nat)
      requires Valid() && q !in items && n <= |items| && p == At(items, n - 1)
      modifies this, items`prev, items`next, q`next, q`prev
      ensures Valid() && items == With(old(items), n, q)
    {
      hide Distinct, With, At;
      ghost var was := items;
      OnlyAt(was, n - 1);
      OnlyAt(was, n);
      DistinctInsert(was, n, q);
      if p != null {
        q.prev := p;
        q.next := p.next;
        if q.next != null {
          q.next.prev := q;
        } else {
          tail := q;
        }
        p.next := q;
        items := With(was, n, q);
        Spliced(was, n, q);
      } else {
        AddHead(q);
      }
    }

    /** The search in `dns_send_this`, from the tail. */
    method FindPlace(deadline: int) returns (p: Query?, ghost n: nat)
      requires Valid()
      ensures n <= |items| && p == At(items, n - 1)
      ensures p != null ==> p.deadline <= deadline
      ensures forall i | n <= i < |items| :: deadline < items[i].deadline
    {
      hide Distinct, At;
      OnlyAt(items, |items| - 1);
      n := |items|;
      p := tail;
      while p != null
        invariant n <= |items| && p == At(items, n - 1)
        invariant forall i | n <= i < |items| :: deadline < items[i].deadline
        decreases n
      {
        OnlyAt(items, n - 1);
        if p.deadline <= deadline {
          return;
        }
        p := p.prev;
        n := n - 1;
      }
    }

    /** The move in `dns_send_this`: behind the last query that is due no later. */
    method MoveToPlace(q: Query, ghost k: nat) returns (ghost n: nat)
      requires Valid() && k < |items| && items[k] == q
      modifies this, items`prev, items`next
      ensures Valid() && n < |old(items)| && items == With(Without(old(items), k), n, q)
      ensures n > 0 ==> items[n - 1].deadline <= q.deadline
      ensures forall i | n < i < |items| :: q.deadline < items[i].deadline
    {
      hide Distinct, With, At, Linked;
      ghost var was := items;
      RemovedMembers(was, k);
      Remove(q, k);
      ghost var rest := items;
      var p;
      p, n := FindPlace(q.deadline);
      OnlyAt(rest, n - 1);
      InsertAfter(q, p, n);
      forall i | n < i < |items|
        ensures q.deadline < items[i].deadline
      {
        InsertedAt(rest, n, q, i);
      }
      if n > 0 {
        InsertedAt(rest, n, q, n - 1);
      }
    }

    /** The list is linked both ways, and whoever is due first is at the head. */
    ghost predicate InOrder()
      reads this, items
    {
      Valid() && Sorted(items)
    }

    /** `dns_submit_dn` puts a query that is due before all others at the head. */
    method Submit(q: Query)
      requires InOrder() && q !in items && forall i | 0 <= i < |items| :: q.deadline <= items[i].deadline
      modifies this, items`prev, q`next, q`prev
      ensures InOrder() && items == With(old(items), 0, q)
    {
      hide Distinct, Linked, At, With;
      ghost var was := items;
      AddHead(q);
      forall i, j | 0 <= i < j < |items|
        ensures items[i].deadline <= items[j].deadline
      {
        InsertedAt(was, 0, q, i);
        InsertedAt(was, 0, q, j);
      }
    }

    /** `dns_send_this` gives a query a new deadline and moves it. */
    method Resend(q: Query, deadline: int, ghost k: nat) returns (ghost n: nat)
      requires InOrder() && k < |items| && items[k] == q
      modifies this, items`prev, items`next, q`deadline
      ensures InOrder() && q.deadline == deadline
      ensures n < |old(items)| && items == With(Without(old(items), k), n, q)
      ensures forall i | n < i < |items| :: deadline < items[i].deadline
    {
      hide Distinct, Linked, At, With, Without;
      ghost var rest := Without(items, k);
      SortedWithout(items, k);
      RemovedMembers(items, k);
      q.deadline := deadline;
      assert Sorted(rest);
      n := MoveToPlace(q, k);
      PlaceInRest(rest, n, q);
      SortedWith(rest, n, q);
    }

    /** `dns_end_query` and `dns_cancel` take a query out. */
    method TakeOut(q: Query, ghost k: nat)
      requires InOrder() && k < |items| && items[k] == q
      modifies this, items`prev, items`next
      ensures InOrder() && items == Without(old(items), k)
    {
      hide Distinct, Linked, At, Without;
      ghost var rest := Without(items, k);
      SortedWithout(items, k);
      RemovedMembers(items, k);
      ghost var was := Deadlines(rest);
      Remove(q, k);
      assert Deadlines(rest) == was;
    }
  }

  lemma PlaceInRest(rest: seq<Query>, n: nat, q: Query)
    requires n <= |rest|
    requires var s := With(rest, n, q);
      (n > 0 ==> s[n - 1].deadline <= q.deadline) && forall i | n < i < |s| :: q.deadline < s[i].deadline
    ensures n > 0 ==> rest[n - 1].deadline <= q.deadline
    ensures forall i | n <= i < |rest| :: q.deadline < rest[i].deadline
  {
    hide With;
    if n > 0 {
      InsertedAt(rest, n, q, n - 1);
    }
    forall i | n <= i < |rest|
      ensures q.deadline < rest[i].deadline
    {
      InsertedAt(rest, n, q, i + 1);
    }
  }

  lemma RemovedMembers(s: seq<Query>, k: nat)
    requires Distinct(s) && k < |s|
    ensures s[k] !in Without(s, k) && forall q | q in Without(s, k) :: q in s
  {
  }

  lemma SplicedAt(s: seq<Query>, n: nat, q: Query, i: nat)
    requires n <= |s| && i <= |s|
    ensures var r := With(s, n, q);
      && r[i] == (if i == n then q else s[if i < n then i else i - 1])
      && At(r, i - 1) == (if i - 1 == n then q else At(s, if i - 1 < n then i - 1 else i - 2))
      && At(r, i + 1) == (if i + 1 == n then q else At(s, if i + 1 < n then i + 1 else i))
  {
    hide With, At;
    InsertedAt(s, n, q, i - 1);
    InsertedAt(s, n, q, i);
    InsertedAt(s, n, q, i + 1);
  }

  /** What remains to be seen after a splice: every place of the new list at once. */
  lemma Spliced(s: seq<Query>, n: nat, q: Query)
    requires n <= |s|
    ensures var r := With(s, n, q);
      && (forall i | 0 <= i < |r| ::
           && r[i] == (if i == n then q else s[if i < n then i else i - 1])
           && At(r, i - 1) == (if i - 1 == n then q else At(s, if i - 1 < n then i - 1 else i - 2))
           && At(r, i + 1) == (if i + 1 == n then q else At(s, if i + 1 < n then i + 1 else i)))
      && At(r, 0) == (if n == 0 then q else At(s, 0))
      && At(r, |r| - 1) == (if n == |s| then q else At(s, |s| - 1))
  {
    hide With, At;
    forall i | 0 <= i < |s| + 1
      ensures var r := With(s, n, q);
        && r[i] == (if i == n then q else s[if i < n then i else i - 1])
        && At(r, i - 1) == (if i - 1 == n then q else At(s, if i - 1 < n then i - 1 else i - 2))
        && At(r, i + 1) == (if i + 1 == n then q else At(s, if i + 1 < n then i + 1 else i))
    {
      SplicedAt(s, n, q, i);
    }
    InsertedAt(s, n, q, 0);
    InsertedAt(s, n, q, |s|);
  }
}
