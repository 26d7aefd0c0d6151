/** The singly linked list that holds both the clients and the outgoing messages. */
module LinkedQueue {

  // ----- Lists of (id, data) pairs -----

  type Entry<T> = (nat, T)

  /** Position of the first entry with `id`, or the length of the list. */
  function IndexOf<T>(s: seq<Entry<T>>, id: nat): (i: nat)
    ensures i <= |s|
    ensures i < |s| ==> s[i].0 == id
    ensures forall j | 0 <= j < i :: s[j].0 != id
  {
    if s == [] || s[0].0 == id then 0 else 1 + IndexOf(s[1..], id)
  }

  /** The list without the element at position `n`. */
  function Cut<X>(s: seq<X>, n: nat): (r: seq<X>)
    requires n < |s|
    ensures |r| == |s| - 1 && forall i | 0 <= i < |r| :: r[i] == s[if i < n then i else i + 1]
  {
    s[..n] + s[n + 1..]
  }

  function Removed<T>(s: seq<Entry<T>>, id: nat): seq<Entry<T>> {
    var i := IndexOf(s, id);
    if i == |s| then s else Cut(s, i)
  }

  /** The walk of `delete_client`: from position `k`, remove by id whatever is owned by `fd`. */
  function Walk<T>(s: seq<Entry<T>>, owner: T -> int, fd: int, k: nat): seq<Entry<T>>
    requires k <= |s|
    decreases |s| - k
  {
    if k == |s| then s
    else if owner(s[k].1) == fd then Walk(Removed(s, s[k].0), owner, fd, k)
    else Walk(s, owner, fd, k + 1)
  }

  /** The entries not owned by `fd`, in order. */
  function NotOwned<T>(s: seq<Entry<T>>, owner: T -> int, fd: int): seq<Entry<T>> {
    if s == [] then []
    else (if owner(s[0].1) == fd then [] else [s[0]]) + NotOwned(s[1..], owner, fd)
  }

  ghost predicate DistinctIds<T>(s: seq<Entry<T>>) {
    forall i, j | 0 <= i < j < |s| :: s[i].0 != s[j].0
  }

  /** No entry of `fd` comes after another owner's entry of the same id. */
  ghost predicate Unambiguous<T>(s: seq<Entry<T>>, owner: T -> int, fd: int) {
    forall i, j | 0 <= i < j < |s| && owner(s[i].1) != fd && owner(s[j].1) == fd :: s[i].0 != s[j].0
  }

  /** Everything before position `k` belongs to others. */
  ghost predicate Passed<T>(s: seq<Entry<T>>, owner: T -> int, fd: int, k: nat)
    requires k <= |s|
  {
    forall i | 0 <= i < k :: owner(s[i].1) != fd
  }

  lemma {:induction false} NotOwnedConcat<T>(a: seq<Entry<T>>, b: seq<Entry<T>>, owner: T -> int, fd: int)
    ensures NotOwned(a + b, owner, fd) == NotOwned(a, owner, fd) + NotOwned(b, owner, fd)
  {
    if a == [] {
      assert a + b == b;
    } else {
      assert (a + b)[1..] == a[1..] + b;
      NotOwnedConcat(a[1..], b, owner, fd);
    }
  }

  lemma {:induction false} NotOwnedAll<T>(s: seq<Entry<T>>, owner: T -> int, fd: int)
    requires Passed(s, owner, fd, |s|)
    ensures NotOwned(s, owner, fd) == s
  {
    if s != [] { NotOwnedAll(s[1..], owner, fd); }
  }

  lemma {:induction false} NotOwnedPasses<T>(s: seq<Entry<T>>, owner: T -> int, fd: int)
    ensures Passed(NotOwned(s, owner, fd), owner, fd, |NotOwned(s, owner, fd)|)
  {
    if s != [] { NotOwnedPasses(s[1..], owner, fd); }
  }

  /** Cutting out an entry of `fd` leaves the others alone; cutting out one of theirs loses it. */
  lemma NotOwnedCut<T>(s: seq<Entry<T>>, owner: T -> int, fd: int, k: nat)
    requires k < |s|
    ensures owner(s[k].1) == fd ==> NotOwned(Cut(s, k), owner, fd) == NotOwned(s, owner, fd)
    ensures owner(s[k].1) != fd ==> |NotOwned(Cut(s, k), owner, fd)| == |NotOwned(s, owner, fd)| - 1
  {
    hide NotOwned;
    var a, x, b := s[..k], [s[k]], s[k + 1..];
    assert s == a + (x + b) && Cut(s, k) == a + b;
    NotOwnedConcat(a, x + b, owner, fd);
    NotOwnedConcat(x, b, owner, fd);
    NotOwnedConcat(a, b, owner, fd);
    NotOwnedOne(s[k], owner, fd);
  }

  lemma NotOwnedOne<T>(x: Entry<T>, owner: T -> int, fd: int)
    ensures NotOwned([x], owner, fd) == if owner(x.1) == fd then [] else [x]
  {
    assert [x][1..] == [];
  }

  lemma {:induction false} WalkNeverGains<T>(s: seq<Entry<T>>, owner: T -> int, fd: int, k: nat)
    requires k <= |s|
    ensures |NotOwned(Walk(s, owner, fd, k), owner, fd)| <= |NotOwned(s, owner, fd)|
    decreases |s| - k
  {
    hide NotOwned, IndexOf, Cut;
    if k < |s| {
      if owner(s[k].1) == fd {
        var j := IndexOf(s, s[k].0);
        NotOwnedCut(s, owner, fd, j);
        WalkNeverGains(Cut(s, j), owner, fd, k);
      } else {
        WalkNeverGains(s, owner, fd, k + 1);
      }
    }
  }

  /** Without an ambiguous id the walk unlinks what it stands on. */
  lemma {:induction false} WalkKeepsOthers<T>(s: seq<Entry<T>>, owner: T -> int, fd: int, k: nat)
    requires k <= |s| && Unambiguous(s, owner, fd) && Passed(s, owner, fd, k)
    ensures Walk(s, owner, fd, k) == NotOwned(s, owner, fd)
    decreases |s| - k
  {
    hide NotOwned, IndexOf;
    if k == |s| {
      NotOwnedAll(s, owner, fd);
    } else if owner(s[k].1) == fd {
      var r := Cut(s, k);
      assert IndexOf(s, s[k].0) == k;
      assert Unambiguous(r, owner, fd) by {
        forall i, j | 0 <= i < j < |r| && owner(r[i].1) != fd && owner(r[j].1) == fd ensures r[i].0 != r[j].0 {
          assert s[if i < k then i else i + 1].0 != s[if j < k then j else j + 1].0;
        }
      }
      NotOwnedCut(s, owner, fd, k);
      WalkKeepsOthers(r, owner, fd, k);
    } else {
      WalkKeepsOthers(s, owner, fd, k + 1);
    }
  }

  /** Entry `j` of `fd` after another owner's entry `i` of the same id: the walk loses somebody's entry. */
  lemma {:induction false} WalkLosesOne<T>(s: seq<Entry<T>>, owner: T -> int, fd: int, k: nat, i: nat, j: nat)
    requires k <= |s| && Passed(s, owner, fd, k) && i < j < |s| && k <= j
    requires owner(s[i].1) != fd && owner(s[j].1) == fd && s[i].0 == s[j].0
    ensures |NotOwned(Walk(s, owner, fd, k), owner, fd)| < |NotOwned(s, owner, fd)|
    decreases |s| - k
  {
    hide NotOwned, IndexOf;
    if owner(s[k].1) == fd {
      var n := IndexOf(s, s[k].0);
      var r := Cut(s, n);
      NotOwnedCut(s, owner, fd, n);
      if n < k {
        WalkNeverGains(r, owner, fd, k);
      } else {
        assert n == k != j;
        WalkLosesOne(r, owner, fd, k, if i < k then i else i - 1, j - 1);
      }
    } else {
      WalkLosesOne(s, owner, fd, k + 1, i, j);
    }
  }

  /**
   Removing by id while iterating leaves exactly the other owners' entries, in order, if and only if
   no entry to be removed comes after another owner's entry of the same id.
   */
  lemma WalkIffUnambiguous<T>(s: seq<Entry<T>>, owner: T -> int, fd: int)
    ensures Walk(s, owner, fd, 0) == NotOwned(s, owner, fd) <==> Unambiguous(s, owner, fd)
  {
    hide Walk, NotOwned;
    var others := NotOwned(s, owner, fd);
    NotOwnedPasses(s, owner, fd);
    NotOwnedAll(others, owner, fd);
    if Unambiguous(s, owner, fd) {
      WalkKeepsOthers(s, owner, fd, 0);
    } else {
      var i, j :| 0 <= i < j < |s| && owner(s[i].1) != fd && owner(s[j].1) == fd && s[i].0 == s[j].0;
      WalkLosesOne(s, owner, fd, 0, i, j);
    }
  }

  /** With distinct ids the walk removes exactly what `fd` owns and keeps the rest in order. */
  lemma WalkIsFilter<T>(s: seq<Entry<T>>, owner: T -> int, fd: int)
    requires DistinctIds(s)
    ensures Walk(s, owner, fd, 0) == NotOwned(s, owner, fd)
  {
    hide Walk, NotOwned;
    WalkIffUnambiguous(s, owner, fd);
  }

  /** With a repeated id the walk can take another owner's entry and leave its own. */
  lemma WalkNeedsDistinctIds()
    ensures var s := [(7, 1), (7, 2)];
            Walk(s, (d: int) => d, 2, 0) == [(7, 2)] && NotOwned(s, (d: int) => d, 2) == [(7, 1)]
  {
    var s, own := [(7, 1), (7, 2)], (d: int) => d;
    assert Removed(s, 7) == [(7, 2)];
    assert Walk(s, own, 2, 0) == Walk(s, own, 2, 1) == Walk([(7, 2)], own, 2, 1) == [(7, 2)];
    assert s[1..] == [(7, 2)] && [(7, 2)][1..] == [];
    assert NotOwned([(7, 2)], own, 2) == [];
  }

  // ----- The list on the heap -----

  class Item<T> {
    const id: nat
    var data: T
    var next: Item?<T>

    constructor (id: nat, data: T)
      ensures this.id == id && this.data == data && next == null
    {
      this.id, this.data, next := id, data, null;
    }
  }

  class Queue<T> {
    var first: Item?<T>
    ghost var items: seq<Item<T>>

    ghost predicate Valid()
      reads this, items
    {
      && (forall i, j | 0 <= i < j < |items| :: items[i] != items[j])
      && first == At(0)
      && (forall i | 0 <= i < |items| :: items[i].next == At(i + 1))
    }

    /** The node at position `i`, null past the end. */
    ghost function At(i: nat): Item?<T>
      reads this
    {
      if i < |items| then items[i] else null
    }

    ghost function Contents(): (s: seq<Entry<T>>)
      reads this, items
      ensures |s| == |items| && forall i | 0 <= i < |items| :: s[i] == (items[i].id, items[i].data)
    {
      seq(|items|, i requires 0 <= i < |items| reads this, items => (items[i].id, items[i].data))
    }

    constructor ()
      ensures Valid() && items == []
    {
      first := null;
      items := [];
    }

    method Length() returns (n: nat)
      requires Valid()
      ensures n == |items|
    {
      n := 0;
      var item := first;
      while item != null
        invariant n <= |items| && item == At(n)
        decreases |items| - n
      {
        n := n + 1;
        item := item.next;
      }
    }

    method Last() returns (item: Item?<T>)
      requires Valid()
      ensures item == if items == [] then null else items[|items| - 1]
    {
      item := first;
      if item == null {
        return;
      }
      ghost var n := 0;
      while item.next != null
        invariant n < |items| && item == items[n]
        decreases |items| - n
      {
        item := item.next;
        n := n + 1;
      }
    }

    method Add(item: Item<T>)
      requires Valid() && item !in items && item.next == null
      modifies this, (set x | x in items)`next
      ensures Valid() && items == old(items) + [item]
      ensures Contents() == old(Contents()) + [(item.id, item.data)]
    {
      hide Contents;
      var last := Last();
      if last == null {
        first := item;
      } else {
        last.next := item;
      }
      items := items + [item];
    }

    method Get(id: nat) returns (item: Item?<T>)
      requires Valid()
      ensures item == At(IndexOf(Contents(), id))
    {
      hide Contents, IndexOf;
      item := first;
      ghost var n := 0;
      while item != null && item.id != id
        invariant n <= |items| && item == At(n)
        invariant forall j | 0 <= j < n :: items[j].id != id
        decreases |items| - n
      {
        item := item.next;
        n := n + 1;
      }
      assert forall j | 0 <= j < n :: Contents()[j].0 != id;
      assert n < |items| ==> Contents()[n].0 == id;
      assert n == IndexOf(Contents(), id);
    }

    method UnlinkFirst(node: Item<T>)
      requires Valid() && items != [] && node == items[0]
      modifies this
      ensures Valid() && items == Cut(old(items), 0)
      ensures Contents() == Cut(old(Contents()), 0)
    {
      hide Contents, Cut;
      first := node.next;
      items := Cut(items, 0);
    }

    /** Bridges the node at position `n`, whose predecessor is `last`. */
    method UnlinkNext(last: Item<T>, node: Item<T>, ghost n: nat)
      requires Valid() && 1 <= n < |items| && last == items[n - 1] && node == items[n]
      modifies `items, last`next
      ensures Valid() && items == Cut(old(items), n)
      ensures Contents() == Cut(old(Contents()), n)
    {
      hide Contents, Cut;
      last.next := node.next;
      items := Cut(items, n);
    }

    /** Unlinks the first node with `id`; null and no change if there is none. */
    method Remove(id: nat) returns (item: Item?<T>)
      requires Valid()
      modifies this, (set x | x in items)`next
      ensures Valid() && Contents() == Removed(old(Contents()), id)
      ensures item == old(At(IndexOf(Contents(), id)))
      ensures var j := IndexOf(old(Contents()), id);
              items == if j < |old(items)| then Cut(old(items), j) else old(items)
    {
      hide Contents, IndexOf, Cut;
      ghost var c := Contents();
      var last := first;
      if last == null {
        return null;
      }
      if last.id == id {
        assert c[0].0 == id;
        UnlinkFirst(last);
        return last;
      }
      assert c[0].0 != id;
      item := last.next;
      ghost var n := 1;
      while item != null && item.id != id
        invariant 1 <= n <= |items| && last == items[n - 1] && item == At(n)
        invariant forall j | 0 <= j < n :: c[j].0 != id
        decreases |items| - n
      {
        assert c[n].0 != id;
        last := item;
        item := item.next;
        n := n + 1;
      }
      if item != null {
        assert c[n].0 == id && IndexOf(c, id) == n;
        UnlinkNext(last, item, n);
      }
    }

    /** `queue_destroy`: removes by the first id until nothing is left. */
    method Destroy()
      requires Valid()
      modifies this, (set x | x in items)`next
      ensures Valid() && items == [] && first == null
    {
      while first != null
        invariant Valid() && forall x | x in items :: x in old(items)
        decreases |items|
      {
        assert Contents()[0].0 == first.id;
        var gone := Remove(first.id);
      }
    }

    /** The loop of `delete_client`: it steps on before it unlinks, and it unlinks by id. */
    method DropOwned(owner: T -> int, fd: int)
      requires Valid()
      modifies this, (set x | x in items)`next
      ensures Valid() && Contents() == Walk(old(Contents()), owner, fd, 0)
      ensures Contents() == NotOwned(old(Contents()), owner, fd) <==> Unambiguous(old(Contents()), owner, fd)
    {
      hide Removed, Unambiguous, NotOwned, Contents, IndexOf, Cut;
      ghost var c := Contents();
      var item := first;
      ghost var k := 0;
      while item != null
        invariant Valid() && k <= |items| && item == At(k)
        invariant forall x | x in items :: x in old(items)
        invariant Walk(c, owner, fd, 0) == Walk(Contents(), owner, fd, k)
        decreases |items| - k
      {
        assert Contents()[k] == (item.id, item.data);
        if owner(item.data) == fd {
          var id := item.id;
          item := item.next;
          var gone := Remove(id);
        } else {
          item := item.next;
          k := k + 1;
        }
      }
      WalkIffUnambiguous(c, owner, fd);
    }
  }
}
