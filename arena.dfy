/**
 * The doubly linked recency list stored in an arena of slots addressed by integer
 * handles, with the key-to-handle lookup table beside it. Everything here is about
 * the slots as a value (`seq<Node<V>>`); the cache class in lru.dfy keeps them in a
 * field, allocates a node by appending a slot, and uses these lemmas after each
 * update of a node's links.
 */
module Arena {
  import opened Recency

  /** The null handle: no neighbour, or an empty list. */
  const Nil: int := -1

  /** A slot of the arena: the entry it holds and the handles of its neighbours
      towards the head (`prev`) and towards the tail (`next`). */
  datatype Node<V> = Node(entry: Entry<V>, prev: int, next: int)

  predicate InRange<V>(a: seq<Node<V>>, order: seq<int>)
  {
    forall i :: 0 <= i < |order| ==> 0 <= order[i] < |a|
  }

  /** `order` lists distinct handles of `a` from head to tail, and the links of those
      slots, with `head` and `tail`, spell exactly that list in both directions:
      the head has no `prev`, the tail has no `next`. */
  predicate Linked<V>(a: seq<Node<V>>, order: seq<int>, head: int, tail: int)
  {
    InRange(a, order) &&
    (forall i, j :: 0 <= i < j < |order| ==> order[i] != order[j]) &&
    head == (if order == [] then Nil else order[0]) &&
    tail == (if order == [] then Nil else order[|order| - 1]) &&
    (forall i :: 0 <= i < |order| ==> a[order[i]].next == if i + 1 < |order| then order[i + 1] else Nil) &&
    (forall i :: 0 <= i < |order| ==> a[order[i]].prev == if i == 0 then Nil else order[i - 1])
  }

  /** The entries held by the listed slots, head first. */
  function EntriesOf<V>(a: seq<Node<V>>, order: seq<int>): seq<Entry<V>>
    requires InRange(a, order)
  {
    seq(|order|, i requires 0 <= i < |order| => a[order[i]].entry)
  }

  /** The lookup table maps every live key to the handle of the slot holding it,
      and holds no other key. */
  predicate Indexed<V>(a: seq<Node<V>>, order: seq<int>, cache: map<string, int>)
  {
    (forall k :: k in cache ==> 0 <= cache[k] < |a| && cache[k] in order && a[cache[k]].entry.key == k) &&
    (forall i :: 0 <= i < |order| ==> 0 <= order[i] < |a| && a[order[i]].entry.key in cache &&
                                      cache[a[order[i]].entry.key] == order[i])
  }

  /** The head after unlinking slot `h`. */
  function HeadAfterUnlink<V>(a: seq<Node<V>>, head: int, h: int): int
    requires 0 <= h < |a|
  {
    if a[h].prev == Nil then a[h].next else head
  }

  /** The tail after unlinking slot `h`. */
  function TailAfterUnlink<V>(a: seq<Node<V>>, tail: int, h: int): int
    requires 0 <= h < |a|
  {
    if a[h].next == Nil then a[h].prev else tail
  }

  /** The slots after unlinking `h`: its neighbours now point at each other. */
  function Unlinked<V>(a: seq<Node<V>>, h: int): seq<Node<V>>
    requires 0 <= h < |a|
    requires a[h].prev == Nil || 0 <= a[h].prev < |a|
    requires a[h].next == Nil || 0 <= a[h].next < |a|
  {
    var p, n := a[h].prev, a[h].next;
    var a1 := if p == Nil then a else a[p := a[p].(next := n)];
    if n == Nil then a1 else a1[n := a1[n].(prev := p)]
  }

  /** The slots after storing `e` in the unlinked slot `h` and linking it in front of `head`. */
  function PushedFront<V>(a: seq<Node<V>>, head: int, h: int, e: Entry<V>): seq<Node<V>>
    requires 0 <= h < |a| && (head == Nil || 0 <= head < |a|)
  {
    var a1 := a[h := Node(e, Nil, head)];
    if head == Nil then a1 else a1[head := a1[head].(prev := h)]
  }

  /** The links of the slot at position `i` of the list. */
  lemma LinksAt<V>(a: seq<Node<V>>, order: seq<int>, head: int, tail: int, i: nat)
    requires Linked(a, order, head, tail) && i < |order|
    ensures 0 <= order[i] < |a|
    ensures a[order[i]].next == if i + 1 < |order| then order[i + 1] else Nil
    ensures a[order[i]].prev == if i == 0 then Nil else order[i - 1]
  {
  }

  /** Unlinking slot `h` rewrites the `next` of its predecessor and the `prev` of
      its successor, and nothing else. */
  lemma UnlinkedSlots<V>(a: seq<Node<V>>, h: int, x: int)
    requires 0 <= h < |a| && 0 <= x < |a|
    requires a[h].prev == Nil || 0 <= a[h].prev < |a|
    requires a[h].next == Nil || 0 <= a[h].next < |a|
    requires a[h].prev == Nil || a[h].prev != a[h].next
    ensures |Unlinked(a, h)| == |a|
    ensures Unlinked(a, h)[x].entry == a[x].entry
    ensures Unlinked(a, h)[x] == if x == a[h].prev then a[x].(next := a[h].next)
                                else if x == a[h].next then a[x].(prev := a[h].prev)
                                else a[x]
  {
  }

  /** After unlinking the slot at position `i`, the slot at position `j` of the
      shortened list links to its new neighbours. */
  lemma UnlinkedLinksAt<V>(a: seq<Node<V>>, order: seq<int>, head: int, tail: int, i: nat, j: nat)
    requires Linked(a, order, head, tail) && i < |order| && j + 1 < |order|
    ensures 0 <= order[i] < |a|
    ensures a[order[i]].prev == Nil || 0 <= a[order[i]].prev < |a|
    ensures a[order[i]].next == Nil || 0 <= a[order[i]].next < |a|
    ensures 0 <= Without(order, i)[j] < |Unlinked(a, order[i])|
    ensures Unlinked(a, order[i])[Without(order, i)[j]].next
            == if j + 1 < |order| - 1 then Without(order, i)[j + 1] else Nil
    ensures Unlinked(a, order[i])[Without(order, i)[j]].prev
            == if j == 0 then Nil else Without(order, i)[j - 1]
  {
    var h := order[i];
    LinksAt(a, order, head, tail, i);
    var o := Without(order, i);
    var k := if j < i then j else j + 1;
    assert o[j] == order[k];
    LinksAt(a, order, head, tail, k);
    UnlinkedSlots(a, h, order[k]);
    if j + 1 < |o| {
      assert o[j + 1] == order[if j + 1 < i then j + 1 else j + 2];
    }
    if j > 0 {
      assert o[j - 1] == order[if j - 1 < i then j - 1 else j];
    }
  }

  /** Dropping a position from a list of distinct handles of `a` leaves a list of
      distinct handles of any arena of the same size. */
  lemma WithoutDistinct<V>(a: seq<Node<V>>, a': seq<Node<V>>, order: seq<int>, i: nat)
    requires InRange(a, order) && |a'| == |a| && i < |order|
    requires forall x, y :: 0 <= x < y < |order| ==> order[x] != order[y]
    ensures InRange(a', Without(order, i))
    ensures forall x, y :: 0 <= x < y < |Without(order, i)| ==> Without(order, i)[x] != Without(order, i)[y]
  {
  }

  /** Unlinking the slot at position `i` of the list leaves the list without that
      position, correctly linked both ways, with head and tail moved when the slot was
      either. */
  lemma UnlinkSpec<V>(a: seq<Node<V>>, order: seq<int>, head: int, tail: int, i: nat)
    requires Linked(a, order, head, tail) && i < |order|
    ensures 0 <= order[i] < |a|
    ensures a[order[i]].prev == Nil || 0 <= a[order[i]].prev < |a|
    ensures a[order[i]].next == Nil || 0 <= a[order[i]].next < |a|
    ensures Linked(Unlinked(a, order[i]), Without(order, i),
                   HeadAfterUnlink(a, head, order[i]), TailAfterUnlink(a, tail, order[i]))
  {
    var h := order[i];
    LinksAt(a, order, head, tail, i);
    var a' := Unlinked(a, h);
    var o := Without(order, i);
    forall j | 0 <= j < |o|
      ensures a'[o[j]].next == if j + 1 < |o| then o[j + 1] else Nil
      ensures a'[o[j]].prev == if j == 0 then Nil else o[j - 1]
    {
      UnlinkedLinksAt(a, order, head, tail, i, j);
    }
    WithoutDistinct(a, a', order, i);
    assert Linked(a', o, HeadAfterUnlink(a, head, h), TailAfterUnlink(a, tail, h));
  }

  /** Unlinking changes no slot's entry: the entries of the shortened list are the old
      entries without position `i`. */
  lemma UnlinkEntries<V>(a: seq<Node<V>>, order: seq<int>, head: int, tail: int, i: nat)
    requires Linked(a, order, head, tail) && i < |order|
    ensures 0 <= order[i] < |a|
    ensures a[order[i]].prev == Nil || 0 <= a[order[i]].prev < |a|
    ensures a[order[i]].next == Nil || 0 <= a[order[i]].next < |a|
    ensures |Unlinked(a, order[i])| == |a|
    ensures forall x :: 0 <= x < |a| ==> Unlinked(a, order[i])[x].entry == a[x].entry
    ensures InRange(Unlinked(a, order[i]), Without(order, i))
    ensures EntriesOf(Unlinked(a, order[i]), Without(order, i)) == Without(EntriesOf(a, order), i)
  {
    var h := order[i];
    LinksAt(a, order, head, tail, i);
    if i > 0 && i + 1 < |order| {
      assert order[i - 1] != order[i + 1];
    }
    var a' := Unlinked(a, h);
    forall x | 0 <= x < |a| ensures a'[x].entry == a[x].entry {
      UnlinkedSlots(a, h, x);
    }
    var o := Without(order, i);
    var ea, eo := EntriesOf(a, order), EntriesOf(a', o);
    forall j | 0 <= j < |eo| ensures eo[j] == Without(ea, i)[j] {
      assert o[j] == order[if j < i then j else j + 1];
    }
  }

  /** Storing `e` in the unlisted slot `h` and linking it at the head makes `h` the new head
      (and the tail too when the list was empty); the other entries keep their order. */
  lemma PushFrontSpec<V>(a: seq<Node<V>>, order: seq<int>, head: int, tail: int, h: int, e: Entry<V>)
    requires Linked(a, order, head, tail) && 0 <= h < |a| && h !in order
    ensures head == Nil || 0 <= head < |a|
    ensures Linked(PushedFront(a, head, h, e), [h] + order, h, if head == Nil then h else tail)
    ensures |PushedFront(a, head, h, e)| == |a|
    ensures PushedFront(a, head, h, e)[h].entry == e
    ensures forall x :: 0 <= x < |a| && x != h ==> PushedFront(a, head, h, e)[x].entry == a[x].entry
    ensures EntriesOf(PushedFront(a, head, h, e), [h] + order) == [e] + EntriesOf(a, order)
  {
    var a' := PushedFront(a, head, h, e);
    var o := [h] + order;
    forall j | 0 <= j < |o|
      ensures a'[o[j]].next == if j + 1 < |o| then o[j + 1] else Nil
      ensures a'[o[j]].prev == if j == 0 then Nil else o[j - 1]
    {
      PushedLinksAt(a, order, head, tail, h, e, j);
    }
    assert Linked(a', o, h, if head == Nil then h else tail);
    PushFrontEntries(a, order, head, tail, h, e);
  }

  /** After pushing slot `h` in front, the slot at position `j` of the longer list
      links to its neighbours there. */
  lemma PushedLinksAt<V>(a: seq<Node<V>>, order: seq<int>, head: int, tail: int, h: int,
                         e: Entry<V>, j: nat)
    requires Linked(a, order, head, tail) && 0 <= h < |a| && h !in order && j <= |order|
    ensures head == Nil || 0 <= head < |a|
    ensures 0 <= ([h] + order)[j] < |PushedFront(a, head, h, e)|
    ensures PushedFront(a, head, h, e)[([h] + order)[j]].next
            == if j < |order| then ([h] + order)[j + 1] else Nil
    ensures PushedFront(a, head, h, e)[([h] + order)[j]].prev
            == if j == 0 then Nil else ([h] + order)[j - 1]
  {
    var o := [h] + order;
    if j == 0 && |order| > 0 {
      assert o[1] == order[0];
    }
    if j > 0 {
      assert o[j] == order[j - 1] != h;
      LinksAt(a, order, head, tail, j - 1);
      if j < |order| {
        assert o[j + 1] == order[j];
      }
      if j > 1 {
        assert o[j - 1] == order[j - 2];
      }
    }
  }

  /** Pushing slot `h` in front changes no other slot's entry and puts `e` in front of
      the listed entries. */
  lemma PushFrontEntries<V>(a: seq<Node<V>>, order: seq<int>, head: int, tail: int, h: int, e: Entry<V>)
    requires Linked(a, order, head, tail) && 0 <= h < |a| && h !in order
    ensures head == Nil || 0 <= head < |a|
    ensures |PushedFront(a, head, h, e)| == |a|
    ensures PushedFront(a, head, h, e)[h].entry == e
    ensures forall x :: 0 <= x < |a| && x != h ==> PushedFront(a, head, h, e)[x].entry == a[x].entry
    ensures InRange(PushedFront(a, head, h, e), [h] + order)
    ensures EntriesOf(PushedFront(a, head, h, e), [h] + order) == [e] + EntriesOf(a, order)
  {
    var a' := PushedFront(a, head, h, e);
    var o := [h] + order;
    assert head != Nil ==> head == order[0];
    var eo := EntriesOf(a', o);
    forall j | 0 <= j < |eo| ensures eo[j] == ([e] + EntriesOf(a, order))[j] {
      if j > 0 {
        assert o[j] == order[j - 1];
      }
    }
  }


  /** A consistent table makes the listed keys unique and answers every lookup
      exactly as the recency list does, pointing at the slot of the entry found. */
  lemma IndexedLookup<V>(a: seq<Node<V>>, order: seq<int>, head: int, tail: int,
                         cache: map<string, int>, k: string)
    requires Linked(a, order, head, tail) && Indexed(a, order, cache)
    ensures UniqueKeys(EntriesOf(a, order))
    ensures k in cache <==> Find(EntriesOf(a, order), k).Some?
    ensures k in cache ==> order[Find(EntriesOf(a, order), k).value] == cache[k]
  {
    IndexedUnique(a, order, cache);
    var es := EntriesOf(a, order);
    if k in cache {
      var i :| 0 <= i < |order| && order[i] == cache[k];
      assert es[i].key == k;
    }
    match Find(es, k)
    case None =>
    case Some(i) =>
      assert a[order[i]].entry.key == k;
  }

  /** Distinct slots listed under an exact table hold distinct keys. */
  lemma IndexedUnique<V>(a: seq<Node<V>>, order: seq<int>, cache: map<string, int>)
    requires InRange(a, order) && Indexed(a, order, cache)
    requires forall i, j :: 0 <= i < j < |order| ==> order[i] != order[j]
    ensures UniqueKeys(EntriesOf(a, order))
  {
    var es := EntriesOf(a, order);
    forall i, j | 0 <= i < j < |es| ensures es[i].key != es[j].key {
      assert cache[es[i].key] == order[i] && cache[es[j].key] == order[j];
    }
  }


  /** Dropping position `i` from the list, in an arena whose slots keep their
      entries, keeps the table exact once the dropped slot's key is taken out. */
  lemma IndexedWithout<V>(a: seq<Node<V>>, a': seq<Node<V>>, order: seq<int>,
                          cache: map<string, int>, i: nat)
    requires Indexed(a, order, cache) && i < |order|
    requires forall x, y :: 0 <= x < y < |order| ==> order[x] != order[y]
    requires |a'| == |a| && forall x :: 0 <= x < |a| ==> a'[x].entry == a[x].entry
    ensures 0 <= order[i] < |a|
    ensures Indexed(a', Without(order, i), cache - {a[order[i]].entry.key})
  {
    KeysWithout(a, a', order, cache, i);
    SlotsWithout(a, a', order, cache, i);
  }

  /** The first half of `IndexedWithout`: each remaining key leads to a remaining slot. */
  lemma KeysWithout<V>(a: seq<Node<V>>, a': seq<Node<V>>, order: seq<int>,
                       cache: map<string, int>, i: nat)
    requires Indexed(a, order, cache) && i < |order|
    requires |a'| == |a| && forall x :: 0 <= x < |a| ==> a'[x].entry == a[x].entry
    ensures 0 <= order[i] < |a|
    ensures forall k' :: k' in cache - {a[order[i]].entry.key} ==>
              var c := cache - {a[order[i]].entry.key};
              0 <= c[k'] < |a'| && c[k'] in Without(order, i) && a'[c[k']].entry.key == k'
  {
    var k := a[order[i]].entry.key;
    var o, c := Without(order, i), cache - {k};
    forall k' | k' in c
      ensures 0 <= c[k'] < |a'| && c[k'] in o && a'[c[k']].entry.key == k'
    {
      var j :| 0 <= j < |order| && order[j] == cache[k'];
      assert j != i;
      assert o[if j < i then j else j - 1] == order[j];
    }
  }

  /** The second half of `IndexedWithout`: each remaining slot's key maps back to it. */
  lemma SlotsWithout<V>(a: seq<Node<V>>, a': seq<Node<V>>, order: seq<int>,
                        cache: map<string, int>, i: nat)
    requires Indexed(a, order, cache) && i < |order|
    requires forall x, y :: 0 <= x < y < |order| ==> order[x] != order[y]
    requires |a'| == |a| && forall x :: 0 <= x < |a| ==> a'[x].entry == a[x].entry
    ensures 0 <= order[i] < |a|
    ensures forall j :: 0 <= j < |Without(order, i)| ==>
              var o, c := Without(order, i), cache - {a[order[i]].entry.key};
              0 <= o[j] < |a'| && a'[o[j]].entry.key in c && c[a'[o[j]].entry.key] == o[j]
  {
    var o, c := Without(order, i), cache - {a[order[i]].entry.key};
    forall j | 0 <= j < |o|
      ensures 0 <= o[j] < |a'| && a'[o[j]].entry.key in c && c[a'[o[j]].entry.key] == o[j]
    {
      var j' := if j < i then j else j + 1;
      assert o[j] == order[j'] != order[i];
    }
  }


  /** Linking a new key's slot at the head and adding the key keeps the table consistent. */
  lemma IndexedAfterPush<V>(a: seq<Node<V>>, order: seq<int>, head: int, tail: int,
                            cache: map<string, int>, h: int, e: Entry<V>)
    requires Linked(a, order, head, tail) && Indexed(a, order, cache)
    requires 0 <= h < |a| && h !in order && e.key !in cache
    ensures head == Nil || 0 <= head < |a|
    ensures Indexed(PushedFront(a, head, h, e), [h] + order, cache[e.key := h])
  {
    PushFrontSpec(a, order, head, tail, h, e);
    var a', o, c := PushedFront(a, head, h, e), [h] + order, cache[e.key := h];
    forall k' | k' in c
      ensures 0 <= c[k'] < |a'| && c[k'] in o && a'[c[k']].entry.key == k'
    {
      if k' != e.key {
        var j :| 0 <= j < |order| && order[j] == cache[k'];
        assert o[j + 1] == order[j];
      } else {
        assert o[0] == h;
      }
    }
    forall j | 0 <= j < |o|
      ensures 0 <= o[j] < |a'| && a'[o[j]].entry.key in c && c[a'[o[j]].entry.key] == o[j]
    {
      if j > 0 {
        assert o[j] == order[j - 1] != h;
      }
    }
  }

  /** The whole arena invariant: list links and lookup table agree. */
  predicate Consistent<V>(a: seq<Node<V>>, order: seq<int>, head: int, tail: int,
                          cache: map<string, int>)
  {
    Linked(a, order, head, tail) && Indexed(a, order, cache)
  }

  /** Removing the entry at position `i` (unlink it, drop its key) keeps the arena
      consistent and removes exactly that position from the entries. */
  lemma DiscardSpec<V>(a: seq<Node<V>>, order: seq<int>, head: int, tail: int,
                       cache: map<string, int>, i: nat)
    requires Consistent(a, order, head, tail, cache) && i < |order|
    ensures 0 <= order[i] < |a|
    ensures a[order[i]].prev == Nil || 0 <= a[order[i]].prev < |a|
    ensures a[order[i]].next == Nil || 0 <= a[order[i]].next < |a|
    ensures |Unlinked(a, order[i])| == |a|
    ensures Consistent(Unlinked(a, order[i]), Without(order, i),
                       HeadAfterUnlink(a, head, order[i]), TailAfterUnlink(a, tail, order[i]),
                       cache - {a[order[i]].entry.key})
    ensures EntriesOf(a, order)[i] == a[order[i]].entry
    ensures InRange(Unlinked(a, order[i]), Without(order, i))
    ensures EntriesOf(Unlinked(a, order[i]), Without(order, i)) == Without(EntriesOf(a, order), i)
  {
    UnlinkEntries(a, order, head, tail, i);
    IndexedWithout(a, Unlinked(a, order[i]), order, cache, i);
    UnlinkSpec(a, order, head, tail, i);
  }

  /** Allocating a node appends a slot outside the list; nothing else changes. */
  lemma AllocSpec<V>(a: seq<Node<V>>, order: seq<int>, head: int, tail: int,
                     cache: map<string, int>, x: Node<V>)
    requires Consistent(a, order, head, tail, cache)
    ensures |a| !in order
    ensures Consistent(a + [x], order, head, tail, cache)
    ensures InRange(a, order) && EntriesOf(a + [x], order) == EntriesOf(a, order)
  {
    AllocLinked(a, order, head, tail, x);
    AllocIndexed(a, order, cache, x);
    var a' := a + [x];
    assert forall j :: 0 <= j < |order| ==> a'[order[j]] == a[order[j]];
  }

  /** Appending a slot keeps the links of the listed slots. */
  lemma AllocLinked<V>(a: seq<Node<V>>, order: seq<int>, head: int, tail: int, x: Node<V>)
    requires Linked(a, order, head, tail)
    ensures |a| !in order
    ensures Linked(a + [x], order, head, tail)
  {
    var a' := a + [x];
    forall j | 0 <= j < |order|
      ensures a'[order[j]].next == if j + 1 < |order| then order[j + 1] else Nil
      ensures a'[order[j]].prev == if j == 0 then Nil else order[j - 1]
    {
      LinksAt(a, order, head, tail, j);
      assert a'[order[j]] == a[order[j]];
    }
    assert Linked(a', order, head, tail);
  }

  /** Appending a slot keeps the table exact. */
  lemma AllocIndexed<V>(a: seq<Node<V>>, order: seq<int>, cache: map<string, int>, x: Node<V>)
    requires Indexed(a, order, cache)
    ensures Indexed(a + [x], order, cache)
  {
    var a' := a + [x];
    assert forall j :: 0 <= j < |a| ==> a'[j] == a[j];
  }


  /** Linking a new key's entry, stored in the unlisted slot `h`, at the head keeps
      the arena consistent and puts the entry in front of the others. */
  lemma InsertSpec<V>(a: seq<Node<V>>, order: seq<int>, head: int, tail: int,
                      cache: map<string, int>, h: int, e: Entry<V>)
    requires Consistent(a, order, head, tail, cache) && e.key !in cache
    requires 0 <= h < |a| && h !in order
    ensures head == Nil || 0 <= head < |a|
    ensures Consistent(PushedFront(a, head, h, e), [h] + order, h, if head == Nil then h else tail,
                       cache[e.key := h])
    ensures EntriesOf(PushedFront(a, head, h, e), [h] + order) == [e] + EntriesOf(a, order)
  {
    IndexedAfterPush(a, order, head, tail, cache, h, e);
    PushFrontSpec(a, order, head, tail, h, e);
  }

  /** The node at position `i` is not among the other positions, and the table
      maps its key to it: taking the key out and putting it back with the same
      handle leaves the table as it was. */
  lemma RelinkSpec<V>(a: seq<Node<V>>, order: seq<int>, head: int, tail: int,
                      cache: map<string, int>, i: nat)
    requires Consistent(a, order, head, tail, cache) && i < |order|
    ensures 0 <= order[i] < |a|
    ensures order[i] !in Without(order, i)
    ensures (cache - {a[order[i]].entry.key})[a[order[i]].entry.key := order[i]] == cache
  {
    var o := Without(order, i);
    forall j | 0 <= j < |o| ensures o[j] != order[i] {
      assert o[j] == order[if j < i then j else j + 1];
    }
    var k := a[order[i]].entry.key;
    assert cache[k] == order[i];
  }

  /** Follows `next` from `head` until the null link, collecting the keys. */
  method WalkForward<V>(a: seq<Node<V>>, ghost order: seq<int>, head: int, ghost tail: int)
    returns (ks: seq<string>)
    requires Linked(a, order, head, tail)
    ensures ks == Keys(EntriesOf(a, order))
  {
    ks := [];
    var h := head;
    ghost var i := 0;
    while h != Nil
      invariant 0 <= i <= |order|
      invariant h == if i < |order| then order[i] else Nil
      invariant ks == Keys(EntriesOf(a, order))[..i]
      decreases |order| - i
    {
      LinksAt(a, order, head, tail, i);
      ks := ks + [a[h].entry.key];
      h := a[h].next;
      i := i + 1;
    }
  }

  /** Follows `prev` from `tail` until the null link, collecting the keys: the
      head-to-tail keys in reverse. */
  method WalkBackward<V>(a: seq<Node<V>>, ghost order: seq<int>, ghost head: int, tail: int)
    returns (ks: seq<string>)
    requires Linked(a, order, head, tail)
    ensures ks == Reverse(Keys(EntriesOf(a, order)))
  {
    ks := [];
    var h := tail;
    ghost var es := EntriesOf(a, order);
    ghost var i := 0;
    ghost var n := |order|;
    while h != Nil
      invariant 0 <= i <= n
      invariant h == if i < n then order[n - 1 - i] else Nil
      invariant |ks| == i
      invariant forall j :: 0 <= j < i ==> ks[j] == es[n - 1 - j].key
      decreases n - i
    {
      LinksAt(a, order, head, tail, n - 1 - i);
      ks := ks + [a[h].entry.key];
      h := a[h].prev;
      i := i + 1;
    }
    ReverseAt(Keys(es));
    assert ks == Reverse(Keys(es));
  }
}
