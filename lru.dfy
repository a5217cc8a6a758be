/**
 * The LRU cache driven by the repository's LRU tests: a lookup table from key to
 * node, a doubly linked recency list with `head` (most recently used) and `tail`
 * (least recently used), and an entry counter `length`. Nodes live in an arena of
 * slots and link to each other by integer handles; the lookup table maps a key to
 * the handle of its node. Time is passed in as `now` (milliseconds).
 */
module Lru {
  import opened Recency
  import opened Arena

  class LruCache<V> {
    /** Time to live of every entry, in seconds (first constructor argument). */
    const ttl: int
    /** The most entries the cache keeps live (third constructor argument). */
    const capacity: nat

    /** Lookup table: key to the handle of its node. */
    var cache: map<string, int>
    /** Handle of the most recently used node, or Nil. */
    var head: int
    /** Handle of the least recently used node, or Nil. */
    var tail: int
    /** Number of live entries. */
    var length: nat
    /** The node arena: every node ever allocated, reachable from `head` or not. */
    var slots: seq<Node<V>>
    /** The handles of the recency list, head first. */
    ghost var order: seq<int>

    /** Links, table and counter agree; the capacity may be exceeded
        by one entry in the middle of `put`. */
    ghost predicate Sound()
      reads this
    {
      Consistent(slots, order, head, tail, cache) && length == |order|
    }

    ghost predicate Valid()
      reads this
    {
      Sound() && length <= capacity
    }

    /** The live entries from the most to the least recently used. */
    ghost function Contents(): seq<Entry<V>>
      reads this
      requires Sound()
    {
      EntriesOf(slots, order)
    }

    /** No key is listed twice: the table maps each live key to exactly one node. */
    lemma ContentsUnique()
      requires Sound()
      ensures UniqueKeys(Contents())
      ensures forall k :: k in cache <==> k in Keys(Contents())
    {
      forall k ensures k in cache <==> k in Keys(Contents()) {
        IndexedLookup(slots, order, head, tail, cache, k);
        var ks := Keys(Contents());
        if k in ks {
          var j :| 0 <= j < |ks| && ks[j] == k;
          assert Contents()[j].key == k;
        }
        if k in cache {
          assert ks[Find(Contents(), k).value] == k;
        }
      }
    }

    /** The instant from which an entry put at `now` counts as expired. */
    function ExpiryOf(now: int): int
      reads this
    {
      now + 1000 * ttl
    }

    constructor (ttl: int, capacity: nat)
      ensures Valid()
      ensures this.ttl == ttl && this.capacity == capacity
      ensures Contents() == [] && length == 0 && head == Nil && tail == Nil && cache == map[]
    {
      this.ttl := ttl;
      this.capacity := capacity;
      slots, order := [], [];
      cache := map[];
      head, tail := Nil, Nil;
      length := 0;
    }

    /** Unlinks the node at position `i` of the recency list, patching its neighbours'
        links and `head`/`tail`. */
    method Unlink(h: int, ghost i: nat)
      requires Linked(slots, order, head, tail)
      requires i < |order| && order[i] == h
      modifies this`head, this`tail, this`order, this`slots
      ensures 0 <= h < old(|slots|)
      ensures old(slots[h].prev) == Nil || 0 <= old(slots[h].prev) < old(|slots|)
      ensures old(slots[h].next) == Nil || 0 <= old(slots[h].next) < old(|slots|)
      ensures slots == Unlinked(old(slots), h)
      ensures head == HeadAfterUnlink(old(slots), old(head), h)
      ensures tail == TailAfterUnlink(old(slots), old(tail), h)
      ensures order == Without(old(order), i)
    {
      LinksAt(slots, order, head, tail, i);
      var p, n := slots[h].prev, slots[h].next;
      if p == Nil {
        head := n;
      } else {
        slots := slots[p := slots[p].(next := n)];
      }
      if n == Nil {
        tail := p;
      } else {
        slots := slots[n := slots[n].(prev := p)];
      }
      order := Without(order, i);
    }

    /** Stores `e` in the unlinked slot `h` and links it in as the new head. */
    method PushFront(h: int, e: Entry<V>)
      requires Linked(slots, order, head, tail)
      requires 0 <= h < |slots| && h !in order
      modifies this`head, this`tail, this`order, this`slots
      ensures old(head) == Nil || 0 <= old(head) < old(|slots|)
      ensures slots == PushedFront(old(slots), old(head), h, e)
      ensures head == h && tail == (if old(head) == Nil then h else old(tail))
      ensures order == [h] + old(order)
    {
      assert head != Nil ==> head == order[0];
      slots := slots[h := Node(e, Nil, head)];
      if head == Nil {
        tail := h;
      } else {
        slots := slots[head := slots[head].(prev := h)];
      }
      head := h;
      order := [h] + order;
    }

    /** Removes the entry at position `i` of the recency list from the list and the
        table; its node stays in the arena, unreachable from the list. */
    method Discard(h: int, ghost i: nat)
      requires Sound() && i < |order| && order[i] == h
      modifies this
      ensures Sound()
      ensures Contents() == Without(old(Contents()), i)
      ensures cache == old(cache) - {old(slots[h].entry.key)}
      ensures |slots| == old(|slots|) && 0 <= h < |slots| && h !in order
    {
      ghost var a, o, es := slots, order, Contents();
      DiscardSpec(a, o, head, tail, cache, i);
      RelinkSpec(a, o, head, tail, cache, i);
      var k := slots[h].entry.key;
      Unlink(h, i);
      cache := cache - {k};
      length := length - 1;
      assert slots == Unlinked(a, h) && order == Without(o, i);
      assert EntriesOf(slots, order) == Without(es, i);
    }

    /** Allocates a new node holding `e`, not yet linked into the list. */
    method Allocate(e: Entry<V>) returns (h: int)
      requires Sound()
      modifies this`slots
      ensures h == old(|slots|) && slots == old(slots) + [Node(e, Nil, Nil)]
      ensures Sound() && h !in order
      ensures Contents() == old(Contents())
    {
      AllocSpec(slots, order, head, tail, cache, Node(e, Nil, Nil));
      h := |slots|;
      slots := slots + [Node(e, Nil, Nil)];
    }

    /** Links the unlisted node `h` in as the head, holding `e`, and maps `e`'s key
        to it. */
    method LinkHead(h: int, e: Entry<V>)
      requires Sound() && e.key !in cache
      requires 0 <= h < |slots| && h !in order
      modifies this
      ensures Sound()
      ensures Contents() == [e] + old(Contents())
      ensures cache == old(cache)[e.key := h]
    {
      ghost var a, o, es, hd, tl, c := slots, order, Contents(), head, tail, cache;
      InsertSpec(a, o, hd, tl, c, h, e);
      PushFront(h, e);
      cache := cache[e.key := h];
      length := length + 1;
      assert slots == PushedFront(a, hd, h, e) && order == [h] + o;
      assert head == h && tail == (if hd == Nil then h else tl) && cache == c[e.key := h];
      assert EntriesOf(slots, order) == [e] + es;
    }

    /** Links a new key's entry in as the head, in a newly allocated node. */
    method InsertHead(e: Entry<V>)
      requires Sound() && e.key !in cache
      modifies this
      ensures Sound()
      ensures Contents() == [e] + old(Contents())
    {
      var h := Allocate(e);
      LinkHead(h, e);
    }

    /** Evicts the least recently used entry when the cache holds one too many. */
    method EvictTail()
      requires Sound() && length == capacity + 1
      modifies this
      ensures Valid()
      ensures Contents() == old(Contents())[..capacity]
    {
      ghost var es := Contents();
      Discard(tail, |order| - 1);
      assert Contents() == Without(es, |es| - 1);
    }

    /** Moves the node at position `i` to the head: it is unlinked and linked in
        again at the head, in the same slot and under the same key. */
    method MoveToHead(h: int, ghost i: nat)
      requires Valid() && i < |order| && order[i] == h
      modifies this
      ensures Valid()
      ensures Contents() == MoveToFront(old(Contents()), i)
      ensures cache == old(cache)
    {
      ghost var es, c := Contents(), cache;
      RelinkSpec(slots, order, head, tail, cache, i);
      var e := slots[h].entry;
      assert es[i] == e;
      Discard(h, i);
      LinkHead(h, e);
    }

    /** Links an entry with a new key in as the head, then evicts the tail if that
        makes more than `capacity` entries. */
    method AddNew(e: Entry<V>)
      requires Valid() && e.key !in cache
      modifies this
      ensures Valid()
      ensures Contents() == Evict([e] + old(Contents()), capacity)
    {
      InsertHead(e);
      if length > capacity {
        EvictTail();
      }
    }

    /** `put(key, value, size)` at instant `now`: an older entry for the key is
        dropped, the new entry becomes the head, and the tail is evicted when that
        makes more than `capacity` entries. */
    method Put(key: string, value: V, size: int, now: int)
      requires Valid()
      modifies this
      ensures Valid()
      ensures Contents() == Recency.Put(old(Contents()), Entry(key, value, size, ExpiryOf(now)), capacity)
    {
      Delete(key);
      AddNew(Entry(key, value, size, ExpiryOf(now)));
    }

    /** `get(key)` at instant `now`: a live entry's value, moving it to the head; an
        expired entry is unlinked and reported absent like a missing key. */
    method Get(key: string, now: int) returns (r: Option<V>)
      requires Valid()
      modifies this
      ensures Valid()
      ensures (r, Contents()) == Recency.Get(old(Contents()), key, now)
    {
      IndexedLookup(slots, order, head, tail, cache, key);
      if key !in cache {
        return None;
      }
      var h := cache[key];
      ghost var i := Find(Contents(), key).value;
      if now >= slots[h].entry.expiresAt {
        Discard(h, i);
        return None;
      }
      r := Some(slots[h].entry.value);
      MoveToHead(h, i);
    }

    /** `delete(key)`: unlinks the key's entry; an absent key changes nothing. */
    method Delete(key: string)
      requires Valid()
      modifies this
      ensures Valid()
      ensures Contents() == Remove(old(Contents()), key)
      ensures key !in cache
    {
      IndexedLookup(slots, order, head, tail, cache, key);
      if key in cache {
        Discard(cache[key], Find(Contents(), key).value);
      }
    }

    /** What the lookup table holds for `key` (`lru.cache[key]`). */
    method Lookup(key: string) returns (r: Option<Entry<V>>)
      requires Valid()
      ensures r == Recency.Lookup(Contents(), key)
    {
      IndexedLookup(slots, order, head, tail, cache, key);
      if key in cache {
        r := Some(slots[cache[key]].entry);
      } else {
        r := None;
      }
    }

    /** The keys met following `next` from `head` until the null link. */
    method KeysFromHead() returns (ks: seq<string>)
      requires Valid()
      ensures ks == Keys(Contents())
    {
      ks := WalkForward(slots, order, head, tail);
    }

    /** The keys met following `prev` from `tail` until the null link: the
        head-to-tail keys in reverse. */
    method KeysFromTail() returns (ks: seq<string>)
      requires Valid()
      ensures ks == Reverse(Keys(Contents()))
    {
      ks := WalkBackward(slots, order, head, tail);
    }
  }
}
