/**
 * The LRU test suite replayed on the model. The first seven tests share one cache
 * built as `LruCache(50, 6)` (TTL 50 seconds, at most six entries), each test taking
 * the recency list the previous one left; every `put` and `get` there happens at
 * instant 0, well inside the TTL. The last test uses a second cache,
 * `LruCache(1, 8)`, at instants 0, 1001 and 1100 for the waits of 1001 ms and 99 ms.
 *
 * The lemmas compute each step's recency list on the specification; the methods
 * drive the cache and check what the tests observe: table entries (`Lookup`), the
 * keys met walking `next` from the head and `prev` from the tail, and `length`.
 */
module LruScenarios {
  import opened Recency
  import opened Lru

  /** The part of a cached response the tests look at. */
  datatype Response = Response(body: string, status: int)

  /** The entries `put(key, {body, status: 200}, 10)` stores at instant 0 in a cache
      with a 50-second TTL. */
  const I1: Entry<Response> := Entry("item1", Response("testing1", 200), 10, 50000)
  const I2: Entry<Response> := Entry("item2", Response("testing2", 200), 10, 50000)
  const I3: Entry<Response> := Entry("item3", Response("testing3", 200), 10, 50000)
  const I4: Entry<Response> := Entry("item4", Response("testing4", 200), 10, 50000)
  const I5: Entry<Response> := Entry("item5", Response("testing5", 200), 10, 50000)
  const I666: Entry<Response> := Entry("item666", Response("testing1", 200), 10, 50000)
  const I30: Entry<Response> := Entry("item30", Response("testing3", 200), 10, 50000)
  const I40: Entry<Response> := Entry("item40", Response("testing4", 200), 10, 50000)
  const I50: Entry<Response> := Entry("item50", Response("testing5", 200), 10, 50000)
  const I60: Entry<Response> := Entry("item60", Response("testing6", 200), 10, 50000)
  const I70: Entry<Response> := Entry("item70", Response("testing7", 200), 10, 50000)
  const I80: Entry<Response> := Entry("item80", Response("testing8", 200), 10, 50000)
  const I90: Entry<Response> := Entry("item90", Response("testing9", 200), 10, 50000)
  const I99: Entry<Response> := Entry("item99", Response("testing1", 200), 10, 50000)

  /** In a list without repeated keys, every key's lookup finds its own entry. */
  lemma LookupEach<V>(s: seq<Entry<V>>)
    requires UniqueKeys(s)
    ensures forall i :: 0 <= i < |s| ==> Lookup(s, s[i].key) == Some(s[i])
  {
    forall i | 0 <= i < |s| ensures Lookup(s, s[i].key) == Some(s[i]) {
      FindUnique(s, i);
    }
  }

  /** `put("item1")` into []: a new key, below capacity. */
  lemma Put1()
    ensures Put([], I1, 6) == [I1]
  {
    PutFreshBelowCapacity([], I1, 6);
  }

  /** `put("item2")` into [I1]: a new key, below capacity. */
  lemma Put2()
    ensures Put([I1], I2, 6) == [I2, I1]
  {
    assert I2.key[4] != I1.key[4];
    PutFreshBelowCapacity([I1], I2, 6);
  }

  /** `put("item3")` into [I2, I1]: a new key, below capacity. */
  lemma Put3()
    ensures Put([I2, I1], I3, 6) == [I3, I2, I1]
  {
    assert I3.key[4] != I2.key[4] && I3.key[4] != I1.key[4];
    PutFreshBelowCapacity([I2, I1], I3, 6);
  }

  /** `put("item4")` into [I3, I2, I1]: a new key, below capacity. */
  lemma Put4()
    ensures Put([I3, I2, I1], I4, 6) == [I4, I3, I2, I1]
  {
    assert I4.key[4] != I3.key[4] && I4.key[4] != I2.key[4] && I4.key[4] != I1.key[4];
    PutFreshBelowCapacity([I3, I2, I1], I4, 6);
  }

  /** `put("item5")` into [I4, I3, I2, I1]: a new key, below capacity. */
  lemma Put5()
    ensures Put([I4, I3, I2, I1], I5, 6) == [I5, I4, I3, I2, I1]
  {
    assert I5.key[4] != I4.key[4] && I5.key[4] != I3.key[4] && I5.key[4] != I2.key[4] && I5.key[4] != I1.key[4];
    PutFreshBelowCapacity([I4, I3, I2, I1], I5, 6);
  }

  /** `put("item666")` into [I5, I2]: a new key, below capacity. */
  lemma Put666()
    ensures Put([I5, I2], I666, 6) == [I666, I5, I2]
  {
    assert |I666.key| != |I5.key| && |I666.key| != |I2.key|;
    PutFreshBelowCapacity([I5, I2], I666, 6);
  }

  /** `put("item30")` into [I666, I5, I2]: a new key, below capacity. */
  lemma Put30()
    ensures Put([I666, I5, I2], I30, 6) == [I30, I666, I5, I2]
  {
    assert |I30.key| != |I666.key| && |I30.key| != |I5.key| && |I30.key| != |I2.key|;
    PutFreshBelowCapacity([I666, I5, I2], I30, 6);
  }

  /** `put("item40")` into [I30, I666, I5, I2]: a new key, below capacity. */
  lemma Put40()
    ensures Put([I30, I666, I5, I2], I40, 6) == [I40, I30, I666, I5, I2]
  {
    assert I40.key[4] != I30.key[4] && |I40.key| != |I666.key| && |I40.key| != |I5.key| && |I40.key| != |I2.key|;
    PutFreshBelowCapacity([I30, I666, I5, I2], I40, 6);
  }

  /** `put("item50")` into [I40, I30, I666, I5, I2]: a new key, below capacity. */
  lemma Put50()
    ensures Put([I40, I30, I666, I5, I2], I50, 6) == [I50, I40, I30, I666, I5, I2]
  {
    assert I50.key[4] != I40.key[4] && I50.key[4] != I30.key[4] && |I50.key| != |I666.key| && |I50.key| != |I5.key| && |I50.key| != |I2.key|;
    PutFreshBelowCapacity([I40, I30, I666, I5, I2], I50, 6);
  }

  /** `put("item60")` into [I50, I40, I30, I666, I5, I2]: a new key, at capacity, so the tail is evicted. */
  lemma Put60()
    ensures Put([I50, I40, I30, I666, I5, I2], I60, 6) == [I60, I50, I40, I30, I666, I5]
  {
    assert I60.key[4] != I50.key[4] && I60.key[4] != I40.key[4] && I60.key[4] != I30.key[4] && |I60.key| != |I666.key| && |I60.key| != |I5.key| && |I60.key| != |I2.key|;
    PutFreshAtCapacity([I50, I40, I30, I666, I5, I2], I60, 6);
    assert [I60] + [I50, I40, I30, I666, I5, I2][..5] == [I60, I50, I40, I30, I666, I5];
  }

  /** `put("item70")` into [I60, I50, I40, I30, I666, I5]: a new key, at capacity, so the tail is evicted. */
  lemma Put70()
    ensures Put([I60, I50, I40, I30, I666, I5], I70, 6) == [I70, I60, I50, I40, I30, I666]
  {
    assert I70.key[4] != I60.key[4] && I70.key[4] != I50.key[4] && I70.key[4] != I40.key[4] && I70.key[4] != I30.key[4] && |I70.key| != |I666.key| && |I70.key| != |I5.key|;
    PutFreshAtCapacity([I60, I50, I40, I30, I666, I5], I70, 6);
    assert [I70] + [I60, I50, I40, I30, I666, I5][..5] == [I70, I60, I50, I40, I30, I666];
  }

  /** `put("item80")` into [I70, I60, I50, I40, I30, I666]: a new key, at capacity, so the tail is evicted. */
  lemma Put80()
    ensures Put([I70, I60, I50, I40, I30, I666], I80, 6) == [I80, I70, I60, I50, I40, I30]
  {
    assert I80.key[4] != I70.key[4] && I80.key[4] != I60.key[4] && I80.key[4] != I50.key[4] && I80.key[4] != I40.key[4] && I80.key[4] != I30.key[4] && |I80.key| != |I666.key|;
    PutFreshAtCapacity([I70, I60, I50, I40, I30, I666], I80, 6);
    assert [I80] + [I70, I60, I50, I40, I30, I666][..5] == [I80, I70, I60, I50, I40, I30];
  }

  /** `put("item90")` into [I80, I70, I60, I50, I40, I30]: a new key, at capacity, so the tail is evicted. */
  lemma Put90()
    ensures Put([I80, I70, I60, I50, I40, I30], I90, 6) == [I90, I80, I70, I60, I50, I40]
  {
    assert I90.key[4] != I80.key[4] && I90.key[4] != I70.key[4] && I90.key[4] != I60.key[4] && I90.key[4] != I50.key[4] && I90.key[4] != I40.key[4] && I90.key[4] != I30.key[4];
    PutFreshAtCapacity([I80, I70, I60, I50, I40, I30], I90, 6);
    assert [I90] + [I80, I70, I60, I50, I40, I30][..5] == [I90, I80, I70, I60, I50, I40];
  }

  /** `put("item99")` into [I90, I80, I70, I60, I50, I40]: a new key, at capacity, so the tail is evicted. */
  lemma Put99()
    ensures Put([I90, I80, I70, I60, I50, I40], I99, 6) == [I99, I90, I80, I70, I60, I50]
  {
    assert I99.key[5] != I90.key[5] && I99.key[4] != I80.key[4] && I99.key[4] != I70.key[4] && I99.key[4] != I60.key[4] && I99.key[4] != I50.key[4] && I99.key[4] != I40.key[4];
    PutFreshAtCapacity([I90, I80, I70, I60, I50, I40], I99, 6);
    assert [I99] + [I90, I80, I70, I60, I50, I40][..5] == [I99, I90, I80, I70, I60, I50];
  }

  /** The first test: five puts of new keys below capacity. Each key's entry holds
      its body, the last key put is the head, the first the tail, and five entries
      are live. */
  method AddsNewItems() returns (lru: LruCache<Response>)
    ensures fresh(lru) && lru.Valid() && lru.ttl == 50 && lru.capacity == 6
    ensures lru.Contents() == [I5, I4, I3, I2, I1]
  {
    lru := new LruCache(50, 6);
    assert lru.ExpiryOf(0) == 50000;
    lru.Put("item1", Response("testing1", 200), 10, 0);
    Put1();
    assert lru.Contents() == [I1];
    lru.Put("item2", Response("testing2", 200), 10, 0);
    Put2();
    assert lru.Contents() == [I2, I1];
    lru.Put("item3", Response("testing3", 200), 10, 0);
    Put3();
    assert lru.Contents() == [I3, I2, I1];
    lru.Put("item4", Response("testing4", 200), 10, 0);
    Put4();
    assert lru.Contents() == [I4, I3, I2, I1];
    lru.Put("item5", Response("testing5", 200), 10, 0);
    Put5();
    assert lru.Contents() == [I5, I4, I3, I2, I1];
    var keys := lru.KeysFromHead();
    assert |keys| == 5 && keys[0] == "item5" && keys[4] == "item1";
    var back := lru.KeysFromTail();
    assert back[0] == "item1";
    assert lru.length == 5;
  }

  /** The first and second tests' table checks: every key's entry holds its body. */
  method FiveItemsLookedUp(lru: LruCache<Response>)
    requires lru.Valid()
    requires I1 in lru.Contents() && I2 in lru.Contents() && I3 in lru.Contents()
    requires I4 in lru.Contents() && I5 in lru.Contents()
  {
    lru.ContentsUnique();
    LookupEach(lru.Contents());
    var e1 := lru.Lookup("item1");
    var e2 := lru.Lookup("item2");
    var e3 := lru.Lookup("item3");
    var e4 := lru.Lookup("item4");
    var e5 := lru.Lookup("item5");
    assert e1.value.value.body == "testing1" && e2.value.value.body == "testing2";
    assert e3.value.value.body == "testing3" && e4.value.value.body == "testing4";
    assert e5.value.value.body == "testing5";
  }

  /** `get("item3")` finds a live entry in the middle and moves it to the head. */
  lemma GetsItem3()
    ensures Get([I5, I4, I3, I2, I1], "item3", 0) == (Some(I3.value), [I3, I5, I4, I2, I1])
  {
    var s := [I5, I4, I3, I2, I1];
    assert forall i, j :: 0 <= i < j < 5 ==> s[i].key[4] != s[j].key[4];
    FindUnique(s, 2);
    assert MoveToFront(s, 2) == [I3, I5, I4, I2, I1];
  }

  /** The second test: the value returned is the new head's; the other keys keep
      their order behind it, the fifth node is the tail and has no `next`. */
  method GetsAndMovesToHead(lru: LruCache<Response>)
    requires lru.Valid() && lru.Contents() == [I5, I4, I3, I2, I1]
    modifies lru
    ensures lru.Valid() && lru.Contents() == [I3, I5, I4, I2, I1]
  {
    var item := lru.Get("item3", 0);
    GetsItem3();
    assert lru.Contents() == [I3, I5, I4, I2, I1];
    assert item == Some(lru.Contents()[0].value);
    var keys := lru.KeysFromHead();
    assert keys == ["item3", "item5", "item4", "item2", "item1"];
    var back := lru.KeysFromTail();
    assert back[0] == keys[4];
  }

  /** The third test: deleting the head "item3" leaves the rest in order. */
  method DeletesFront(lru: LruCache<Response>)
    requires lru.Valid() && lru.Contents() == [I3, I5, I4, I2, I1]
    modifies lru
    ensures lru.Valid() && lru.Contents() == [I5, I4, I2, I1]
  {
    ghost var s := lru.Contents();
    lru.ContentsUnique();
    RemoveSpec(s, "item3");
    lru.Delete("item3");
    assert Find(s, "item3") == Some(0);
    assert lru.Contents() == s[1..] == [I5, I4, I2, I1];
    var gone := lru.Lookup("item3");
    assert gone == None;
  }

  /** The third test's other checks: the keys from the head, the fourth node being
      the tail, and the four other keys keeping their bodies. */
  method FourItemsSeen(lru: LruCache<Response>)
    requires lru.Valid() && lru.Contents() == [I5, I4, I2, I1]
  {
    var keys := lru.KeysFromHead();
    assert keys == ["item5", "item4", "item2", "item1"];
    var back := lru.KeysFromTail();
    assert back[0] == keys[3];
    lru.ContentsUnique();
    LookupEach(lru.Contents());
    assert lru.Contents()[3] == I1 && lru.Contents()[2] == I2;
    assert lru.Contents()[1] == I4 && lru.Contents()[0] == I5;
    var e1 := lru.Lookup("item1");
    var e2 := lru.Lookup("item2");
    var e4 := lru.Lookup("item4");
    var e5 := lru.Lookup("item5");
    assert e1 == Some(I1) && e2 == Some(I2) && e4 == Some(I4) && e5 == Some(I5);
  }

  /** The fourth test: deleting the tail "item1" makes "item2" the tail. */
  method DeletesEnd(lru: LruCache<Response>)
    requires lru.Valid() && lru.Contents() == [I5, I4, I2, I1]
    modifies lru
    ensures lru.Valid() && lru.Contents() == [I5, I4, I2]
  {
    ghost var s := lru.Contents();
    lru.ContentsUnique();
    FindUnique(s, 3);
    RemoveSpec(s, "item1");
    lru.Delete("item1");
    assert lru.Contents() == Without(s, 3) == [I5, I4, I2];
    var gone := lru.Lookup("item1");
    assert gone == None;
    LookupEach(lru.Contents());
    var e2 := lru.Lookup("item2");
    var e4 := lru.Lookup("item4");
    var e5 := lru.Lookup("item5");
    assert lru.Contents()[2] == I2 && lru.Contents()[1] == I4 && lru.Contents()[0] == I5;
    assert e2 == Some(I2) && e4 == Some(I4) && e5 == Some(I5);
  }

  /** The fourth test's walks: "item5", "item4", "item2", and "item2" is the tail. */
  method ThreeItemsWalked(lru: LruCache<Response>)
    requires lru.Valid() && lru.Contents() == [I5, I4, I2]
  {
    var keys := lru.KeysFromHead();
    assert keys == ["item5", "item4", "item2"];
    var back := lru.KeysFromTail();
    assert back[0] == keys[2];
  }

  /** The fifth test: deleting the middle "item4" links "item5" to "item2". */
  method DeletesMiddle(lru: LruCache<Response>)
    requires lru.Valid() && lru.Contents() == [I5, I4, I2]
    modifies lru
    ensures lru.Valid() && lru.Contents() == [I5, I2]
  {
    ghost var s := lru.Contents();
    lru.ContentsUnique();
    FindUnique(s, 1);
    RemoveSpec(s, "item4");
    lru.Delete("item4");
    assert lru.Contents() == Without(s, 1) == [I5, I2];
    var gone := lru.Lookup("item4");
    assert gone == None;
    var keys := lru.KeysFromHead();
    assert keys == ["item5", "item2"];
    var back := lru.KeysFromTail();
    assert back[0] == keys[1];
    LookupEach(lru.Contents());
    var e2 := lru.Lookup("item2");
    var e5 := lru.Lookup("item5");
    assert lru.Contents()[1] == I2 && lru.Contents()[0] == I5;
    assert e2 == Some(I2) && e5 == Some(I5);
  }

  /** The sixth test: a new key put after the deletions goes in front of the rest,
      and the list ends after the old tail. */
  method AddsAfterDeletes(lru: LruCache<Response>)
    requires lru.Valid() && lru.ttl == 50 && lru.capacity == 6 && lru.Contents() == [I5, I2]
    modifies lru
    ensures lru.Valid() && lru.Contents() == [I666, I5, I2]
  {
    assert lru.ExpiryOf(0) == 50000;
    lru.Put("item666", Response("testing1", 200), 10, 0);
    Put666();
    assert lru.Contents() == [I666, I5, I2];
    var keys := lru.KeysFromHead();
    assert keys == ["item666", "item5", "item2"];
  }

  /** The seventh test: eight more puts into a cache holding three entries with room
      for six evict from the tail, leaving the six most recent keys, newest first. */
  method EvictsOverCapacity(lru: LruCache<Response>)
    requires lru.Valid() && lru.ttl == 50 && lru.capacity == 6 && lru.Contents() == [I666, I5, I2]
    modifies lru
    ensures lru.Valid() && lru.Contents() == [I99, I90, I80, I70, I60, I50]
  {
    assert lru.ExpiryOf(0) == 50000;
    lru.Put("item30", Response("testing3", 200), 10, 0);
    Put30();
    assert lru.Contents() == [I30, I666, I5, I2];
    lru.Put("item40", Response("testing4", 200), 10, 0);
    Put40();
    assert lru.Contents() == [I40, I30, I666, I5, I2];
    lru.Put("item50", Response("testing5", 200), 10, 0);
    Put50();
    assert lru.Contents() == [I50, I40, I30, I666, I5, I2];
    lru.Put("item60", Response("testing6", 200), 10, 0);
    Put60();
    assert lru.Contents() == [I60, I50, I40, I30, I666, I5];
    lru.Put("item70", Response("testing7", 200), 10, 0);
    Put70();
    assert lru.Contents() == [I70, I60, I50, I40, I30, I666];
    lru.Put("item80", Response("testing8", 200), 10, 0);
    Put80();
    assert lru.Contents() == [I80, I70, I60, I50, I40, I30];
    lru.Put("item90", Response("testing9", 200), 10, 0);
    Put90();
    assert lru.Contents() == [I90, I80, I70, I60, I50, I40];
    lru.Put("item99", Response("testing1", 200), 10, 0);
    Put99();
    assert lru.Contents() == [I99, I90, I80, I70, I60, I50];
  }

  /** The seventh test's table checks: "item30" and "item40" were evicted, and the
      others hold their bodies. */
  lemma EvictionsSeen()
    ensures Lookup([I99, I90, I80, I70, I60, I50], "item30") == None
    ensures Lookup([I99, I90, I80, I70, I60, I50], "item40") == None
  {
    assert I30.key[4] != I99.key[4] && I30.key[4] != I90.key[4] && I30.key[4] != I80.key[4];
    assert I30.key[4] != I70.key[4] && I30.key[4] != I60.key[4] && I30.key[4] != I50.key[4];
    assert I40.key[4] != I99.key[4] && I40.key[4] != I90.key[4] && I40.key[4] != I80.key[4];
    assert I40.key[4] != I70.key[4] && I40.key[4] != I60.key[4] && I40.key[4] != I50.key[4];
  }

  /** What the seventh test looks up after the evictions. */
  method EvictionsLookedUp(lru: LruCache<Response>)
    requires lru.Valid() && lru.Contents() == [I99, I90, I80, I70, I60, I50]
  {
    EvictionsSeen();
    lru.ContentsUnique();
    LookupEach(lru.Contents());
    assert lru.Contents()[0] == I99 && lru.Contents()[1] == I90 && lru.Contents()[2] == I80;
    assert lru.Contents()[4] == I60 && lru.Contents()[5] == I50;
    var e30 := lru.Lookup("item30");
    var e40 := lru.Lookup("item40");
    var e50 := lru.Lookup("item50");
    var e60 := lru.Lookup("item60");
    var e80 := lru.Lookup("item80");
    var e90 := lru.Lookup("item90");
    var e99 := lru.Lookup("item99");
    assert e30 == None && e40 == None;
    assert e50 == Some(I50) && e60 == Some(I60) && e80 == Some(I80);
    assert e90 == Some(I90) && e99 == Some(I99);
  }

  /** What the seventh test walks after the evictions: six keys from the head with
      no `next` after the sixth, and the same keys from the tail in reverse. */
  method EvictionsWalked(lru: LruCache<Response>)
    requires lru.Valid() && lru.Contents() == [I99, I90, I80, I70, I60, I50]
  {
    var keys := lru.KeysFromHead();
    assert keys == ["item99", "item90", "item80", "item70", "item60", "item50"];
    var back := lru.KeysFromTail();
    ReverseAt(keys);
    assert back == ["item50", "item60", "item70", "item80", "item90", "item99"];
  }

  /** The first seven tests, in order, on one cache. */
  method SharedCacheTests()
  {
    var lru := AddsNewItems();
    FiveItemsLookedUp(lru);
    GetsAndMovesToHead(lru);
    FiveItemsLookedUp(lru);
    DeletesFront(lru);
    FourItemsSeen(lru);
    DeletesEnd(lru);
    ThreeItemsWalked(lru);
    DeletesMiddle(lru);
    AddsAfterDeletes(lru);
    EvictsOverCapacity(lru);
    EvictionsLookedUp(lru);
    EvictionsWalked(lru);
  }

  /** The last test: with a TTL of 1 second, an entry put at 0 is gone at 1001 and
      the list is empty; an entry put at 1001 is still there at 1100. */
  method ExpiresEntry()
  {
    var lru := new LruCache<Response>(1, 8);
    lru.Put("item1", Response("testing1", 200), 10, 0);
    assert lru.Contents() == [Entry("item1", Response("testing1", 200), 10, 1000)];
    var r1 := lru.Get("item1", 1001);
    assert r1 == None && lru.Contents() == [];
    var keys := lru.KeysFromHead();
    assert keys == [];
    lru.Put("item2", Response("testing2", 200), 10, 1001);
    assert lru.Contents() == [Entry("item2", Response("testing2", 200), 10, 2001)];
    var r2 := lru.Get("item2", 1100);
    assert r2 == Some(Response("testing2", 200));
    keys := lru.KeysFromHead();
    assert keys == ["item2"];
  }
}
