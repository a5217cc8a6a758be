/**
 * The recency order of the LRU cache as a value: the live entries listed from the
 * most recently used (head) to the least recently used (tail), together with the
 * effect of `put`, `get` and `delete` on that list. The arena-based cache in
 * lru.dfy is proved to follow these functions step by step.
 */
module Recency {

  datatype Option<T> = None | Some(value: T)

  /** One cached item: its key, the opaque cached value, the caller's declared size
      in bytes and the instant (in milliseconds) from which it counts as expired. */
  datatype Entry<V> = Entry(key: string, value: V, size: int, expiresAt: int)

  /** The keys of a recency list, head first. */
  function Keys<V>(s: seq<Entry<V>>): seq<string>
  {
    seq(|s|, i requires 0 <= i < |s| => s[i].key)
  }

  /** No key occurs twice: the lookup table can map each key to one node. */
  predicate UniqueKeys<V>(s: seq<Entry<V>>)
  {
    forall i, j :: 0 <= i < j < |s| ==> s[i].key != s[j].key
  }

  /** The position of the first entry with key `k`, if any. */
  function Find<V>(s: seq<Entry<V>>, k: string): (r: Option<nat>)
    ensures r.Some? ==> r.value < |s| && s[r.value].key == k
    ensures r.Some? ==> forall j :: 0 <= j < r.value ==> s[j].key != k
    ensures r.None? <==> forall j :: 0 <= j < |s| ==> s[j].key != k
  {
    if |s| == 0 then None
    else if s[0].key == k then Some(0)
    else match Find(s[1..], k)
      case None => None
      case Some(i) => Some(i + 1)
  }

  /** What the lookup table holds for `k`: the entry, or nothing. */
  function Lookup<V>(s: seq<Entry<V>>, k: string): Option<Entry<V>>
  {
    match Find(s, k)
    case None => None
    case Some(i) => Some(s[i])
  }

  /** The list with position `i` unlinked; the others keep their order. */
  function Without<T>(s: seq<T>, i: nat): (r: seq<T>)
    requires i < |s|
    ensures |r| == |s| - 1
    ensures forall j :: 0 <= j < |r| ==> r[j] == if j < i then s[j] else s[j + 1]
  {
    s[..i] + s[i + 1..]
  }

  /** The list with position `i` moved to the head. */
  function MoveToFront<T>(s: seq<T>, i: nat): (r: seq<T>)
    requires i < |s|
    ensures |r| == |s| && r[0] == s[i]
  {
    [s[i]] + Without(s, i)
  }

  /** Evicts from the tail while more than `cap` entries are live. */
  function Evict<T>(t: seq<T>, cap: nat): seq<T>
  {
    if |t| > cap then t[..cap] else t
  }

  /** `delete(key)`: unlink the entry with that key; an absent key changes nothing. */
  function Remove<V>(s: seq<Entry<V>>, k: string): (r: seq<Entry<V>>)
    ensures |r| == if Find(s, k).Some? then |s| - 1 else |s|
  {
    match Find(s, k)
    case None => s
    case Some(i) => Without(s, i)
  }

  /** `put`: drop an older entry with the same key, insert the new entry at the head,
      then evict least recently used entries beyond the capacity `cap`. */
  function Put<V>(s: seq<Entry<V>>, e: Entry<V>, cap: nat): (r: seq<Entry<V>>)
    ensures |r| <= cap && |r| <= |s| + 1
    ensures cap > 0 ==> 0 < |r| && r[0] == e
  {
    Evict([e] + Remove(s, e.key), cap)
  }

  /** `get(key)` at instant `now`: the value found (if any) and the new recency list.
      A live entry moves to the head; an expired one is unlinked and reported absent. */
  function Get<V>(s: seq<Entry<V>>, k: string, now: int): (r: (Option<V>, seq<Entry<V>>))
    ensures |r.1| <= |s|
    ensures r.0.Some? ==> 0 < |r.1| == |s| && r.1[0].key == k && r.1[0].value == r.0.value
    ensures r.0.Some? ==> 0 < |r.1| && now < r.1[0].expiresAt
    ensures Find(s, k).None? ==> r == (None, s)
  {
    match Find(s, k)
    case None => (None, s)
    case Some(i) =>
      if now >= s[i].expiresAt then (None, Without(s, i))
      else (Some(s[i].value), MoveToFront(s, i))
  }

  /** A run of `put`s, oldest first. */
  function PutAll<V>(s: seq<Entry<V>>, es: seq<Entry<V>>, cap: nat): seq<Entry<V>>
  {
    if es == [] then s else Put(PutAll(s, es[..|es| - 1], cap), es[|es| - 1], cap)
  }

  function Reverse<T>(s: seq<T>): seq<T>
  {
    if s == [] then [] else [s[|s| - 1]] + Reverse(s[..|s| - 1])
  }

  /** Position `j` of the reverse is position `|s| - 1 - j` of `s`. */
  lemma {:induction false} ReverseAt<T>(s: seq<T>)
    ensures |Reverse(s)| == |s|
    ensures forall j :: 0 <= j < |s| ==> Reverse(s)[j] == s[|s| - 1 - j]
  {
    if s != [] {
      ReverseAt(s[..|s| - 1]);
    }
  }

  /** With unique keys, the entry at position `i` is the one found for its key. */
  lemma FindUnique<V>(s: seq<Entry<V>>, i: nat)
    requires UniqueKeys(s) && i < |s|
    ensures Find(s, s[i].key) == Some(i)
    ensures Lookup(s, s[i].key) == Some(s[i])
  {
  }

  /** Unlinking one position keeps keys unique. */
  lemma WithoutUnique<V>(s: seq<Entry<V>>, i: nat)
    requires UniqueKeys(s) && i < |s|
    ensures UniqueKeys(Without(s, i))
  {
    var r := Without(s, i);
    forall a, b | 0 <= a < b < |r| ensures r[a].key != r[b].key {
      assert r[a] == s[if a < i then a else a + 1];
      assert r[b] == s[if b < i then b else b + 1];
    }
  }

  /** Unlinking position `i` of a list with unique keys hides that key only. */
  lemma LookupWithout<V>(s: seq<Entry<V>>, i: nat, k': string)
    requires UniqueKeys(s) && i < |s| && k' != s[i].key
    ensures Lookup(Without(s, i), k') == Lookup(s, k')
  {
    var r := Without(s, i);
    WithoutUnique(s, i);
    match Find(s, k')
    case None =>
      assert forall j :: 0 <= j < |r| ==> r[j] == s[if j < i then j else j + 1];
    case Some(j) =>
      var j' := if j < i then j else j - 1;
      assert r[j'] == s[j];
      FindUnique(r, j');
  }

  /** `delete` keeps keys unique, removes exactly its key, and leaves the entry
      of every other key where the table had it. */
  lemma RemoveSpec<V>(s: seq<Entry<V>>, k: string)
    requires UniqueKeys(s)
    ensures UniqueKeys(Remove(s, k))
    ensures Lookup(Remove(s, k), k) == None
    ensures forall k' :: k' != k ==> Lookup(Remove(s, k), k') == Lookup(s, k')
    ensures |Remove(s, k)| == if Lookup(s, k).Some? then |s| - 1 else |s|
  {
    match Find(s, k)
    case None =>
    case Some(i) =>
      WithoutUnique(s, i);
      var r := Without(s, i);
      assert forall j :: 0 <= j < |r| ==> r[j].key != k by {
        forall j | 0 <= j < |r| ensures r[j].key != k {
          assert r[j] == s[if j < i then j else j + 1];
        }
      }
      forall k' | k' != k
        ensures Lookup(r, k') == Lookup(s, k')
      {
        LookupWithout(s, i, k');
      }
  }

  /** `put` keeps keys unique and the entry count within `cap`; when `cap > 0` the
      new entry is the head and the table finds it under its key. */
  lemma PutSpec<V>(s: seq<Entry<V>>, e: Entry<V>, cap: nat)
    requires UniqueKeys(s) && |s| <= cap
    ensures UniqueKeys(Put(s, e, cap))
    ensures |Put(s, e, cap)| <= cap
    ensures cap > 0 ==> Put(s, e, cap)[0] == e && Lookup(Put(s, e, cap), e.key) == Some(e)
  {
    RemoveSpec(s, e.key);
    var t := [e] + Remove(s, e.key);
    forall j | 0 <= j < |Remove(s, e.key)|
      ensures Remove(s, e.key)[j].key != e.key
    {
      FindUnique(Remove(s, e.key), j);
    }
    assert UniqueKeys(t);
    if cap > 0 {
      FindUnique(Put(s, e, cap), 0);
    }
  }

  /** A `put` of a new key below capacity only adds the new head. */
  lemma PutFreshBelowCapacity<V>(s: seq<Entry<V>>, e: Entry<V>, cap: nat)
    requires Find(s, e.key).None? && |s| < cap
    ensures Put(s, e, cap) == [e] + s
  {
  }

  /** A `put` of a new key at capacity evicts exactly the tail. */
  lemma PutFreshAtCapacity<V>(s: seq<Entry<V>>, e: Entry<V>, cap: nat)
    requires Find(s, e.key).None? && |s| == cap > 0
    ensures Put(s, e, cap) == [e] + s[..|s| - 1]
  {
  }

  /** Entries `es` with distinct new keys, put oldest first into `s`: what is left is
      the newest `cap` of them and of `s`, most recent at the head. */
  lemma {:induction false} PutAllKeepsNewest<V>(s: seq<Entry<V>>, es: seq<Entry<V>>, cap: nat)
    requires |s| <= cap
    requires UniqueKeys(Reverse(es) + s)
    ensures PutAll(s, es, cap) == Evict(Reverse(es) + s, cap)
  {
    if es != [] {
      var init, e := es[..|es| - 1], es[|es| - 1];
      var x := Reverse(init) + s;
      assert Reverse(es) + s == [e] + x;
      UniqueTail([e], x);
      PutAllKeepsNewest(s, init, cap);
      HeadKeyFresh(e, x);
      PutFreshAfterEvict(x, e, cap);
    }
  }

  /** With unique keys, the head's key occurs nowhere behind it. */
  lemma HeadKeyFresh<V>(e: Entry<V>, x: seq<Entry<V>>)
    requires UniqueKeys([e] + x)
    ensures forall j :: 0 <= j < |x| ==> x[j].key != e.key
  {
    forall j | 0 <= j < |x| ensures x[j].key != e.key {
      assert ([e] + x)[0] == e && ([e] + x)[j + 1] == x[j];
    }
  }

  /** Evicting first and then putting a new key is evicting once after the insert. */
  lemma PutFreshAfterEvict<V>(x: seq<Entry<V>>, e: Entry<V>, cap: nat)
    requires forall j :: 0 <= j < |x| ==> x[j].key != e.key
    ensures Put(Evict(x, cap), e, cap) == Evict([e] + x, cap)
  {
    var p := Evict(x, cap);
    assert forall j :: 0 <= j < |p| ==> p[j] == x[j];
    assert Find(p, e.key).None?;
  }

  /** Where each position of `s` lands after moving position `i` to the head. */
  lemma MoveToFrontAt<T>(s: seq<T>, i: nat, j: nat)
    requires i < |s| && j < |s|
    ensures MoveToFront(s, i)[if j == i then 0 else if j < i then j + 1 else j] == s[j]
  {
  }

  lemma MoveToFrontUnique<V>(s: seq<Entry<V>>, i: nat)
    requires UniqueKeys(s) && i < |s|
    ensures UniqueKeys(MoveToFront(s, i))
  {
    var r := MoveToFront(s, i);
    forall a, b | 0 <= a < b < |r| ensures r[a].key != r[b].key {
      var a' := if a == 0 then i else if a - 1 < i then a - 1 else a;
      var b' := if b - 1 < i then b - 1 else b;
      MoveToFrontAt(s, i, a');
      MoveToFrontAt(s, i, b');
    }
  }

  /** Moving one entry to the head is a permutation that keeps keys unique and
      changes no key's entry. */
  lemma MoveToFrontSpec<V>(s: seq<Entry<V>>, i: nat)
    requires UniqueKeys(s) && i < |s|
    ensures multiset(MoveToFront(s, i)) == multiset(s)
    ensures UniqueKeys(MoveToFront(s, i))
    ensures forall k :: Lookup(MoveToFront(s, i), k) == Lookup(s, k)
  {
    var r := MoveToFront(s, i);
    assert s == s[..i] + [s[i]] + s[i + 1..];
    assert r == [s[i]] + s[..i] + s[i + 1..];
    MoveToFrontUnique(s, i);
    forall k ensures Lookup(r, k) == Lookup(s, k) {
      match Find(s, k)
      case None =>
        forall j | 0 <= j < |r| ensures r[j].key != k {
          MoveToFrontAt(s, i, if j == 0 then i else if j - 1 < i then j - 1 else j);
        }
      case Some(j) =>
        var j' := if j == i then 0 else if j < i then j + 1 else j;
        MoveToFrontAt(s, i, j);
        FindUnique(r, j');
    }
  }

  /** What `get` returns: the value of a live entry, nothing for an absent or an
      expired key; the recency list keeps unique keys and never grows. */
  lemma GetSpec<V>(s: seq<Entry<V>>, k: string, now: int)
    requires UniqueKeys(s)
    ensures Get(s, k, now).0 == match Lookup(s, k)
      case None => None
      case Some(e) => if now < e.expiresAt then Some(e.value) else None
    ensures UniqueKeys(Get(s, k, now).1)
    ensures |Get(s, k, now).1| <= |s|
  {
    match Find(s, k)
    case None =>
    case Some(i) =>
      if now >= s[i].expiresAt {
        WithoutUnique(s, i);
      } else {
        MoveToFrontSpec(s, i);
      }
  }

  /** `get` of a live key makes its entry the head and keeps the relative order of
      all other entries; every key still finds the entry it found before. */
  lemma GetLive<V>(s: seq<Entry<V>>, k: string, now: int)
    requires UniqueKeys(s) && Lookup(s, k).Some? && now < Lookup(s, k).value.expiresAt
    ensures Get(s, k, now).0 == Some(Lookup(s, k).value.value)
    ensures Get(s, k, now).1[0] == Lookup(s, k).value
    ensures Get(s, k, now).1[1..] == Remove(s, k)
    ensures forall k' :: Lookup(Get(s, k, now).1, k') == Lookup(s, k')
  {
    var i := Find(s, k).value;
    MoveToFrontSpec(s, i);
    assert MoveToFront(s, i)[1..] == Without(s, i);
  }

  /** `get` at or after an entry's expiry instant reports it absent and unlinks it. */
  lemma GetExpired<V>(s: seq<Entry<V>>, k: string, now: int)
    requires UniqueKeys(s) && Lookup(s, k).Some? && now >= Lookup(s, k).value.expiresAt
    ensures Get(s, k, now) == (None, Remove(s, k))
    ensures Lookup(Get(s, k, now).1, k) == None
  {
    RemoveSpec(s, k);
  }

  /** The time-to-live window of a freshly put entry: `get` finds it strictly
      before its expiry instant and not from then on, when it is also unlinked. */
  lemma PutThenGet<V>(s: seq<Entry<V>>, e: Entry<V>, cap: nat, now: int)
    requires UniqueKeys(s) && |s| <= cap && cap > 0
    ensures Get(Put(s, e, cap), e.key, now).0 == if now < e.expiresAt then Some(e.value) else None
    ensures now >= e.expiresAt ==> Get(Put(s, e, cap), e.key, now).1 == Put(s, e, cap)[1..]
  {
    PutSpec(s, e, cap);
    var r := Put(s, e, cap);
    FindUnique(r, 0);
    GetSpec(r, e.key, now);
  }

  lemma UniqueTail<V>(a: seq<Entry<V>>, b: seq<Entry<V>>)
    requires UniqueKeys(a + b)
    ensures UniqueKeys(b)
  {
    forall i, j | 0 <= i < j < |b| ensures b[i].key != b[j].key {
      assert (a + b)[|a| + i] == b[i] && (a + b)[|a| + j] == b[j];
    }
  }
}
