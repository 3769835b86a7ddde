/**
 * The least-recently-used store behind both caches: an OrderedDict, oldest key first
 * (pricing/cache.py, pricing/curve_cache.py).
 */
module Lru {
  import opened Wrappers

  /** `order` is the insertion order of the OrderedDict, `entries` its contents. */
  datatype Store<K, V> = Store(order: seq<K>, entries: map<K, V>)

  ghost predicate Distinct<K>(s: seq<K>) {
    s != [] ==> s[0] !in s[1..] && Distinct(s[1..])
  }

  ghost predicate Consistent<K, V>(s: Store<K, V>) {
    && Distinct(s.order)
    && (forall k :: k in s.order ==> k in s.entries)
    && (forall k :: k in s.entries ==> k in s.order)
  }

  function Without<K(==)>(s: seq<K>, k: K): seq<K> {
    if s == [] then []
    else if s[0] == k then Without(s[1..], k)
    else [s[0]] + Without(s[1..], k)
  }

  /** The newest m elements. */
  function Newest<K>(s: seq<K>, m: nat): seq<K> {
    if |s| <= m then s else s[|s| - m..]
  }

  /** move_to_end. */
  function Touch<K, V>(s: Store<K, V>, k: K): Store<K, V> {
    s.(order := Without(s.order, k) + [k])
  }

  function Assign<K, V>(s: Store<K, V>, k: K, v: V): Store<K, V> {
    Store(Without(s.order, k) + [k], s.entries[k := v])
  }

  function Restrict<K, V>(entries: map<K, V>, keys: seq<K>): map<K, V> {
    map k | k in entries && k in keys :: entries[k]
  }

  /** popitem(last=False). */
  function DropOldest<K, V>(s: Store<K, V>): Store<K, V>
    requires s.order != []
  {
    Store(s.order[1..], s.entries - {s.order[0]})
  }

  /** What eviction down to m entries leaves. */
  function Trim<K, V>(s: Store<K, V>, m: nat): Store<K, V> {
    if |s.order| <= m then s
    else Store(Newest(s.order, m), Restrict(s.entries, Newest(s.order, m)))
  }

  /** The locked second half of a miss: an existing entry wins, otherwise insert and evict. */
  function Insert<K, V>(s: Store<K, V>, k: K, v: V, m: nat): Store<K, V> {
    if k in s.entries then Touch(s, k) else Trim(Assign(s, k, v), m)
  }

  function Empty<K, V>(): Store<K, V> {
    Store([], map[])
  }

  // ----- each operation keeps order and contents together -----

  lemma {:induction false} WithoutMembers<K>(s: seq<K>, k: K)
    ensures forall x :: x in Without(s, k) <==> x in s && x != k
    ensures |Without(s, k)| <= |s|
    ensures k !in s ==> Without(s, k) == s
  {
    if s != [] {
      WithoutMembers(s[1..], k);
      assert s == [s[0]] + s[1..];
    }
  }

  lemma {:induction false} WithoutKeeps<K>(s: seq<K>, k: K)
    requires Distinct(s)
    ensures Distinct(Without(s, k)) && |Without(s, k)| >= |s| - 1
  {
    if s != [] {
      var h, t := s[0], s[1..];
      WithoutMembers(t, k);
      WithoutKeeps(t, k);
      if h != k {
        assert Without(s, k) == [h] + Without(t, k);
      }
    }
  }

  lemma {:induction false} SnocDistinct<K>(s: seq<K>, x: K)
    requires Distinct(s) && x !in s
    ensures Distinct(s + [x])
  {
    if s != [] {
      SnocDistinct(s[1..], x);
      assert (s + [x])[1..] == s[1..] + [x];
    }
  }

  lemma {:induction false} SuffixDistinct<K>(s: seq<K>, i: nat)
    requires Distinct(s) && i <= |s|
    ensures Distinct(s[i..])
  {
    if i > 0 {
      SuffixDistinct(s[1..], i - 1);
      assert s[i..] == s[1..][i - 1..];
    }
  }

  /** The order after a use of k. */
  lemma UsedOrder<K>(order: seq<K>, k: K)
    requires Distinct(order)
    ensures Distinct(Without(order, k) + [k])
    ensures forall x :: x in Without(order, k) + [k] <==> x in order || x == k
  {
    WithoutKeeps(order, k);
    WithoutMembers(order, k);
    SnocDistinct(Without(order, k), k);
  }

  lemma {:induction false} WithoutSnoc<K>(s: seq<K>, x: K, k: K)
    ensures Without(s + [x], k) == Without(s, k) + if x == k then [] else [x]
  {
    if s == [] {
      assert s + [x] == [x];
    } else {
      assert (s + [x])[1..] == s[1..] + [x];
      WithoutSnoc(s[1..], x, k);
    }
  }

  lemma TouchKeeps<K, V>(s: Store<K, V>, k: K)
    requires Consistent(s) && k in s.entries
    ensures Consistent(Touch(s, k)) && |Touch(s, k).order| == |s.order|
  {
    UsedOrder(s.order, k);
    var t := Touch(s, k);
    assert t.order == Without(s.order, k) + [k];
    forall x
      ensures x in t.order <==> x in t.entries
    {
      assert x in t.order <==> x in s.order || x == k;
    }
    assert Distinct(t.order);
    assert forall x :: x in t.order ==> x in t.entries;
    assert forall x :: x in t.entries ==> x in t.order;
    SizeIsLength(s);
    SizeIsLength(t);
  }

  lemma AssignKeeps<K, V>(s: Store<K, V>, k: K, v: V)
    requires Consistent(s)
    ensures Consistent(Assign(s, k, v))
  {
    UsedOrder(s.order, k);
    var t := Assign(s, k, v);
    assert t.order == Without(s.order, k) + [k];
    forall x
      ensures x in t.order <==> x in t.entries
    {
      assert x in t.entries <==> x in s.entries || x == k;
    }
    assert Distinct(t.order);
    assert forall x :: x in t.order ==> x in t.entries;
    assert forall x :: x in t.entries ==> x in t.order;
  }

  lemma TrimKeeps<K, V>(s: Store<K, V>, m: nat)
    requires Consistent(s)
    ensures Consistent(Trim(s, m)) && |Trim(s, m).order| <= m
    ensures forall k :: k in Trim(s, m).entries ==> k in s.entries && Trim(s, m).entries[k] == s.entries[k]
  {
    if |s.order| > m {
      SuffixDistinct(s.order, |s.order| - m);
    }
  }

  lemma DropOldestKeeps<K, V>(s: Store<K, V>)
    requires Consistent(s) && s.order != []
    ensures Consistent(DropOldest(s))
  {
    var t := DropOldest(s);
    assert s.order == [s.order[0]] + t.order;
    forall x
      ensures x in t.order <==> x in t.entries
    {
      assert x in t.entries <==> x in s.entries && x != s.order[0];
      assert x in s.order <==> x == s.order[0] || x in t.order;
    }
    assert forall x :: x in t.order ==> x in t.entries;
    assert forall x :: x in t.entries ==> x in t.order;
  }

  lemma RestrictAll<K, V>(s: Store<K, V>)
    requires Consistent(s)
    ensures Restrict(s.entries, s.order) == s.entries
  {
  }

  lemma RestrictAfterDrop<K, V>(s: Store<K, V>, keys: seq<K>)
    requires s.order != [] && s.order[0] !in keys
    ensures Restrict(DropOldest(s).entries, keys) == Restrict(s.entries, keys)
  {
  }

  /** Evicting the oldest first changes nothing about what is left in the end. */
  lemma TrimAfterDrop<K, V>(s: Store<K, V>, m: nat)
    requires Consistent(s) && |s.order| > m
    ensures Trim(DropOldest(s), m) == Trim(s, m)
  {
    var t := DropOldest(s);
    var keys := Newest(s.order, m);
    assert s.order == [s.order[0]] + t.order;
    NewestOfAppend([s.order[0]], t.order, m);
    NewestIsPart(t.order, m);
    RestrictAfterDrop(s, keys);
    if |t.order| <= m {
      DropOldestKeeps(s);
      RestrictAll(t);
    }
  }

  lemma NewestIsPart<K>(s: seq<K>, m: nat)
    ensures forall x :: x in Newest(s, m) ==> x in s
  {
  }

  /** Inserting keeps the store consistent and within bounds; entries are old ones or the new one. */
  lemma InsertKeeps<K, V>(s: Store<K, V>, k: K, v: V, m: nat)
    requires Consistent(s) && |s.order| <= m
    ensures Consistent(Insert(s, k, v, m)) && |Insert(s, k, v, m).order| <= m
    ensures forall x :: x in Insert(s, k, v, m).entries ==>
      Insert(s, k, v, m).entries[x] == if x in s.entries then s.entries[x] else v
    ensures forall x :: x in Insert(s, k, v, m).entries ==> x in s.entries || x == k
  {
    if k in s.entries {
      TouchKeeps(s, k);
    } else {
      AssignKeeps(s, k, v);
      TrimKeeps(Assign(s, k, v), m);
    }
  }

  lemma {:induction false} SizeOfDistinct<K>(s: seq<K>, keys: set<K>)
    requires Distinct(s) && forall k :: k in s <==> k in keys
    ensures |s| == |keys|
  {
    if s == [] {
      assert keys == {};
    } else {
      assert s == [s[0]] + s[1..];
      SizeOfDistinct(s[1..], keys - {s[0]});
    }
  }

  /** len() of the OrderedDict. */
  lemma SizeIsLength<K, V>(s: Store<K, V>)
    requires Consistent(s)
    ensures |s.entries| == |s.order|
  {
    SizeOfDistinct(s.order, s.entries.Keys);
    assert |s.entries| == |s.entries.Keys|;
  }

  // ----- recency -----

  /** Distinct keys of a history of uses, least recently used first. */
  function Recency<K(==)>(uses: seq<K>): seq<K> {
    if uses == [] then []
    else Without(Recency(uses[..|uses| - 1]), uses[|uses| - 1]) + [uses[|uses| - 1]]
  }

  lemma {:induction false} RecencyDistinct<K>(uses: seq<K>)
    ensures Distinct(Recency(uses)) && forall k :: k in Recency(uses) <==> k in uses
  {
    if uses != [] {
      var rest, x := uses[..|uses| - 1], uses[|uses| - 1];
      RecencyDistinct(rest);
      UsedOrder(Recency(rest), x);
      forall k
        ensures k in uses <==> k in rest || k == x
      {
        assert uses == rest + [x];
      }
    }
  }

  lemma NewestOfAppend<K>(p: seq<K>, t: seq<K>, m: nat)
    requires |t| >= m
    ensures Newest(p + t, m) == Newest(t, m)
  {
    var r := p + t;
    if |r| > m {
      assert r[|r| - m..] == t[|t| - m..];
    }
  }

  lemma WithoutCons<K>(h: K, t: seq<K>, k: K)
    ensures Without([h] + t, k) == (if h == k then [] else [h]) + Without(t, k)
  {
    assert ([h] + t)[1..] == t;
  }

  lemma NewestOfUsed<K>(p: seq<K>, w: seq<K>, k: K, m: nat)
    requires |w| + 1 >= m
    ensures Newest(p + w + [k], m) == Newest(w + [k], m)
  {
    assert p + w + [k] == p + (w + [k]);
    NewestOfAppend(p, w + [k], m);
  }

  lemma NewestTouchStep<K>(h: K, t: seq<K>, k: K, m: nat)
    requires m >= 1 && Distinct(t) && |t| >= m
    ensures Newest(Without([h] + t, k) + [k], m) == Newest(Without(t, k) + [k], m)
  {
    var p, w := if h == k then [] else [h], Without(t, k);
    WithoutCons(h, t, k);
    WithoutKeeps(t, k);
    NewestOfUsed(p, w, k, m);
  }

  /** Forgetting old keys before or after a use comes to the same. */
  lemma {:induction false} NewestOfTouch<K>(r: seq<K>, k: K, m: nat)
    requires m >= 1 && Distinct(r)
    ensures Newest(Without(r, k) + [k], m) == Newest(Without(Newest(r, m), k) + [k], m)
  {
    if |r| > m {
      var h, t := r[0], r[1..];
      assert r == [h] + t;
      NewestOfTouch(t, k, m);
      NewestOfAppend([h], t, m);
      NewestTouchStep(h, t, k, m);
    }
  }

  /** Recency splits at k: what follows it is exactly what was used after its last use. */
  lemma {:induction false} RecencySplit<K>(uses: seq<K>, i: nat) returns (older: seq<K>, newer: seq<K>)
    requires i < |uses| && uses[i] !in uses[i + 1..]
    ensures Recency(uses) == older + [uses[i]] + newer
    ensures forall x :: x in newer <==> x in uses[i + 1..]
    ensures uses[i] !in older
    decreases |uses|
  {
    var rest, x := uses[..|uses| - 1], uses[|uses| - 1];
    if i == |uses| - 1 {
      older, newer := Without(Recency(rest), x), [];
      WithoutMembers(Recency(rest), x);
    } else {
      assert uses[i + 1..] == rest[i + 1..] + [x];
      older, newer := RecencySplit(rest, i);
      WithoutSplit(older, uses[i], newer, x);
      WithoutMembers(older, x);
      WithoutMembers(newer, x);
      older, newer := Without(older, x), Without(newer, x) + [x];
    }
  }

  lemma {:induction false} WithoutSplit<K>(a: seq<K>, k: K, b: seq<K>, x: K)
    requires k != x
    ensures Without(a + [k] + b, x) == Without(a, x) + [k] + Without(b, x)
  {
    var whole := a + [k] + b;
    if a == [] {
      assert whole[1..] == b;
    } else {
      assert whole[1..] == a[1..] + [k] + b;
      WithoutSplit(a[1..], k, b, x);
    }
  }

  function KeysOf<K>(s: seq<K>): set<K> {
    set k | k in s
  }

  lemma {:induction false} DistinctSplit<K>(older: seq<K>, k: K, newer: seq<K>)
    requires Distinct(older + [k] + newer)
    ensures Distinct(newer) && k !in older && k !in newer
  {
    var r := older + [k] + newer;
    if older == [] {
      assert r[1..] == newer;
    } else {
      assert r[1..] == older[1..] + [k] + newer;
      DistinctSplit(older[1..], k, newer);
      assert k in r[1..];
    }
  }

  lemma MiddleIsNewest<K>(older: seq<K>, k: K, newer: seq<K>, m: nat)
    requires k !in newer
    ensures k in Newest(older + [k] + newer, m) <==> |newer| < m
  {
    var r := older + [k] + newer;
    var cut := if |r| <= m then 0 else |r| - m;
    assert Newest(r, m) == r[cut..];
    if cut <= |older| {
      assert r[cut..] == older[cut..] + [k] + newer;
    } else {
      assert r[cut..] == newer[cut - |older| - 1..];
    }
  }

  /** A key is among the m newest exactly when fewer than m other keys were used after its last use. */
  lemma NewestExactly<K>(uses: seq<K>, i: nat, m: nat)
    requires i < |uses| && uses[i] !in uses[i + 1..]
    ensures uses[i] in Newest(Recency(uses), m) <==> |KeysOf(uses[i + 1..])| < m
  {
    var older, newer := RecencySplit(uses, i);
    RecencyDistinct(uses);
    DistinctSplit(older, uses[i], newer);
    MiddleIsNewest(older, uses[i], newer, m);
    SizeOfDistinct(newer, KeysOf(uses[i + 1..]));
  }

  // ----- one order within another -----

  /** a is what is left of b after leaving some elements out. */
  ghost predicate Part<K>(a: seq<K>, b: seq<K>)
    decreases |b|
  {
    a == [] || (b != [] && if a[0] == b[0] then Part(a[1..], b[1..]) else Part(a, b[1..]))
  }

  lemma {:induction false} PartMembers<K>(a: seq<K>, b: seq<K>)
    requires Part(a, b)
    ensures forall k :: k in a ==> k in b
    decreases |b|
  {
    if a != [] {
      assert a == [a[0]] + a[1..];
      PartMembers(if a[0] == b[0] then a[1..] else a, b[1..]);
    }
  }

  lemma {:induction false} PartLength<K>(a: seq<K>, b: seq<K>)
    requires Part(a, b)
    ensures |a| <= |b|
    decreases |b|
  {
    if a != [] {
      PartLength(if a[0] == b[0] then a[1..] else a, b[1..]);
    }
  }

  /** Dropping the first of a, or adding one before b, leaves it a part. */
  lemma {:induction false} PartOfTail<K>(a: seq<K>, b: seq<K>)
    requires Part(a, b) && a != []
    ensures Part(a[1..], b[1..]) && Part(a[1..], b)
    decreases |b|
  {
    var t := if a[0] == b[0] then a[1..] else a;
    if a[0] != b[0] {
      PartOfTail(a, b[1..]);
    }
    if |a| > 1 {
      if a[1] == b[0] {
        PartOfTail(a[1..], b[1..]);
      }
    }
  }

  lemma PartTails<K>(a: seq<K>, b: seq<K>)
    requires Part(a, b) && a != []
    ensures b != [] && Part(a[1..], b[1..])
  {
    PartOfTail(a, b);
  }

  lemma {:induction false} PartSnoc<K>(a: seq<K>, b: seq<K>, k: K)
    requires Part(a, b)
    ensures Part(a + [k], b + [k])
    decreases |b|
  {
    if a == [] {
      EndIsPart(b, k);
      assert a + [k] == [k];
    } else {
      assert (a + [k])[1..] == a[1..] + [k] && (b + [k])[1..] == b[1..] + [k];
      PartSnoc(if a[0] == b[0] then a[1..] else a, b[1..], k);
    }
  }

  lemma {:induction false} EndIsPart<K>(b: seq<K>, k: K)
    ensures Part([k], b + [k])
    decreases |b|
  {
    if b != [] {
      assert (b + [k])[1..] == b[1..] + [k];
      EndIsPart(b[1..], k);
    }
  }

  lemma {:induction false} PartLonger<K>(a: seq<K>, b: seq<K>, k: K)
    requires Part(a, b)
    ensures Part(a, b + [k])
    decreases |b|
  {
    if a != [] {
      assert (b + [k])[1..] == b[1..] + [k];
      PartLonger(if a[0] == b[0] then a[1..] else a, b[1..], k);
    }
  }

  lemma {:induction false} PartWithout<K>(a: seq<K>, b: seq<K>, k: K)
    requires Part(a, b)
    ensures Part(Without(a, k), Without(b, k))
    decreases |b|
  {
    if a != [] {
      PartWithout(if a[0] == b[0] then a[1..] else a, b[1..], k);
      if a[0] != b[0] && b[0] != k {
        PartAfter(Without(a, k), Without(b[1..], k), b[0]);
      }
    }
  }

  lemma PartAfter<K>(a: seq<K>, b: seq<K>, h: K)
    requires Part(a, b)
    ensures Part(a, [h] + b)
  {
    assert ([h] + b)[1..] == b;
    if a != [] && a[0] == h {
      PartOfTail(a, b);
    }
  }

  /** The newest m of a part, from a part that is at most one longer. */
  lemma NewestOfPart<K>(a: seq<K>, b: seq<K>, m: nat)
    requires Part(a, b) && |a| <= m + 1
    ensures Part(Newest(a, m), b)
  {
    if |a| == m + 1 {
      PartOfTail(a, b);
      assert a[|a| - m..] == a[1..];
    }
  }
}
