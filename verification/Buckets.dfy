/** Bucket maps: the lists of ids that an index keeps per key (crates/index). */
module Buckets {
  import opened Core

  type Buckets<!K> = map<K, seq<string>>

  function PushUnique(s: seq<string>, x: string): seq<string> {
    if x in s then s else s + [x]
  }

  /** `retain(|existing| existing != value)`. */
  function Without(s: seq<string>, x: string): seq<string> {
    if s == [] then [] else if s[0] == x then Without(s[1..], x) else [s[0]] + Without(s[1..], x)
  }

  function Bucket<K>(m: Buckets<K>, k: K): seq<string> {
    if k in m then m[k] else []
  }

  function PushBucket<K>(m: Buckets<K>, k: K, x: string): Buckets<K> {
    m[k := PushUnique(Bucket(m, k), x)]
  }

  /** `remove_from_bucket`: an emptied bucket goes too. */
  function RemoveFromBucket<K>(m: Buckets<K>, k: K, x: string): Buckets<K> {
    if k !in m then m else if Without(m[k], x) == [] then m - {k} else m[k := Without(m[k], x)]
  }

  /** `remove_from_bucket` on every bucket. */
  function RemoveEverywhere<K>(m: Buckets<K>, x: string): Buckets<K> {
    map k | k in m && Without(m[k], x) != [] :: Without(m[k], x)
  }

  ghost predicate NoDup(s: seq<string>) {
    s == [] || (s[0] !in s[1..] && NoDup(s[1..]))
  }

  /** No bucket is empty and none lists an id twice. */
  ghost predicate Tidy<K(!new)>(m: Buckets<K>) {
    forall k | k in m :: m[k] != [] && NoDup(m[k])
  }

  ghost predicate Holds<K>(m: Buckets<K>, k: K, x: string) {
    k in m && x in m[k]
  }

  // ---------------------------------------------------------------- one bucket

  lemma {:induction false} PushNoDup(s: seq<string>, x: string)
    requires NoDup(s)
    ensures NoDup(PushUnique(s, x)) && x in PushUnique(s, x)
    ensures forall y :: y in PushUnique(s, x) <==> y in s || y == x
  {
    if s != [] && x !in s {
      PushNoDup(s[1..], x);
      assert (s + [x])[1..] == s[1..] + [x];
    }
  }

  lemma {:induction false} WithoutExact(s: seq<string>, x: string)
    ensures forall y :: y in Without(s, x) <==> y in s && y != x
    ensures NoDup(s) ==> NoDup(Without(s, x))
  {
    if s != [] {
      WithoutExact(s[1..], x);
    }
  }

  // ---------------------------------------------------------------- maps of buckets

  lemma PushBucketHolds<K(!new)>(m: Buckets<K>, k: K, x: string)
    requires Tidy(m)
    ensures Tidy(PushBucket(m, k, x))
    ensures forall k', y :: Holds(PushBucket(m, k, x), k', y) <==> Holds(m, k', y) || (k' == k && y == x)
  {
    PushNoDup(Bucket(m, k), x);
  }

  lemma RemoveFromBucketHolds<K(!new)>(m: Buckets<K>, k: K, x: string)
    requires Tidy(m)
    ensures Tidy(RemoveFromBucket(m, k, x))
    ensures forall k', y :: Holds(RemoveFromBucket(m, k, x), k', y) <==> Holds(m, k', y) && !(k' == k && y == x)
  {
    if k in m {
      WithoutExact(m[k], x);
    }
  }

  lemma RemoveEverywhereHolds<K(!new)>(m: Buckets<K>, x: string)
    requires Tidy(m)
    ensures Tidy(RemoveEverywhere(m, x))
    ensures forall k', y :: Holds(RemoveEverywhere(m, x), k', y) <==> Holds(m, k', y) && y != x
  {
    forall k | k in m ensures NoDup(Without(m[k], x)) && forall y :: y in Without(m[k], x) <==> y in m[k] && y != x {
      WithoutExact(m[k], x);
    }
  }

  // ---------------------------------------------------------------- what a bucket map files

  /** The buckets are tidy and list each id under exactly the keys that `keys` gives it. */
  ghost predicate Files<K(!new)>(m: Buckets<K>, keys: map<string, set<K>>) {
    Tidy(m) && forall k, x :: Holds(m, k, x) <==> x in keys && k in keys[x]
  }

  lemma FilesMore<K(!new)>(m: Buckets<K>, keys: map<string, set<K>>, m': Buckets<K>, x: string, ks: set<K>)
    requires Files(m, keys) && x !in keys && Tidy(m')
    requires forall k, y :: Holds(m', k, y) <==> Holds(m, k, y) || (k in ks && y == x)
    ensures Files(m', keys[x := ks])
  {
  }

  lemma FilesLess<K(!new)>(m: Buckets<K>, keys: map<string, set<K>>, m': Buckets<K>, x: string)
    requires Files(m, keys) && Tidy(m')
    requires x in keys ==> forall k, y :: Holds(m', k, y) <==> Holds(m, k, y) && !(k in keys[x] && y == x)
    requires x !in keys ==> m' == m
    ensures Files(m', keys - {x})
  {
  }

  lemma FilesPush<K(!new)>(m: Buckets<K>, keys: map<string, set<K>>, k: K, x: string)
    requires Files(m, keys) && x !in keys
    ensures Files(PushBucket(m, k, x), keys[x := {k}])
  {
    PushBucketHolds(m, k, x);
    FilesMore(m, keys, PushBucket(m, k, x), x, {k});
  }

  lemma FilesRemove<K(!new)>(m: Buckets<K>, keys: map<string, set<K>>, k: K, x: string)
    requires Files(m, keys) && x in keys && keys[x] == {k}
    ensures Files(RemoveFromBucket(m, k, x), keys - {x})
  {
    RemoveFromBucketHolds(m, k, x);
    FilesLess(m, keys, RemoveFromBucket(m, k, x), x);
  }

  lemma FilesNothing<K(!new)>(m: Buckets<K>, keys: map<string, set<K>>, x: string)
    requires Files(m, keys)
    ensures x !in keys ==> Files(m, keys[x := {}])
    ensures x in keys && keys[x] == {} ==> Files(m, keys - {x})
  {
  }

  lemma FilesRemoveEverywhere<K(!new)>(m: Buckets<K>, keys: map<string, set<K>>, x: string)
    requires Files(m, keys)
    ensures Files(RemoveEverywhere(m, x), keys - {x})
  {
    RemoveEverywhereHolds(m, x);
  }

  lemma HoldsSome<K(!new)>(m: Buckets<K>, k: K)
    requires Tidy(m)
    ensures k in m <==> exists x :: Holds(m, k, x)
  {
    if k in m {
      assert Holds(m, k, m[k][0]);
    }
  }

  lemma {:induction false} NoDupCount(s: seq<string>)
    requires NoDup(s)
    ensures |SetOf(s)| == |s|
  {
    if s != [] {
      NoDupCount(s[1..]);
      assert s == [s[0]] + s[1..];
      assert SetOf(s) == {s[0]} + SetOf(s[1..]);
    }
  }

  /** Two bucket maps that file the same things have the same keys and, bucket by bucket, the
      same members, each listed once. */
  lemma FilesUnique<K(!new)>(a: Buckets<K>, b: Buckets<K>, keys: map<string, set<K>>)
    requires Files(a, keys) && Files(b, keys)
    ensures a.Keys == b.Keys
    ensures forall k | k in a :: SetOf(a[k]) == SetOf(b[k]) && |a[k]| == |b[k]| == |SetOf(a[k])|
  {
    forall k ensures k in a <==> k in b {
      HoldsSome(a, k);
      HoldsSome(b, k);
      if k in a {
        var x :| Holds(a, k, x);
        assert Holds(b, k, x);
      }
      if k in b {
        var x :| Holds(b, k, x);
        assert Holds(a, k, x);
      }
    }
    forall k | k in a ensures SetOf(a[k]) == SetOf(b[k]) && |a[k]| == |b[k]| == |SetOf(a[k])| {
      forall x ensures x in a[k] <==> x in b[k] {
        assert Holds(a, k, x) <==> Holds(b, k, x);
      }
      NoDupCount(a[k]);
      NoDupCount(b[k]);
    }
  }
}
