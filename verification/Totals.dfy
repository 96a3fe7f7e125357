// Totals of integer-valued maps, and the counting facts that connect them.
module Totals {

  function Min(a: int, b: int): int {
    if a <= b then a else b
  }

  function Max(a: int, b: int): int {
    if a <= b then b else a
  }

  ghost function Pick<T>(s: set<T>): (x: T)
    requires s != {}
    ensures x in s
  {
    var x :| x in s;
    x
  }

  // The sum of all values of a map.
  ghost function Total<K>(m: map<K, int>): int
    decreases m.Keys
  {
    if m.Keys == {} then 0 else
      var k := Pick(m.Keys);
      m[k] + Total(m - {k})
  }

  lemma {:induction false} TotalRemove<K>(m: map<K, int>, k: K)
    requires k in m
    ensures Total(m) == m[k] + Total(m - {k})
    decreases m.Keys
  {
    var j := Pick(m.Keys);
    if j != k {
      var both := m - {j, k};
      assert m - {j} - {k} == both;
      assert m - {k} - {j} == both;
      assert (m - {j}).Keys == m.Keys - {j} && (m - {k}).Keys == m.Keys - {k};
      TotalRemove(m - {j}, k);
      TotalRemove(m - {k}, j);
    }
  }

  lemma TotalUpdate<K>(m: map<K, int>, k: K, v: int)
    ensures Total(m[k := v]) == Total(m) + v - (if k in m then m[k] else 0)
  {
    var m' := m[k := v];
    TotalRemove(m', k);
    if k in m {
      TotalRemove(m, k);
      assert m' - {k} == m - {k};
    } else {
      assert m' - {k} == m;
    }
  }

  lemma {:induction false} TotalMonotone<K>(m: map<K, int>, m': map<K, int>)
    requires m.Keys == m'.Keys
    requires forall k :: k in m ==> m[k] <= m'[k]
    ensures Total(m) <= Total(m')
    decreases m.Keys
  {
    if m.Keys == {} {
      assert m == m';
    } else {
      var k :| k in m;
      TotalRemove(m, k);
      TotalRemove(m', k);
      TotalMonotone(m - {k}, m' - {k});
    }
  }

  lemma {:induction false} TotalNonNegative<K>(m: map<K, int>)
    requires forall k :: k in m ==> 0 <= m[k]
    ensures 0 <= Total(m)
    ensures forall k :: k in m ==> m[k] <= Total(m)
    decreases m.Keys
  {
    if m.Keys != {} {
      forall k | k in m
        ensures m[k] <= Total(m) && 0 <= Total(m)
      {
        TotalRemove(m, k);
        TotalNonNegative(m - {k});
      }
      var k :| k in m;
    }
  }

  ghost function Part<P, K>(owner: map<P, K>, k: K): set<P> {
    set p | p in owner && owner[p] == k
  }

  ghost function Sizes<P, K>(owner: map<P, K>, ks: set<K>): map<K, int> {
    map k | k in ks :: |Part(owner, k)|
  }

  // Taking one owner's part out leaves the sizes of the other parts as they were.
  lemma SizesWithout<P, K>(owner: map<P, K>, ks: set<K>, k: K)
    ensures Sizes(owner, ks) - {k} == Sizes(owner - Part(owner, k), ks - {k})
  {
    forall j | j in ks - {k}
      ensures Part(owner, j) == Part(owner - Part(owner, k), j)
    {
    }
  }

  // A population split by owner has as many members as its parts together.
  lemma {:induction false} CountByOwner<P, K>(owner: map<P, K>, ks: set<K>)
    requires forall p :: p in owner ==> owner[p] in ks
    ensures |owner| == Total(Sizes(owner, ks))
    decreases |ks|
  {
    if |ks| == 0 {
      assert owner.Keys == {};
    } else {
      var k :| k in ks;
      var rest := owner - Part(owner, k);
      CountByOwner(rest, ks - {k});
      SizesWithout(owner, ks, k);
      TotalRemove(Sizes(owner, ks), k);
      assert owner.Keys == Part(owner, k) + rest.Keys;
    }
  }

  // A part with as many members as the whole is the whole.
  lemma SubsetIffAsMany<T>(part: set<T>, all: set<T>)
    requires part <= all
    ensures all <= part <==> |part| == |all|
  {
    assert all == part + (all - part);
    assert part * (all - part) == {};
  }

  // Storing twice under one key is storing the second value.
  lemma UpdatedTwice<K, V>(m: map<K, V>, k: K, first: V, second: V)
    ensures m[k := first][k := second] == m[k := second]
    ensures k in m && m[k] == first ==> m[k := first] == m
  {
  }

  // Different members have different images, so there are no more of them than of images.
  lemma {:induction false} InjectiveCount<S, T>(image: map<S, T>, part: set<S>, images: set<T>)
    requires forall x :: x in part ==> x in image && image[x] in images
    requires forall x, y :: x in part && y in part && x != y ==> image[x] != image[y]
    ensures |part| <= |images|
    decreases |part|
  {
    if |part| > 0 {
      var x :| x in part;
      InjectiveCount(image, part - {x}, images - {image[x]});
    }
  }
}
