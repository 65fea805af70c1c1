/** `Array.prototype.filter`, keyed lookup in an ordered table, and their laws. */
module Seqs {
  import opened Wrappers

  /** `s.filter(p)`: the elements satisfying `p`, in their original order. */
  function Filter<T>(s: seq<T>, p: T -> bool): (r: seq<T>)
    ensures |r| <= |s|
    decreases |s|
  {
    if |s| == 0 then [] else Filter(s[..|s| - 1], p) + (if p(s[|s| - 1]) then [s[|s| - 1]] else [])
  }

  /** The filter keeps exactly the elements that satisfy the predicate. */
  lemma {:induction false} FilterMembers<T>(s: seq<T>, p: T -> bool)
    ensures forall x :: x in Filter(s, p) <==> x in s && p(x)
    decreases |s|
  {
    if |s| > 0 {
      FilterMembers(s[..|s| - 1], p);
      assert s == s[..|s| - 1] + [s[|s| - 1]];
    }
  }

  /** Filtering distributes over concatenation, which is what "order-preserving" means. */
  lemma {:induction false} FilterConcat<T>(a: seq<T>, b: seq<T>, p: T -> bool)
    ensures Filter(a + b, p) == Filter(a, p) + Filter(b, p)
    decreases |b|
  {
    if |b| == 0 {
      assert a + b == a;
    } else {
      var b' := b[..|b| - 1];
      assert (a + b)[..|a + b| - 1] == a + b';
      FilterConcat(a, b', p);
    }
  }

  /** Filtering a prefix one element longer adds at most that element. */
  lemma FilterSnoc<T>(s: seq<T>, i: nat, p: T -> bool)
    requires i < |s|
    ensures Filter(s[..i + 1], p) == Filter(s[..i], p) + (if p(s[i]) then [s[i]] else [])
  {
    assert s[..i + 1][..i] == s[..i];
  }

  /** A filter keeps everything exactly when everything satisfies the predicate. */
  lemma {:induction false} FilterAll<T>(s: seq<T>, p: T -> bool)
    ensures Filter(s, p) == s <==> forall k :: 0 <= k < |s| ==> p(s[k])
    decreases |s|
  {
    if |s| > 0 {
      var s' := s[..|s| - 1];
      FilterAll(s', p);
      if !p(s[|s| - 1]) {
        assert |Filter(s, p)| < |s|;
      }
      if forall k :: 0 <= k < |s| ==> p(s[k]) {
        assert forall k :: 0 <= k < |s'| ==> p(s'[k]) by {
          forall k | 0 <= k < |s'| ensures p(s'[k]) { assert s'[k] == s[k]; }
        }
        assert s == s' + [s[|s| - 1]];
      }
      if Filter(s, p) == s {
        assert Filter(s', p) == Filter(s, p)[..|s| - 1] == s';
        forall k | 0 <= k < |s| ensures p(s[k]) {
          if k < |s| - 1 { assert s[k] == s'[k]; }
        }
      }
    }
  }

  /** The number of elements satisfying two disjoint predicates never exceeds the length. */
  lemma {:induction false} FilterCountsDisjoint<T>(s: seq<T>, p: T -> bool, q: T -> bool)
    requires forall x :: !(p(x) && q(x))
    ensures |Filter(s, p)| + |Filter(s, q)| <= |s|
    decreases |s|
  {
    if |s| > 0 {
      FilterCountsDisjoint(s[..|s| - 1], p, q);
    }
  }

  /** A filter is empty exactly when no element satisfies the predicate. */
  lemma {:induction false} FilterEmpty<T>(s: seq<T>, p: T -> bool)
    ensures Filter(s, p) == [] <==> forall k :: 0 <= k < |s| ==> !p(s[k])
    decreases |s|
  {
    if |s| > 0 {
      var s' := s[..|s| - 1];
      FilterEmpty(s', p);
      if forall k :: 0 <= k < |s| ==> !p(s[k]) {
        assert forall k :: 0 <= k < |s'| ==> !p(s'[k]) by {
          forall k | 0 <= k < |s'| ensures !p(s'[k]) { assert s'[k] == s[k]; }
        }
      }
      if Filter(s, p) == [] {
        forall k | 0 <= k < |s| ensures !p(s[k]) {
          if k < |s| - 1 { assert s[k] == s'[k]; }
        }
      }
    }
  }

  /** A filter is non-empty exactly when some element satisfies the predicate. */
  lemma FilterNonEmpty<T>(s: seq<T>, p: T -> bool)
    ensures |Filter(s, p)| > 0 <==> exists x :: x in s && p(x)
  {
    FilterMembers(s, p);
    var r := Filter(s, p);
    if |r| > 0 {
      assert r[0] in r;
    }
  }

  /** The head of a filter is the first element that satisfies the predicate. */
  lemma {:induction false} FilterFirst<T>(s: seq<T>, p: T -> bool, k: nat)
    requires k < |s| && p(s[k])
    requires forall j :: 0 <= j < k ==> !p(s[j])
    ensures |Filter(s, p)| > 0 && Filter(s, p)[0] == s[k]
    decreases |s|
  {
    var s' := s[..|s| - 1];
    if k == |s| - 1 {
      FilterEmpty(s', p);
    } else {
      FilterFirst(s', p, k);
    }
  }

  /** No element occurs twice. */
  predicate Distinct<T(==)>(s: seq<T>) {
    forall i, j :: 0 <= i < j < |s| ==> s[i] != s[j]
  }

  /** A filter of a sequence without repeats has none either. */
  lemma {:induction false} FilterDistinct<T>(s: seq<T>, p: T -> bool)
    requires Distinct(s)
    ensures Distinct(Filter(s, p))
    decreases |s|
  {
    if |s| > 0 {
      var s' := s[..|s| - 1];
      var x := s[|s| - 1];
      FilterDistinct(s', p);
      FilterMembers(s', p);
      assert x !in s' by {
        forall k | 0 <= k < |s'| ensures s'[k] != x { assert s'[k] == s[k]; }
      }
    }
  }

  /** Appending an element not yet present keeps a sequence free of repeats. */
  lemma DistinctSnoc<T>(s: seq<T>, x: T)
    requires Distinct(s) && x !in s
    ensures Distinct(s + [x])
  {
    var t := s + [x];
    forall i, j | 0 <= i < j < |t| ensures t[i] != t[j] {
      assert t[i] == s[i];
      if j == |s| {
        assert t[i] in s;
      } else {
        assert t[j] == s[j];
      }
    }
  }

  /** Both predicates hold. */
  function And<T>(p: T -> bool, q: T -> bool): T -> bool {
    x => p(x) && q(x)
  }

  /** Two successive filters keep what satisfies both predicates. */
  lemma {:induction false} FilterFilter<T>(s: seq<T>, p: T -> bool, q: T -> bool)
    ensures Filter(Filter(s, p), q) == Filter(s, And(p, q))
    decreases |s|
  {
    if |s| > 0 {
      var s' := s[..|s| - 1];
      var x := s[|s| - 1];
      FilterFilter(s', p, q);
      var tail: seq<T> := if p(x) then [x] else [];
      FilterConcat(Filter(s', p), tail, q);
      if p(x) {
        assert Filter(tail, q) == Filter([], q) + (if q(x) then [x] else []);
      }
    }
  }

  /** Appending after a concatenation appends to its second part. */
  lemma AppendAssoc<T>(a: seq<T>, b: seq<T>, c: seq<T>)
    ensures (a + b) + c == a + (b + c)
  {
  }

  /** Something in a three-part concatenation satisfies `p` exactly when something in one part does. */
  lemma ExistsInConcat3<T>(a: seq<T>, b: seq<T>, c: seq<T>, p: T -> bool)
    ensures (exists x :: x in a + b + c && p(x)) <==>
      (exists x :: x in a && p(x)) || (exists x :: x in b && p(x)) || (exists x :: x in c && p(x))
  {
    if exists x :: x in a + b + c && p(x) {
      var x :| x in a + b + c && p(x);
      assert x in a || x in b || x in c;
    }
  }

  /** `s.map(f)`: one image per element, in order. */
  function Map<A, B>(s: seq<A>, f: A -> B): (r: seq<B>)
    ensures |r| == |s|
    decreases |s|
  {
    if |s| == 0 then [] else Map(s[..|s| - 1], f) + [f(s[|s| - 1])]
  }

  /** The image at each position is the image of the element there. */
  lemma {:induction false} MapAt<A, B>(s: seq<A>, f: A -> B, k: nat)
    requires k < |s|
    ensures Map(s, f)[k] == f(s[k])
    decreases |s|
  {
    if k < |s| - 1 {
      MapAt(s[..|s| - 1], f, k);
    }
  }

  /** Mapping distributes over concatenation. */
  lemma {:induction false} MapConcat<A, B>(a: seq<A>, b: seq<A>, f: A -> B)
    ensures Map(a + b, f) == Map(a, f) + Map(b, f)
    decreases |b|
  {
    if |b| == 0 {
      assert a + b == a;
    } else {
      var b' := b[..|b| - 1];
      assert (a + b)[..|a + b| - 1] == a + b';
      MapConcat(a, b', f);
    }
  }

  /** Mapping a sequence one element longer adds that element's image. */
  lemma MapSnoc<A, B>(s: seq<A>, x: A, f: A -> B)
    ensures Map(s + [x], f) == Map(s, f) + [f(x)]
  {
    assert (s + [x])[..|s|] == s;
  }

  /** Each image comes from an element, and each element's image is there. */
  lemma MapMembers<A, B>(s: seq<A>, f: A -> B, y: B)
    ensures y in Map(s, f) <==> exists x :: x in s && y == f(x)
  {
    if y in Map(s, f) {
      var k :| 0 <= k < |s| && Map(s, f)[k] == y;
      MapAt(s, f, k);
      assert s[k] in s;
    }
    if exists x :: x in s && y == f(x) {
      var x :| x in s && y == f(x);
      var k :| 0 <= k < |s| && s[k] == x;
      MapAt(s, f, k);
      assert Map(s, f)[k] == y;
    }
  }

  /** Some image satisfies `p` exactly when some element satisfies `q`, if `q` is `p` after `f`. */
  lemma MapExists<A, B>(s: seq<A>, f: A -> B, p: B -> bool, q: A -> bool)
    requires forall x :: p(f(x)) == q(x)
    ensures (exists y :: y in Map(s, f) && p(y)) <==> (exists x :: x in s && q(x))
  {
    if exists y :: y in Map(s, f) && p(y) {
      var y :| y in Map(s, f) && p(y);
      MapMembers(s, f, y);
    }
    if exists x :: x in s && q(x) {
      var x :| x in s && q(x);
      MapMembers(s, f, f(x));
    }
  }

  /** Every image satisfies `p` when `p` holds after `f` on every element. */
  lemma MapForall<A, B>(s: seq<A>, f: A -> B, p: B -> bool)
    requires forall x :: x in s ==> p(f(x))
    ensures forall y :: y in Map(s, f) ==> p(y)
  {
    forall y | y in Map(s, f) ensures p(y) {
      MapMembers(s, f, y);
    }
  }

  /** Element `k` is the first one that satisfies `p`. */
  predicate FirstAt<T>(s: seq<T>, p: T -> bool, k: int) {
    0 <= k < |s| && p(s[k]) && forall j :: 0 <= j < k ==> !p(s[j])
  }

  /** `s.find(p)`: the first element that satisfies `p`, absent when none does. */
  function FindFirst<T>(s: seq<T>, p: T -> bool): (r: Option<T>)
    ensures r.Some? ==> exists k :: FirstAt(s, p, k) && s[k] == r.value
    ensures r.None? <==> forall k :: 0 <= k < |s| ==> !p(s[k])
    decreases |s|
  {
    if |s| == 0 then None
    else if p(s[0]) then
      assert FirstAt(s, p, 0);
      Some(s[0])
    else
      var r := FindFirst(s[1..], p);
      assert forall k :: 1 <= k < |s| ==> s[k] == s[1..][k - 1];
      assert forall k :: FirstAt(s[1..], p, k) ==> FirstAt(s, p, k + 1);
      r
  }

  /** Searching from `i` either stops at element `i` or goes on from `i + 1`. */
  lemma FindFirstFrom<T>(s: seq<T>, p: T -> bool, i: nat)
    requires i < |s|
    ensures FindFirst(s[i..], p) == if p(s[i]) then Some(s[i]) else FindFirst(s[i + 1..], p)
  {
    assert s[i..][0] == s[i];
    assert s[i..][1..] == s[i + 1..];
  }

  /** Finding in a filtered sequence finds an element passing both tests, and fails only when none does. */
  lemma FindInFilter<T>(s: seq<T>, q: T -> bool, p: T -> bool)
    ensures var r := FindFirst(Filter(s, q), p);
      r.Some? ==> exists k :: 0 <= k < |s| && s[k] == r.value && q(s[k]) && p(s[k])
    ensures FindFirst(Filter(s, q), p).None? <==> forall k :: 0 <= k < |s| && q(s[k]) ==> !p(s[k])
  {
    var t := Filter(s, q);
    FilterMembers(s, q);
    var r := FindFirst(t, p);
    if r.Some? {
      var m :| FirstAt(t, p, m) && t[m] == r.value;
      assert t[m] in t;
    } else {
      forall k | 0 <= k < |s| && q(s[k]) ensures !p(s[k]) {
        assert s[k] in t;
      }
    }
    if forall k :: 0 <= k < |s| && q(s[k]) ==> !p(s[k]) {
      forall m | 0 <= m < |t| ensures !p(t[m]) {
        assert t[m] in t;
      }
    }
  }

  /** `table[key]` for an ordered table with string-like keys: the first entry with that key. */
  function Lookup<K(==), V>(table: seq<(K, V)>, key: K): Option<V>
    decreases |table|
  {
    if |table| == 0 then None
    else if table[0].0 == key then Some(table[0].1)
    else Lookup(table[1..], key)
  }

  /** The lookup finds a value exactly when some entry has the key, and then it is the first such entry's. */
  lemma {:induction false} LookupFirst<K, V>(table: seq<(K, V)>, key: K)
    ensures Lookup(table, key).Some? <==> exists i :: 0 <= i < |table| && table[i].0 == key
    ensures Lookup(table, key).Some? ==> exists i :: FirstKeyAt(table, key, i) && table[i].1 == Lookup(table, key).value
    decreases |table|
  {
    if |table| > 0 {
      if table[0].0 == key {
        assert FirstKeyAt(table, key, 0);
      } else {
        LookupFirst(table[1..], key);
        assert forall i :: 1 <= i < |table| ==> table[i] == table[1..][i - 1];
        assert forall i :: FirstKeyAt(table[1..], key, i) ==> FirstKeyAt(table, key, i + 1);
      }
    }
  }

  /** Entry `i` is the first one whose key is `key`. */
  predicate FirstKeyAt<K(==), V>(table: seq<(K, V)>, key: K, i: int) {
    0 <= i < |table| && table[i].0 == key && forall j :: 0 <= j < i ==> table[j].0 != key
  }

  /** Two predicates that agree on every element keep the same elements. */
  lemma {:induction false} FilterAgree<T>(s: seq<T>, p: T -> bool, q: T -> bool)
    requires forall k :: 0 <= k < |s| ==> p(s[k]) == q(s[k])
    ensures Filter(s, p) == Filter(s, q)
    decreases |s|
  {
    if |s| > 0 {
      var s' := s[..|s| - 1];
      assert forall k :: 0 <= k < |s'| ==> s'[k] == s[k];
      FilterAgree(s', p, q);
    }
  }

  // ---------------------------------------------------------------------
  // `Array.prototype.sort` with a comparator

  /** `cmp` never ranks both a before b and b before a. */
  ghost predicate Antisymmetric<T(!new)>(cmp: (T, T) -> int) {
    forall a, b :: cmp(a, b) > 0 ==> cmp(b, a) < 0
  }

  /** Each element is ranked no later than the next one. */
  predicate Ordered<T>(s: seq<T>, cmp: (T, T) -> int) {
    forall k :: 0 <= k < |s| - 1 ==> cmp(s[k], s[k + 1]) <= 0
  }

  /** The values `f(0) .. f(n-1)`, in order. */
  function Tabulate<T>(f: nat -> T, n: nat): (r: seq<T>)
    ensures |r| == n
  {
    if n == 0 then [] else Tabulate(f, n - 1) + [f(n - 1)]
  }

  lemma {:induction false} TabulateAt<T>(f: nat -> T, n: nat, k: nat)
    requires k < n
    ensures Tabulate(f, n)[k] == f(k)
    decreases n
  {
    if k < n - 1 {
      TabulateAt(f, n - 1, k);
    }
  }

  /** Puts `x` before the first element it does not rank after. */
  function Insert<T>(x: T, s: seq<T>, cmp: (T, T) -> int): (r: seq<T>)
    ensures |r| == |s| + 1 && multiset(r) == multiset(s) + multiset{x}
    ensures r[0] == x || (|s| > 0 && r[0] == s[0])
    decreases |s|
  {
    if |s| == 0 then [x]
    else if cmp(x, s[0]) <= 0 then [x] + s
    else
      assert s == [s[0]] + s[1..];
      [s[0]] + Insert(x, s[1..], cmp)
  }

  /** A stable sort by `cmp`: each element goes ahead of the equal ones that follow it. */
  function SortBy<T>(s: seq<T>, cmp: (T, T) -> int): (r: seq<T>)
    ensures |r| == |s| && multiset(r) == multiset(s)
    decreases |s|
  {
    if |s| == 0 then []
    else
      assert s == [s[0]] + s[1..];
      Insert(s[0], SortBy(s[1..], cmp), cmp)
  }

  lemma {:induction false} InsertOrdered<T(!new)>(x: T, s: seq<T>, cmp: (T, T) -> int)
    requires Antisymmetric(cmp) && Ordered(s, cmp)
    ensures Ordered(Insert(x, s, cmp), cmp)
    decreases |s|
  {
    if |s| > 0 && cmp(x, s[0]) > 0 {
      var t := Insert(x, s[1..], cmp);
      assert Ordered(s[1..], cmp) by {
        forall k | 0 <= k < |s[1..]| - 1 ensures cmp(s[1..][k], s[1..][k + 1]) <= 0 {
          assert s[1..][k] == s[k + 1] && s[1..][k + 1] == s[k + 2];
        }
      }
      InsertOrdered(x, s[1..], cmp);
      var r := [s[0]] + t;
      assert cmp(s[0], r[1]) <= 0 by {
        if t[0] == x { assert cmp(s[0], x) < 0; } else { assert t[0] == s[1]; }
      }
      forall k | 0 <= k < |r| - 1 ensures cmp(r[k], r[k + 1]) <= 0 {
        if k > 0 { assert r[k] == t[k - 1] && r[k + 1] == t[k]; }
      }
    }
  }

  /** With an antisymmetric comparator the sorted sequence is ordered; it is always a permutation. */
  lemma {:induction false} SortByOrdered<T(!new)>(s: seq<T>, cmp: (T, T) -> int)
    requires Antisymmetric(cmp)
    ensures Ordered(SortBy(s, cmp), cmp) && multiset(SortBy(s, cmp)) == multiset(s)
    decreases |s|
  {
    if |s| > 0 {
      SortByOrdered(s[1..], cmp);
      InsertOrdered(s[0], SortBy(s[1..], cmp), cmp);
    }
  }
}
