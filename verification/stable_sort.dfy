/** A stable sort by a natural-number key, as `Array.prototype.sort` performs it with a
    comparator that subtracts the two keys: the result is a permutation of the input,
    non-decreasing by key, and keeps the input order among elements of equal key. */
module StableSort {

  /** Non-decreasing by key. */
  ghost predicate SortedBy<T>(s: seq<T>, key: T -> nat)
  {
    forall i, j :: 0 <= i < j < |s| ==> key(s[i]) <= key(s[j])
  }

  /** The elements of key `k`, in their order in `s`. A sort is stable when it keeps this
      sequence the same for every `k`. */
  function WithKey<T>(s: seq<T>, key: T -> nat, k: nat): seq<T>
  {
    if s == [] then []
    else WithKey(s[..|s| - 1], key, k) + (if key(s[|s| - 1]) == k then [s[|s| - 1]] else [])
  }

  /** Where `x` goes in `t`: after the last element, scanning from the right, whose key is at
      most its own. */
  function InsertPos<T>(t: seq<T>, x: T, key: T -> nat): (p: nat)
    ensures p <= |t|
  {
    if t == [] || key(t[|t| - 1]) <= key(x) then |t| else InsertPos(t[..|t| - 1], x, key)
  }

  function Insert<T>(t: seq<T>, x: T, key: T -> nat): seq<T>
  {
    var p := InsertPos(t, x, key);
    t[..p] + [x] + t[p..]
  }

  /** Insertion of each element, in list order, after every element of equal or smaller key:
      a sorted, stable permutation of `s` (SortCorrect). */
  function SortBy<T>(s: seq<T>, key: T -> nat): seq<T>
  {
    if s == [] then [] else Insert(SortBy(s[..|s| - 1], key), s[|s| - 1], key)
  }

  // ------------------------------------------------------------ lemmas about Insert

  lemma {:induction false} InsertPosSplits<T>(t: seq<T>, x: T, key: T -> nat)
    requires SortedBy(t, key)
    ensures forall j :: 0 <= j < InsertPos(t, x, key) ==> key(t[j]) <= key(x)
    ensures forall j :: InsertPos(t, x, key) <= j < |t| ==> key(t[j]) > key(x)
    decreases |t|
  {
    if t != [] && key(t[|t| - 1]) > key(x) {
      InsertPosSplits(t[..|t| - 1], x, key);
    }
  }

  lemma InsertSorted<T>(t: seq<T>, x: T, key: T -> nat)
    requires SortedBy(t, key)
    ensures SortedBy(Insert(t, x, key), key)
  {
    InsertPosSplits(t, x, key);
    var p := InsertPos(t, x, key);
    var r := Insert(t, x, key);
    forall i, j | 0 <= i < j < |r| ensures key(r[i]) <= key(r[j]) {
      if j < p || i > p {
        assert i > p ==> r[i] == t[i - 1] && r[j] == t[j - 1];
      } else if i == p {
        assert r[j] == t[j - 1];
      } else if j == p {
        assert r[i] == t[i];
      } else {
        assert r[i] == t[i] && r[j] == t[j - 1];
      }
    }
  }

  lemma {:induction false} WithKeyAppend<T>(a: seq<T>, b: seq<T>, key: T -> nat, k: nat)
    ensures WithKey(a + b, key, k) == WithKey(a, key, k) + WithKey(b, key, k)
    decreases |b|
  {
    if b == [] {
      assert a + b == a;
    } else {
      var b' := b[..|b| - 1];
      assert (a + b)[..|a + b| - 1] == a + b';
      WithKeyAppend(a, b', key, k);
    }
  }

  lemma {:induction false} WithKeyNone<T>(s: seq<T>, key: T -> nat, k: nat)
    requires forall j :: 0 <= j < |s| ==> key(s[j]) != k
    ensures WithKey(s, key, k) == []
    decreases |s|
  {
    if s != [] {
      WithKeyNone(s[..|s| - 1], key, k);
    }
  }

  lemma WithKeySingle<T>(x: T, key: T -> nat, k: nat)
    ensures WithKey([x], key, k) == if key(x) == k then [x] else []
  {
    assert [x][..0] == [];
  }

  /** Inserting `x` adds it to the end of its own key's subsequence and to no other. */
  lemma InsertStable<T>(t: seq<T>, x: T, key: T -> nat, k: nat)
    requires SortedBy(t, key)
    ensures WithKey(Insert(t, x, key), key, k)
            == WithKey(t, key, k) + (if key(x) == k then [x] else [])
  {
    var p := InsertPos(t, x, key);
    var lo, hi := t[..p], t[p..];
    assert t == lo + hi;
    WithKeyAppend(lo, hi, key, k);
    WithKeyAppend(lo + [x], hi, key, k);
    WithKeyAppend(lo, [x], key, k);
    WithKeySingle(x, key, k);
    if key(x) == k {
      InsertPosSplits(t, x, key);
      HighKeysAbsent(t, p, key, k);
    }
  }

  /** No element after position `p` has key `k` when every one of them has a larger key. */
  lemma HighKeysAbsent<T>(t: seq<T>, p: nat, key: T -> nat, k: nat)
    requires p <= |t|
    requires forall j :: p <= j < |t| ==> key(t[j]) > k
    ensures WithKey(t[p..], key, k) == []
  {
    var hi := t[p..];
    forall j | 0 <= j < |hi| ensures key(hi[j]) != k {
      assert hi[j] == t[p + j];
    }
    WithKeyNone(hi, key, k);
  }

  // ------------------------------------------------------------ the sort is correct

  lemma {:induction false} SortSorted<T>(s: seq<T>, key: T -> nat)
    ensures SortedBy(SortBy(s, key), key)
    decreases |s|
  {
    if s != [] {
      SortSorted(s[..|s| - 1], key);
      InsertSorted(SortBy(s[..|s| - 1], key), s[|s| - 1], key);
    }
  }

  lemma {:induction false} SortPermutes<T>(s: seq<T>, key: T -> nat)
    ensures multiset(SortBy(s, key)) == multiset(s)
    decreases |s|
  {
    if s != [] {
      var s' := s[..|s| - 1];
      var t := SortBy(s', key);
      SortPermutes(s', key);
      var p := InsertPos(t, s[|s| - 1], key);
      assert t == t[..p] + t[p..];
      assert s == s' + [s[|s| - 1]];
    }
  }

  lemma {:induction false} SortStable<T>(s: seq<T>, key: T -> nat, k: nat)
    ensures WithKey(SortBy(s, key), key, k) == WithKey(s, key, k)
    decreases |s|
  {
    if s != [] {
      var s' := s[..|s| - 1];
      SortStable(s', key, k);
      SortSorted(s', key);
      InsertStable(SortBy(s', key), s[|s| - 1], key, k);
    }
  }

  /** The sorted list is a permutation of the input, non-decreasing by key, and keeps the
      input order among elements of equal key. */
  lemma SortCorrect<T>(s: seq<T>, key: T -> nat)
    ensures SortedBy(SortBy(s, key), key)
    ensures multiset(SortBy(s, key)) == multiset(s)
    ensures forall k: nat :: WithKey(SortBy(s, key), key, k) == WithKey(s, key, k)
  {
    SortSorted(s, key);
    SortPermutes(s, key);
    forall k: nat ensures WithKey(SortBy(s, key), key, k) == WithKey(s, key, k) {
      SortStable(s, key, k);
    }
  }

  // ------------------------------------------------------------ in place, on an array

  /** Moves `a[i]` left past every element of `a[..i]` with a larger key. */
  method InsertInPlace<T>(a: array<T>, i: nat, key: T -> nat)
    requires i < a.Length
    modifies a
    ensures a[..i + 1] == Insert(old(a[..i]), old(a[i]), key)
    ensures forall k :: i < k < a.Length ==> a[k] == old(a[k])
  {
    ghost var sorted := a[..i];
    var x := a[i];
    var j := i;
    assert sorted[..j] == sorted;
    while j > 0 && key(a[j - 1]) > key(x)
      invariant 0 <= j <= i
      invariant forall k :: 0 <= k < j ==> a[k] == sorted[k]
      invariant forall k :: j < k <= i ==> a[k] == sorted[k - 1]
      invariant forall k :: i < k < a.Length ==> a[k] == old(a[k])
      invariant InsertPos(sorted, x, key) == InsertPos(sorted[..j], x, key)
    {
      assert a[j - 1] == sorted[..j][j - 1] && sorted[..j][..j - 1] == sorted[..j - 1];
      a[j] := a[j - 1];
      j := j - 1;
    }
    a[j] := x;
    assert InsertPos(sorted[..j], x, key) == j;
    assert a[..i + 1] == sorted[..j] + [x] + sorted[j..];
  }

  /** `items.sort((a, b) => key(a) - key(b))`, as an insertion sort. */
  method SortInPlace<T>(a: array<T>, key: T -> nat)
    modifies a
    ensures a[..] == SortBy(old(a[..]), key)
  {
    ghost var input := a[..];
    var i := 0;
    while i < a.Length
      invariant 0 <= i <= a.Length
      invariant a[..i] == SortBy(input[..i], key)
      invariant forall k :: i <= k < a.Length ==> a[k] == input[k]
    {
      InsertInPlace(a, i, key);
      assert input[..i + 1][..i] == input[..i];
      i := i + 1;
    }
    assert input[..a.Length] == input;
  }
}
