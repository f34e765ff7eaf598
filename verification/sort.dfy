/** Python's `list.sort(key=...)`: a stable sort on an integer key, as insertion
    sort on sequences. */
module Sorting {

  /** The keys never decrease along `s`. */
  predicate SortedBy<T>(s: seq<T>, key: T -> int)
  {
    forall i, j :: 0 <= i < j < |s| ==> key(s[i]) <= key(s[j])
  }

  /** The elements of `s` whose key is `k`, in their order in `s`. */
  function WithKey<T>(s: seq<T>, key: T -> int, k: int): seq<T>
  {
    if |s| == 0 then []
    else WithKey(s[..|s| - 1], key, k) + (if key(s[|s| - 1]) == k then [s[|s| - 1]] else [])
  }

  /** `x` placed into sorted `s` after every element whose key is not above its own. */
  function Insert<T>(x: T, s: seq<T>, key: T -> int): (r: seq<T>)
    requires SortedBy(s, key)
    ensures SortedBy(r, key)
    ensures multiset(r) == multiset(s) + multiset{x}
    ensures |r| == |s| + 1
  {
    if |s| == 0 then
      [x]
    else
      var last := s[|s| - 1];
      var init := s[..|s| - 1];
      assert s == init + [last];
      if key(last) <= key(x) then
        s + [x]
      else
        var r' := Insert(x, init, key);
        var r := r' + [last];
        assert forall i :: 0 <= i < |r'| ==> key(r'[i]) <= key(last) by {
          forall i | 0 <= i < |r'|
            ensures key(r'[i]) <= key(last)
          {
            assert r'[i] in multiset(r');
            if r'[i] != x {
              assert r'[i] in multiset(init);
              var j :| 0 <= j < |init| && init[j] == r'[i];
              assert s[j] == init[j];
            }
          }
        }
        r
  }

  /** Stable sort of `s` by `key`. */
  function SortBy<T>(s: seq<T>, key: T -> int): (r: seq<T>)
    ensures SortedBy(r, key)
    ensures multiset(r) == multiset(s)
    ensures |r| == |s|
  {
    if |s| == 0 then []
    else
      assert s == s[..|s| - 1] + [s[|s| - 1]];
      Insert(s[|s| - 1], SortBy(s[..|s| - 1], key), key)
  }

  /** Inserting `x` adds it behind the elements of equal key already present. */
  lemma {:induction false} InsertWithKey<T>(x: T, s: seq<T>, key: T -> int, k: int)
    requires SortedBy(s, key)
    ensures WithKey(Insert(x, s, key), key, k) == WithKey(s, key, k) + (if key(x) == k then [x] else [])
  {
    if |s| > 0 {
      var last := s[|s| - 1];
      var init := s[..|s| - 1];
      var r := Insert(x, s, key);
      if key(last) <= key(x) {
        assert r[..|r| - 1] == s;
      } else {
        var r' := Insert(x, init, key);
        assert r == r' + [last];
        assert r[..|r| - 1] == r';
        InsertWithKey(x, init, key, k);
        assert WithKey(s, key, k) == WithKey(init, key, k) + (if key(last) == k then [last] else []);
      }
    }
  }

  /** The sort is stable: elements of one key keep their relative order. */
  lemma {:induction false} SortStable<T>(s: seq<T>, key: T -> int, k: int)
    ensures WithKey(SortBy(s, key), key, k) == WithKey(s, key, k)
  {
    if |s| > 0 {
      var init := s[..|s| - 1];
      SortStable(init, key, k);
      InsertWithKey(s[|s| - 1], SortBy(init, key), key, k);
    }
  }

  /** Sorting what is already sorted changes nothing. */
  lemma {:induction false} SortSorted<T>(s: seq<T>, key: T -> int)
    requires SortedBy(s, key)
    ensures SortBy(s, key) == s
  {
    if |s| > 0 {
      var init := s[..|s| - 1];
      assert SortedBy(init, key);
      SortSorted(init, key);
      assert s == init + [s[|s| - 1]];
    }
  }
}
