/** The array operations the site's code uses: `Array.prototype.filter`, and
    `Array.prototype.sort` with a numeric comparator `(a, b) => key(a) - key(b)`.
    Since ECMAScript 2019 the sort is stable, so it is modelled by an insertion
    sort that places each element after every element whose key is not larger. */
module Lists {

  /** `s.filter(p)`. */
  function Filter<T>(s: seq<T>, p: T -> bool): (r: seq<T>)
    ensures |r| <= |s|
    ensures forall i :: 0 <= i < |r| ==> p(r[i])
  {
    if s == [] then [] else (if p(s[0]) then [s[0]] else []) + Filter(s[1..], p)
  }

  /** The filtered array holds exactly the elements of `s` that pass `p`. */
  lemma {:induction false} FilterMembers<T>(s: seq<T>, p: T -> bool, x: T)
    ensures x in Filter(s, p) <==> x in s && p(x)
  {
    if s != [] {
      FilterMembers(s[1..], p, x);
      assert s == [s[0]] + s[1..];
    }
  }

  lemma {:induction false} FilterAppend<T>(s: seq<T>, x: T, p: T -> bool)
    ensures Filter(s + [x], p) == Filter(s, p) + (if p(x) then [x] else [])
  {
    if s != [] {
      assert (s + [x])[1..] == s[1..] + [x];
      FilterAppend(s[1..], x, p);
    } else {
      assert ([x])[1..] == [];
    }
  }

  lemma {:induction false} FilterConcat<T>(a: seq<T>, b: seq<T>, p: T -> bool)
    ensures Filter(a + b, p) == Filter(a, p) + Filter(b, p)
  {
    if a != [] {
      assert (a + b)[1..] == a[1..] + b;
      FilterConcat(a[1..], b, p);
    } else {
      assert a + b == b;
    }
  }

  /** Filtering keeps a list whose elements all pass. */
  lemma {:induction false} FilterAll<T>(s: seq<T>, p: T -> bool)
    requires forall i :: 0 <= i < |s| ==> p(s[i])
    ensures Filter(s, p) == s
  {
    if s != [] {
      FilterAll(s[1..], p);
    }
  }

  /** Filtering empties a list whose elements all fail. */
  lemma {:induction false} FilterNone<T>(s: seq<T>, p: T -> bool)
    requires forall i :: 0 <= i < |s| ==> !p(s[i])
    ensures Filter(s, p) == []
  {
    if s != [] {
      FilterNone(s[1..], p);
    }
  }

  /** `s.slice(0, n)`. */
  function Take<T>(s: seq<T>, n: nat): (r: seq<T>)
    ensures |r| <= n && |r| <= |s|
    ensures |r| == n || r == s
    ensures r == s[..|r|]
  {
    if |s| <= n then s else s[..n]
  }

  predicate SortedBy<T>(s: seq<T>, key: T -> int) {
    forall i, j :: 0 <= i < j < |s| ==> key(s[i]) <= key(s[j])
  }

  /** The elements of `s` whose key is `k`, in their order in `s`. */
  function WithKey<T>(s: seq<T>, key: T -> int, k: int): (r: seq<T>)
    ensures |r| <= |s|
  {
    if s == [] then []
    else (if key(s[0]) == k then [s[0]] else []) + WithKey(s[1..], key, k)
  }

  /** Insert `x` into `s` after the longest prefix whose keys are at most `key(x)`. */
  function Insert<T>(s: seq<T>, x: T, key: T -> int): seq<T> {
    if s == [] then [x]
    else if key(s[0]) <= key(x) then [s[0]] + Insert(s[1..], x, key)
    else [x] + s
  }

  /** The sorted array, taking the elements of `s` from left to right. */
  function SortBy<T>(s: seq<T>, key: T -> int): seq<T> {
    if s == [] then [] else Insert(SortBy(s[..|s| - 1], key), s[|s| - 1], key)
  }

  lemma {:induction false} InsertPermutes<T>(s: seq<T>, x: T, key: T -> int)
    ensures multiset(Insert(s, x, key)) == multiset(s) + multiset{x}
  {
    if s != [] {
      assert s == [s[0]] + s[1..];
      if key(s[0]) <= key(x) {
        InsertPermutes(s[1..], x, key);
      }
    }
  }

  lemma {:induction false} InsertKeepsSorted<T>(s: seq<T>, x: T, key: T -> int)
    requires SortedBy(s, key)
    ensures SortedBy(Insert(s, x, key), key)
  {
    if s != [] && key(s[0]) <= key(x) {
      assert SortedBy(s[1..], key);
      InsertKeepsSorted(s[1..], x, key);
      var r := Insert(s[1..], x, key);
      InsertPermutes(s[1..], x, key);
      forall j | 0 <= j < |r|
        ensures key(s[0]) <= key(r[j])
      {
        assert r[j] in multiset(r);
        if r[j] != x {
          assert r[j] in multiset(s[1..]);
          var m :| 0 <= m < |s[1..]| && s[1..][m] == r[j];
          assert s[m + 1] == r[j];
        }
      }
      var t := [s[0]] + r;
      forall i, j | 0 <= i < j < |t|
        ensures key(t[i]) <= key(t[j])
      {
        if i > 0 {
          assert t[i] == r[i - 1] && t[j] == r[j - 1];
        } else {
          assert t[j] == r[j - 1];
        }
      }
    }
  }

  lemma {:induction false} InsertWithKey<T>(s: seq<T>, x: T, key: T -> int, k: int)
    requires SortedBy(s, key)
    ensures WithKey(Insert(s, x, key), key, k)
         == WithKey(s, key, k) + (if key(x) == k then [x] else [])
  {
    var e := if key(x) == k then [x] else [];
    if s == [] {
      assert [x][1..] == [];
    } else if key(s[0]) <= key(x) {
      var t := Insert(s[1..], x, key);
      var head := if key(s[0]) == k then [s[0]] else [];
      SortedTail(s, key);
      InsertWithKey(s[1..], x, key, k);
      assert ([s[0]] + t)[0] == s[0] && ([s[0]] + t)[1..] == t;
      calc {
        WithKey(Insert(s, x, key), key, k);
        WithKey([s[0]] + t, key, k);
        head + WithKey(t, key, k);
        head + (WithKey(s[1..], key, k) + e);
        (head + WithKey(s[1..], key, k)) + e;
        WithKey(s, key, k) + e;
      }
    } else {
      assert ([x] + s)[0] == x && ([x] + s)[1..] == s;
      assert WithKey([x] + s, key, k) == e + WithKey(s, key, k);
      if key(x) == k {
        SortedAbove(s, key, k);
        NoneWithKey(s, key, k);
      }
    }
  }

  lemma SortedTail<T>(s: seq<T>, key: T -> int)
    requires s != [] && SortedBy(s, key)
    ensures SortedBy(s[1..], key)
  {
    forall i, j | 0 <= i < j < |s| - 1
      ensures key(s[1..][i]) <= key(s[1..][j])
    {
      assert s[1..][i] == s[i + 1] && s[1..][j] == s[j + 1];
    }
  }

  /** In a sorted list whose first key is above `k`, every key is. */
  lemma SortedAbove<T>(s: seq<T>, key: T -> int, k: int)
    requires s != [] && SortedBy(s, key) && key(s[0]) > k
    ensures forall i :: 0 <= i < |s| ==> key(s[i]) > k
  {
    forall i | 0 < i < |s|
      ensures key(s[i]) > k
    {
      assert key(s[0]) <= key(s[i]);
    }
  }

  lemma {:induction false} NoneWithKey<T>(s: seq<T>, key: T -> int, k: int)
    requires forall i :: 0 <= i < |s| ==> key(s[i]) > k
    ensures WithKey(s, key, k) == []
  {
    if s != [] {
      NoneWithKey(s[1..], key, k);
    }
  }

  lemma {:induction false} WithKeyAppend<T>(s: seq<T>, x: T, key: T -> int, k: int)
    ensures WithKey(s + [x], key, k) == WithKey(s, key, k) + (if key(x) == k then [x] else [])
  {
    if s != [] {
      assert (s + [x])[1..] == s[1..] + [x];
      WithKeyAppend(s[1..], x, key, k);
    } else {
      assert ([x])[1..] == [];
    }
  }

  /** The sort puts the keys in ascending order, is a permutation, and is
      stable: for every key, the elements with that key keep their order. */
  lemma {:induction false} SortByCorrect<T>(s: seq<T>, key: T -> int)
    ensures SortedBy(SortBy(s, key), key)
    ensures multiset(SortBy(s, key)) == multiset(s)
    ensures forall k :: WithKey(SortBy(s, key), key, k) == WithKey(s, key, k)
  {
    if s != [] {
      var init, last := s[..|s| - 1], s[|s| - 1];
      SortByCorrect(init, key);
      InsertKeepsSorted(SortBy(init, key), last, key);
      InsertPermutes(SortBy(init, key), last, key);
      assert s == init + [last];
      forall k
        ensures WithKey(SortBy(s, key), key, k) == WithKey(s, key, k)
      {
        InsertWithKey(SortBy(init, key), last, key, k);
        WithKeyAppend(init, last, key, k);
      }
    }
  }
}
