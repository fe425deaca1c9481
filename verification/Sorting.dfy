/** The stable sort JavaScript's Array.prototype.sort performs for a numeric comparison key. */
module Sorting {

  ghost predicate SortedBy<T>(s: seq<T>, key: T -> real) {
    forall i, j :: 0 <= i < j < |s| ==> key(s[i]) <= key(s[j])
  }

  /** Puts `x` behind everything whose key is not larger, starting from the end. */
  function Insert<T>(s: seq<T>, x: T, key: T -> real): seq<T> {
    if s == [] then [x]
    else if key(s[|s| - 1]) <= key(x) then s + [x]
    else Insert(s[..|s| - 1], x, key) + [s[|s| - 1]]
  }

  lemma {:induction false} InsertIsPermutation<T>(s: seq<T>, x: T, key: T -> real)
    ensures multiset(Insert(s, x, key)) == multiset(s) + multiset{x}
  {
    if s != [] && key(s[|s| - 1]) > key(x) {
      InsertIsPermutation(s[..|s| - 1], x, key);
      assert s == s[..|s| - 1] + [s[|s| - 1]];
    }
  }

  lemma {:induction false} InsertKeepsSorted<T>(s: seq<T>, x: T, key: T -> real)
    requires SortedBy(s, key)
    ensures SortedBy(Insert(s, x, key), key)
  {
    if s != [] && key(s[|s| - 1]) > key(x) {
      var init := s[..|s| - 1];
      InsertKeepsSorted(init, x, key);
      InsertIsPermutation(init, x, key);
      var r := Insert(init, x, key);
      forall i | 0 <= i < |r| ensures key(r[i]) <= key(s[|s| - 1]) {
        assert r[i] in multiset(r);
        assert r[i] in init || r[i] == x;
      }
    }
  }

  function SortBy<T>(s: seq<T>, key: T -> real): seq<T> {
    if s == [] then [] else Insert(SortBy(s[..|s| - 1], key), s[|s| - 1], key)
  }

  lemma {:induction false} SortByIsPermutation<T>(s: seq<T>, key: T -> real)
    ensures multiset(SortBy(s, key)) == multiset(s)
  {
    hide Insert;
    if s != [] {
      var init, last := s[..|s| - 1], s[|s| - 1];
      SortByIsPermutation(init, key);
      InsertIsPermutation(SortBy(init, key), last, key);
      assert s == init + [last];
    }
  }

  lemma {:induction false} SortByIsSorted<T>(s: seq<T>, key: T -> real)
    ensures SortedBy(SortBy(s, key), key)
  {
    if s != [] {
      SortByIsSorted(s[..|s| - 1], key);
      InsertKeepsSorted(SortBy(s[..|s| - 1], key), s[|s| - 1], key);
    }
  }

  /** The elements with the given key, in their order. */
  ghost function WithKey<T>(s: seq<T>, key: T -> real, v: real): seq<T> {
    if s == [] then []
    else WithKey(s[..|s| - 1], key, v) + if key(s[|s| - 1]) == v then [s[|s| - 1]] else []
  }

  lemma WithKeyPush<T>(s: seq<T>, x: T, key: T -> real, v: real)
    ensures WithKey(s + [x], key, v) == WithKey(s, key, v) + if key(x) == v then [x] else []
  {
    assert (s + [x])[..|s|] == s;
  }

  lemma {:induction false} InsertIsStable<T>(s: seq<T>, x: T, key: T -> real, v: real)
    ensures WithKey(Insert(s, x, key), key, v) == WithKey(s, key, v) + if key(x) == v then [x] else []
  {
    if s == [] {
      WithKeyPush([], x, key, v);
      assert [] + [x] == [x];
    } else if key(s[|s| - 1]) <= key(x) {
      WithKeyPush(s, x, key, v);
    } else {
      var init, last := s[..|s| - 1], s[|s| - 1];
      InsertIsStable(init, x, key, v);
      WithKeyPush(Insert(init, x, key), last, key, v);
      assert WithKey(init, key, v) + [] == WithKey(init, key, v);
    }
  }

  /** Elements with equal keys keep their order. */
  lemma {:induction false} SortByIsStable<T>(s: seq<T>, key: T -> real, v: real)
    ensures WithKey(SortBy(s, key), key, v) == WithKey(s, key, v)
  {
    if s != [] {
      SortByIsStable(s[..|s| - 1], key, v);
      InsertIsStable(SortBy(s[..|s| - 1], key), s[|s| - 1], key, v);
    }
  }

  lemma PermutationLength<T>(s: seq<T>, t: seq<T>)
    requires multiset(s) == multiset(t)
    ensures |s| == |t|
  {
    assert |multiset(s)| == |s| && |multiset(t)| == |t|;
  }

  // ---------- parts of a sequence in their order ----------

  ghost predicate Subsequence<T>(s: seq<T>, t: seq<T>) {
    || s == []
    || (t != [] && s[|s| - 1] == t[|t| - 1] && Subsequence(s[..|s| - 1], t[..|t| - 1]))
    || (t != [] && Subsequence(s, t[..|t| - 1]))
  }

  lemma NothingIsSubsequence<T>(t: seq<T>)
    ensures Subsequence([], t)
  {
  }

  lemma SubsequenceSplits<T>(s: seq<T>, t: seq<T>)
    requires Subsequence(s, t) && s != []
    ensures t != []
    ensures Subsequence(s, t[..|t| - 1]) || (s[|s| - 1] == t[|t| - 1] && Subsequence(s[..|s| - 1], t[..|t| - 1]))
  {
  }

  lemma SubsequencePush<T>(s: seq<T>, t: seq<T>, x: T)
    requires Subsequence(s, t)
    ensures Subsequence(s, t + [x]) && Subsequence(s + [x], t + [x])
  {
    assert (t + [x])[..|t|] == t && (s + [x])[..|s|] == s;
  }

  lemma {:induction false} SubsequenceConcat<T>(s: seq<T>, t: seq<T>, s1: seq<T>, t1: seq<T>)
    requires Subsequence(s, t) && Subsequence(s1, t1)
    ensures Subsequence(s + s1, t + t1)
    decreases |t1|
  {
    hide Subsequence;
    if s1 == [] && t1 == [] {
      assert s + s1 == s && t + t1 == t;
    } else if s1 == [] {
      var init, x := t1[..|t1| - 1], t1[|t1| - 1];
      NothingIsSubsequence(init);
      SubsequenceConcat(s, t, s1, init);
      SubsequencePush(s + s1, t + init, x);
      assert t + t1 == t + init + [x];
    } else {
      SubsequenceSplits(s1, t1);
      var init, x := t1[..|t1| - 1], t1[|t1| - 1];
      assert t + t1 == t + init + [x];
      if Subsequence(s1, init) {
        SubsequenceConcat(s, t, s1, init);
        SubsequencePush(s + s1, t + init, x);
      } else {
        SubsequenceConcat(s, t, s1[..|s1| - 1], init);
        SubsequencePush(s + s1[..|s1| - 1], t + init, x);
        assert s + s1 == s + s1[..|s1| - 1] + [x];
      }
    }
  }

  lemma {:induction false} SubsequenceTransitively<T>(s: seq<T>, t: seq<T>, u: seq<T>)
    requires Subsequence(s, t) && Subsequence(t, u)
    ensures Subsequence(s, u)
    decreases |u|
  {
    if s != [] {
      if Subsequence(t, u[..|u| - 1]) {
        SubsequenceTransitively(s, t, u[..|u| - 1]);
      } else if s[|s| - 1] == t[|t| - 1] && Subsequence(s[..|s| - 1], t[..|t| - 1]) {
        SubsequenceTransitively(s[..|s| - 1], t[..|t| - 1], u[..|u| - 1]);
      } else {
        SubsequenceTransitively(s, t[..|t| - 1], u[..|u| - 1]);
      }
    }
  }
}
