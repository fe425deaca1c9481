/** Finite sums of reals over sequences and over sets.  A JavaScript object is enumerated in
    some order nobody promises, so what is added up over its keys is a sum over a set. */
module Sums {

  ghost function SumSeq<T>(s: seq<T>, f: T -> real): real {
    if s == [] then 0.0 else SumSeq(s[..|s| - 1], f) + f(s[|s| - 1])
  }

  ghost function SumSet<T>(s: set<T>, f: T -> real): real {
    if s == {} then 0.0
    else
      var x :| x in s;
      f(x) + SumSet(s - {x}, f)
  }

  /** The key a JavaScript enumeration visits next: any one that is left. */
  method NextKey<T(==)>(todo: set<T>) returns (x: T)
    requires todo != {}
    ensures x in todo
  {
    x :| x in todo;
  }

  /** An arbitrary but fixed element, for definitions and proofs. */
  ghost function AnyOf<T>(s: set<T>): (x: T)
    requires s != {}
    ensures x in s
  {
    var x :| x in s; x
  }

  // ---------- sums over sets ----------

  /** Any element may be taken out first. */
  lemma {:induction false} SumSetPick<T>(s: set<T>, x: T, f: T -> real)
    requires x in s
    ensures SumSet(s, f) == f(x) + SumSet(s - {x}, f)
    decreases |s|
  {
    var y :| y in s && SumSet(s, f) == f(y) + SumSet(s - {y}, f);
    if y != x {
      SumSetPick(s - {y}, x, f);
      SumSetPick(s - {x}, y, f);
      assert s - {y} - {x} == s - {x} - {y};
    }
  }

  lemma {:induction false} SumSetInsert<T>(s: set<T>, x: T, f: T -> real)
    requires x !in s
    ensures SumSet(s + {x}, f) == SumSet(s, f) + f(x)
  {
    SumSetPick(s + {x}, x, f);
    assert s + {x} - {x} == s;
  }

  lemma {:induction false} SumSetCongruent<T>(s: set<T>, f: T -> real, g: T -> real)
    requires forall x :: x in s ==> f(x) == g(x)
    ensures SumSet(s, f) == SumSet(s, g)
    decreases |s|
  {
    if s != {} {
      var x :| x in s;
      SumSetPick(s, x, f);
      SumSetPick(s, x, g);
      SumSetCongruent(s - {x}, f, g);
    }
  }

  lemma {:induction false} SumSetAdd<T>(s: set<T>, f: T -> real, g: T -> real, h: T -> real)
    requires forall x :: x in s ==> h(x) == f(x) + g(x)
    ensures SumSet(s, h) == SumSet(s, f) + SumSet(s, g)
    decreases |s|
  {
    if s != {} {
      var x :| x in s;
      SumSetPick(s, x, f);
      SumSetPick(s, x, g);
      SumSetPick(s, x, h);
      SumSetAdd(s - {x}, f, g, h);
    }
  }

  /** Keeps the product out of sight of the quantifiers below. */
  ghost predicate Scaled(k: real, a: real, b: real) {
    b == k * a
  }

  lemma ScaledAdd(k: real, a: real, b: real, c: real, d: real)
    requires Scaled(k, a, c) && Scaled(k, b, d)
    ensures Scaled(k, a + b, c + d)
  {
  }

  lemma {:induction false} SumSetScale<T>(s: set<T>, k: real, f: T -> real, h: T -> real)
    requires forall x :: x in s ==> Scaled(k, f(x), h(x))
    ensures Scaled(k, SumSet(s, f), SumSet(s, h))
    decreases |s|
  {
    if s != {} {
      var x :| x in s;
      SumSetPick(s, x, f);
      SumSetPick(s, x, h);
      SumSetScale(s - {x}, k, f, h);
      ScaledAdd(k, f(x), SumSet(s - {x}, f), h(x), SumSet(s - {x}, h));
    }
  }

  lemma {:induction false} SumSetZero<T>(s: set<T>, f: T -> real)
    requires forall x :: x in s ==> f(x) == 0.0
    ensures SumSet(s, f) == 0.0
    decreases |s|
  {
    if s != {} {
      var x :| x in s;
      SumSetPick(s, x, f);
      SumSetZero(s - {x}, f);
    }
  }

  /** Elements that contribute nothing may be added to the index set. */
  lemma {:induction false} SumSetExtend<T>(s: set<T>, t: set<T>, f: T -> real)
    requires s <= t
    requires forall x :: x in t - s ==> f(x) == 0.0
    ensures SumSet(t, f) == SumSet(s, f)
    decreases |t - s|
  {
    if t - s != {} {
      var x :| x in t - s;
      SumSetPick(t, x, f);
      assert t - {x} - s == t - s - {x};
      SumSetExtend(s, t - {x}, f);
    } else {
      assert s == t;
    }
  }

  lemma {:induction false} SumSetUnion<T>(s: set<T>, t: set<T>, f: T -> real)
    requires s !! t
    ensures SumSet(s + t, f) == SumSet(s, f) + SumSet(t, f)
    decreases |t|
  {
    if t == {} {
      assert s + t == s;
    } else {
      var x :| x in t;
      SumSetPick(t, x, f);
      SumSetPick(s + t, x, f);
      assert s + t - {x} == s + (t - {x});
      SumSetUnion(s, t - {x}, f);
    }
  }

  lemma {:induction false} SumSetNonNegative<T>(s: set<T>, f: T -> real)
    requires forall x :: x in s ==> f(x) >= 0.0
    ensures SumSet(s, f) >= 0.0
    ensures SumSet(s, f) == 0.0 ==> forall x :: x in s ==> f(x) == 0.0
    decreases |s|
  {
    if s != {} {
      var y :| y in s;
      SumSetPick(s, y, f);
      SumSetNonNegative(s - {y}, f);
      forall x | x in s && SumSet(s, f) == 0.0 ensures f(x) == 0.0 {
        SumSetPick(s, x, f);
        SumSetNonNegative(s - {x}, f);
      }
    }
  }

  // ---------- sums over sequences ----------

  lemma {:induction false} SumSeqConcat<T>(s: seq<T>, t: seq<T>, f: T -> real)
    ensures SumSeq(s + t, f) == SumSeq(s, f) + SumSeq(t, f)
    decreases |t|
  {
    if t == [] {
      assert s + t == s;
    } else {
      assert (s + t)[..|s + t| - 1] == s + t[..|t| - 1];
      SumSeqConcat(s, t[..|t| - 1], f);
    }
  }

  lemma {:induction false} SumSeqPush<T>(s: seq<T>, x: T, f: T -> real)
    ensures SumSeq(s + [x], f) == SumSeq(s, f) + f(x)
  {
    assert (s + [x])[..|s|] == s;
  }

  /** The summand at index i may be taken out. */
  lemma {:induction false} SumSeqRemove<T>(s: seq<T>, i: nat, f: T -> real)
    requires i < |s|
    ensures SumSeq(s, f) == SumSeq(s[..i] + s[i + 1..], f) + f(s[i])
  {
    assert s == s[..i] + ([s[i]] + s[i + 1..]);
    SumSeqConcat(s[..i], [s[i]] + s[i + 1..], f);
    SumSeqConcat([s[i]], s[i + 1..], f);
    SumSeqConcat(s[..i], s[i + 1..], f);
    SumSeqPush([], s[i], f);
    assert [] + [s[i]] == [s[i]];
  }

  lemma MultisetRemove<T>(t: seq<T>, i: nat)
    requires i < |t|
    ensures multiset(t[..i] + t[i + 1..]) == multiset(t) - multiset{t[i]}
  {
    assert t == t[..i] + [t[i]] + t[i + 1..];
  }

  lemma {:induction false} SumSeqPermutation<T>(s: seq<T>, t: seq<T>, f: T -> real)
    requires multiset(s) == multiset(t)
    ensures SumSeq(s, f) == SumSeq(t, f)
    decreases |s|
  {
    if s == [] {
      assert |multiset(s)| == |s| && |multiset(t)| == |t|;
    } else {
      var n := |s| - 1;
      assert s[n] in multiset(t);
      var i :| 0 <= i < |t| && t[i] == s[n];
      MultisetRemove(t, i);
      MultisetRemove(s, n);
      assert s[..n] + s[n + 1..] == s[..n];
      SumSeqRemove(t, i, f);
      SumSeqPermutation(s[..n], t[..i] + t[i + 1..], f);
    }
  }

  lemma {:induction false} SumSeqCongruent<T>(s: seq<T>, f: T -> real, g: T -> real)
    requires forall x :: x in s ==> f(x) == g(x)
    ensures SumSeq(s, f) == SumSeq(s, g)
    decreases |s|
  {
    if s != [] {
      SumSeqCongruent(s[..|s| - 1], f, g);
    }
  }

  lemma {:induction false} SumSeqAdd<T>(s: seq<T>, f: T -> real, g: T -> real, h: T -> real)
    requires forall x :: x in s ==> h(x) == f(x) + g(x)
    ensures SumSeq(s, h) == SumSeq(s, f) + SumSeq(s, g)
    decreases |s|
  {
    if s != [] {
      SumSeqAdd(s[..|s| - 1], f, g, h);
    }
  }

  ghost function Row<S, T>(table: T -> S -> real, x: S): T -> real {
    y => table(y)(x)
  }

  /** Summing a family of functions first along a sequence and then over a set, or the other
      way round, gives the same.  `table(y)(x)` is the entry of row x and column y. */
  lemma {:induction false} SumExchange<S, T>(s: seq<S>, t: set<T>, table: T -> S -> real,
                                             columns: T -> real, rows: S -> real)
    requires forall y :: y in t ==> columns(y) == SumSeq(s, table(y))
    requires forall x :: x in s ==> rows(x) == SumSet(t, Row(table, x))
    ensures SumSet(t, columns) == SumSeq(s, rows)
    decreases |s|
  {
    if s == [] {
      SumSetZero(t, columns);
    } else {
      var init, last := s[..|s| - 1], s[|s| - 1];
      var columns' := (y: T) => SumSeq(init, table(y));
      SumSetAdd(t, columns', Row(table, last), columns);
      SumExchange(init, t, table, columns', rows);
    }
  }

  /** The same for two sets. */
  lemma {:induction false} SumExchangeSets<S, T>(s: set<S>, t: set<T>, table: T -> S -> real,
                                                 columns: T -> real, rows: S -> real)
    requires forall y :: y in t ==> columns(y) == SumSet(s, table(y))
    requires forall x :: x in s ==> rows(x) == SumSet(t, Row(table, x))
    ensures SumSet(t, columns) == SumSet(s, rows)
    decreases |s|
  {
    if s == {} {
      SumSetZero(t, columns);
    } else {
      var x := AnyOf(s);
      var columns' := (y: T) => SumSet(s - {x}, table(y));
      forall y | y in t ensures columns(y) == columns'(y) + Row(table, x)(y) {
        SumSetPick(s, x, table(y));
      }
      SumSetAdd(t, columns', Row(table, x), columns);
      SumExchangeSets(s - {x}, t, table, columns', rows);
      SumSetPick(s, x, rows);
    }
  }
}
