/** The share graph of the clearing accounts and its linearisation
    (frontend/libs/core/src/lib/accounts.ts, lines 81 to 133). */
module ClearingGraph {
  import opened Sums
  import opened TransactionEffects

  /** The clearing accounts that share their balance, with their shares. */
  type ShareMap = map<Id, Shares>

  ghost predicate Edge(sm: ShareMap, c: Id, a: Id) {
    c in sm && a in sm[c]
  }

  // ---------- reachability ----------

  ghost predicate IsPath(sm: ShareMap, p: seq<Id>) {
    && |p| >= 2
    && forall i :: 0 <= i < |p| - 1 ==> Edge(sm, p[i], p[i + 1])
  }

  ghost predicate PathBetween(sm: ShareMap, p: seq<Id>, x: Id, y: Id) {
    IsPath(sm, p) && p[0] == x && p[|p| - 1] == y
  }

  /** A share of a share ... of `x` goes to `y`, over at least one edge. */
  ghost predicate Reaches(sm: ShareMap, x: Id, y: Id) {
    exists p :: PathBetween(sm, p, x, y)
  }

  ghost predicate OnCycle(sm: ShareMap, x: Id) {
    Reaches(sm, x, x)
  }

  /** `c` neither lies on a cycle nor can be reached from one. */
  ghost predicate Settled(sm: ShareMap, c: Id) {
    && c in sm
    && !OnCycle(sm, c)
    && forall d :: OnCycle(sm, d) ==> !Reaches(sm, d, c)
  }

  ghost predicate Acyclic(sm: ShareMap) {
    forall c :: !OnCycle(sm, c)
  }

  lemma ReachesByEdge(sm: ShareMap, x: Id, y: Id)
    requires Edge(sm, x, y)
    ensures Reaches(sm, x, y)
  {
    assert PathBetween(sm, [x, y], x, y);
  }

  lemma ReachesTransitively(sm: ShareMap, x: Id, y: Id, z: Id)
    requires Reaches(sm, x, y) && Reaches(sm, y, z)
    ensures Reaches(sm, x, z)
  {
    var p :| PathBetween(sm, p, x, y);
    var q :| PathBetween(sm, q, y, z);
    var r := p + q[1..];
    forall i | 0 <= i < |r| - 1 ensures Edge(sm, r[i], r[i + 1]) {
      if i >= |p| - 1 {
        assert r[i] == q[i - (|p| - 1)] && r[i + 1] == q[i - (|p| - 1) + 1];
      }
    }
    assert PathBetween(sm, r, x, z);
  }

  lemma ReachesFromSharer(sm: ShareMap, x: Id, y: Id)
    requires Reaches(sm, x, y)
    ensures x in sm
  {
    var p :| PathBetween(sm, p, x, y);
    assert Edge(sm, p[0], p[1]);
  }

  // ---------- orders of the settled accounts ----------

  ghost function Elements(s: seq<Id>): set<Id> {
    set x | x in s
  }

  ghost predicate Distinct(s: seq<Id>) {
    forall i, j :: 0 <= i < j < |s| ==> s[i] != s[j]
  }

  /** Every account that shares into an account of the order stands before it. */
  ghost predicate SharersFirst(sm: ShareMap, order: seq<Id>) {
    forall i, c :: 0 <= i < |order| && Edge(sm, c, order[i]) ==> c in order[..i]
  }

  /** An account whose sharers are all in the order is in the order. */
  ghost predicate Complete(sm: ShareMap, order: seq<Id>) {
    forall c :: Missing(sm, order, c) ==> exists d :: Edge(sm, d, c) && d !in order
  }

  ghost predicate Missing(sm: ShareMap, order: seq<Id>, c: Id) {
    c in sm && c !in order
  }

  /** All the linearisation promises: a repetition-free order of sharing accounts in which every
      sharer comes first and from which no account is missing that could be appended. */
  ghost predicate IsClearingOrder(sm: ShareMap, order: seq<Id>) {
    && Distinct(order)
    && Elements(order) <= sm.Keys
    && SharersFirst(sm, order)
    && Complete(sm, order)
  }

  /** Whatever reaches an account of the order stands strictly before it. */
  lemma {:induction false} AncestorsComeFirst(sm: ShareMap, order: seq<Id>, p: seq<Id>, i: nat)
    requires SharersFirst(sm, order) && IsPath(sm, p)
    requires i < |order| && p[|p| - 1] == order[i]
    ensures p[0] in order[..i]
    decreases |p|
  {
    var n := |p|;
    assert Edge(sm, p[n - 2], p[n - 1]);
    assert p[n - 2] in order[..i];
    if n > 2 {
      var j :| 0 <= j < i && order[j] == p[n - 2];
      AncestorsComeFirst(sm, order, p[..n - 1], j);
      assert p[..n - 1][0] == p[0];
    }
  }

  /** Everything seen on a walk backwards from `c` to `q` is reached from `q` and reaches `c`. */
  ghost predicate Trail(sm: ShareMap, c: Id, q: Id, seen: set<Id>) {
    && q in seen
    && seen <= sm.Keys
    && (forall x :: x in seen ==> x == q || Reaches(sm, q, x))
    && (forall x :: x in seen ==> x == c || Reaches(sm, x, c))
  }

  lemma ExtendTrail(sm: ShareMap, c: Id, d: Id, q: Id, seen: set<Id>)
    requires Trail(sm, c, q, seen) && Edge(sm, d, q)
    ensures Trail(sm, c, d, seen + {d})
  {
    ReachesByEdge(sm, d, q);
    forall x | x in seen ensures Reaches(sm, d, x) {
      if x != q { ReachesTransitively(sm, d, q, x); }
    }
    if q != c { ReachesTransitively(sm, d, q, c); }
  }

  lemma TrailCloses(sm: ShareMap, c: Id, d: Id, q: Id, seen: set<Id>)
    requires Trail(sm, c, q, seen) && Edge(sm, d, q) && d in seen
    ensures !Settled(sm, c)
  {
    ReachesByEdge(sm, d, q);
    if d != q { ReachesTransitively(sm, d, q, d); }
    assert OnCycle(sm, d);
  }

  /** Walks backwards over accounts missing from the order until an account repeats. */
  lemma {:induction false} BacktrackToCycle(sm: ShareMap, order: seq<Id>, c: Id, q: Id, seen: set<Id>)
    requires Complete(sm, order) && Trail(sm, c, q, seen) && q !in order
    ensures !Settled(sm, c)
    decreases sm.Keys - seen
  {
    assert Missing(sm, order, q);
    var d :| Edge(sm, d, q) && d !in order;
    if d in seen {
      TrailCloses(sm, c, d, q, seen);
    } else {
      ExtendTrail(sm, c, d, q, seen);
      BacktrackToCycle(sm, order, c, d, seen + {d});
    }
  }

  /** An account is emitted exactly when it is not reachable from a cycle (self-shares included). */
  lemma {:induction false} EmittedIffSettled(sm: ShareMap, order: seq<Id>, c: Id)
    requires IsClearingOrder(sm, order)
    ensures c in order <==> Settled(sm, c)
  {
    if c in order {
      var i :| 0 <= i < |order| && order[i] == c;
      assert c in Elements(order);
      forall d | OnCycle(sm, d) ensures d != c && !Reaches(sm, d, c) {
        var loop :| PathBetween(sm, loop, d, d);
        if d == c {
          AncestorsComeFirst(sm, order, loop, i);
          assert false;
        }
        if Reaches(sm, d, c) {
          var p :| PathBetween(sm, p, d, c);
          AncestorsComeFirst(sm, order, p, i);
          var j :| 0 <= j < i && order[j] == d;
          AncestorsComeFirst(sm, order, loop, j);
          assert false;
        }
      }
    } else if c in sm {
      BacktrackToCycle(sm, order, c, c, {c});
    }
  }

  ghost function SettledAccounts(sm: ShareMap): set<Id> {
    set c | c in sm && Settled(sm, c)
  }

  lemma {:induction false} SettledElements(sm: ShareMap, order: seq<Id>)
    requires IsClearingOrder(sm, order)
    ensures Elements(order) == SettledAccounts(sm)
  {
    forall c | c in Elements(order) ensures c in SettledAccounts(sm) {
      EmittedIffSettled(sm, order, c);
    }
    forall c | c in SettledAccounts(sm) ensures c in Elements(order) {
      EmittedIffSettled(sm, order, c);
    }
  }

  /** Any two results of the linearisation hold the same accounts, and in an acyclic graph all. */
  lemma {:induction false} OrdersAgree(sm: ShareMap, o1: seq<Id>, o2: seq<Id>)
    requires IsClearingOrder(sm, o1) && IsClearingOrder(sm, o2)
    ensures Elements(o1) == Elements(o2) && |o1| == |o2|
    ensures Acyclic(sm) <==> Elements(o1) == sm.Keys
  {
    SettledElements(sm, o1);
    SettledElements(sm, o2);
    DistinctLength(o1);
    DistinctLength(o2);
    AcyclicIffAllSettled(sm);
  }

  lemma AcyclicIffAllSettled(sm: ShareMap)
    ensures Acyclic(sm) <==> SettledAccounts(sm) == sm.Keys
  {
    if SettledAccounts(sm) == sm.Keys {
      assert forall c :: c in sm ==> c in SettledAccounts(sm);
      forall c ensures !OnCycle(sm, c) {
        if OnCycle(sm, c) {
          ReachesFromSharer(sm, c, c);
        }
      }
    }
  }

  lemma {:induction false} DistinctLength(s: seq<Id>)
    requires Distinct(s)
    ensures |Elements(s)| == |s|
  {
    if s != [] {
      var n := |s| - 1;
      DistinctLength(s[..n]);
      assert Elements(s) == Elements(s[..n]) + {s[n]};
    }
  }

  // ---------- the worklist ----------

  /** The accounts of `cs` that share into `a`. */
  ghost function Sharers(sm: ShareMap, cs: set<Id>, a: Id): set<Id> {
    set c | c in cs && Edge(sm, c, a)
  }

  method CountInDegrees(ids: set<Id>, sm: ShareMap) returns (inDegree: map<Id, nat>)
    ensures inDegree.Keys == ids
    ensures forall a :: a in ids ==> inDegree[a] == |Sharers(sm, sm.Keys, a)|
  {
    inDegree := map a | a in ids :: 0;
    var todo := sm.Keys;
    while todo != {}
      invariant todo <= sm.Keys && inDegree.Keys == ids
      invariant forall a :: a in ids ==> inDegree[a] == |Sharers(sm, sm.Keys - todo, a)|
      decreases todo
    {
      var c := NextKey(todo);
      var next := sm[c].Keys;
      while next != {}
        invariant next <= sm[c].Keys && inDegree.Keys == ids
        invariant forall a :: a in ids ==>
          inDegree[a] == |Sharers(sm, sm.Keys - todo, a)| + if a in sm[c].Keys - next then 1 else 0
        decreases next
      {
        var a := NextKey(next);
        if a in inDegree {
          inDegree := inDegree[a := inDegree[a] + 1];
        }
        next := next - {a};
      }
      forall a | a in ids ensures inDegree[a] == |Sharers(sm, sm.Keys - (todo - {c}), a)| {
        SharersWith(sm, sm.Keys - todo, c, a);
        assert sm.Keys - (todo - {c}) == sm.Keys - todo + {c};
      }
      todo := todo - {c};
    }
    assert sm.Keys - todo == sm.Keys;
  }

  lemma SharersWith(sm: ShareMap, cs: set<Id>, c: Id, a: Id)
    requires c !in cs
    ensures |Sharers(sm, cs + {c}, a)| == |Sharers(sm, cs, a)| + if Edge(sm, c, a) then 1 else 0
  {
    if Edge(sm, c, a) {
      assert Sharers(sm, cs + {c}, a) == Sharers(sm, cs, a) + {c};
    } else {
      assert Sharers(sm, cs + {c}, a) == Sharers(sm, cs, a);
    }
  }

  /** Between two steps of the worklist loop: `left` are the sharing accounts not yet emitted. */
  ghost predicate WorklistInvariant(ids: set<Id>, sm: ShareMap, inDegree: map<Id, nat>,
                                    stack: seq<Id>, sorting: seq<Id>, left: set<Id>)
  {
    && inDegree.Keys == ids && sm.Keys <= ids
    && left == sm.Keys - Elements(sorting)
    && Elements(sorting) <= sm.Keys
    && Distinct(sorting) && Distinct(stack)
    && SharersFirst(sm, sorting)
    && (forall a :: a in ids ==> inDegree[a] == |Sharers(sm, left, a)|)
    && (forall a :: a in stack ==> a in ids && a !in sorting && inDegree[a] == 0)
    && (forall a :: a in sorting ==> a in ids && inDegree[a] == 0)
    && (forall c :: c in left && inDegree[c] == 0 ==> c in stack)
  }

  /** While the targets of `node` are released: those in `todo` still count its edge. */
  ghost predicate ReleaseInvariant(ids: set<Id>, sm: ShareMap, inDegree: map<Id, nat>, stack: seq<Id>,
                                   emitted: seq<Id>, left: set<Id>, todo: set<Id>)
  {
    && inDegree.Keys == ids && Distinct(stack)
    && (forall a :: a in ids ==> inDegree[a] == |Sharers(sm, left, a)| + if a in todo then 1 else 0)
    && (forall a :: a in stack ==> a in ids && a !in emitted && inDegree[a] == 0)
    && (forall a :: a in emitted ==> a in ids && a !in todo && inDegree[a] == 0)
    && (forall c :: c in left && c in ids && inDegree[c] == 0 ==> c in stack)
  }

  lemma ReleaseStart(ids: set<Id>, sm: ShareMap, node: Id, inDegree: map<Id, nat>, stack: seq<Id>,
                     sorting: seq<Id>, left: set<Id>)
    requires node in left && WorklistInvariant(ids, sm, inDegree, stack + [node], sorting, left)
    ensures ReleaseInvariant(ids, sm, inDegree, stack, sorting + [node], left - {node}, sm[node].Keys)
  {
    var todo := sm[node].Keys;
    assert (stack + [node])[|stack|] == node;
    forall a | a in ids ensures |Sharers(sm, left, a)| == |Sharers(sm, left - {node}, a)| + if a in todo then 1 else 0 {
      SharersWith(sm, left - {node}, node, a);
      assert left - {node} + {node} == left;
    }
    assert forall a :: a in sorting + [node] ==> Sharers(sm, left, a) == {};
    forall a | a in todo ensures node in Sharers(sm, left, a) {
      assert Edge(sm, node, a);
    }
    forall i | 0 <= i < |stack| ensures (stack + [node])[i] == stack[i] {
    }
  }

  method ReleaseTargets(ids: set<Id>, sm: ShareMap, node: Id, inDegree: map<Id, nat>, stack: seq<Id>,
                        ghost sorting: seq<Id>, ghost left: set<Id>)
    returns (inDegree': map<Id, nat>, stack': seq<Id>)
    requires node in left
    requires WorklistInvariant(ids, sm, inDegree, stack + [node], sorting, left)
    ensures WorklistInvariant(ids, sm, inDegree', stack', sorting + [node], left - {node})
  {
    ReleaseStart(ids, sm, node, inDegree, stack, sorting, left);
    inDegree', stack' := ReleaseLoop(ids, sm, sm[node].Keys, inDegree, stack, sorting + [node], left - {node});
    assert stack + [node] == stack + [node] && (stack + [node])[|stack|] in stack + [node];
    EmitKeepsOrder(sm, sorting, node, left);
  }

  method ReleaseLoop(ids: set<Id>, ghost sm: ShareMap, targets: set<Id>, inDegree: map<Id, nat>, stack: seq<Id>,
                     ghost emitted: seq<Id>, ghost left: set<Id>)
    returns (inDegree': map<Id, nat>, stack': seq<Id>)
    requires ReleaseInvariant(ids, sm, inDegree, stack, emitted, left, targets)
    ensures ReleaseInvariant(ids, sm, inDegree', stack', emitted, left, {})
  {
    inDegree', stack' := inDegree, stack;
    var todo := targets;
    while todo != {}
      invariant ReleaseInvariant(ids, sm, inDegree', stack', emitted, left, todo)
      decreases todo
    {
      var a := NextKey(todo);
      if a in inDegree' && inDegree'[a] != 0 {
        var newDegree := inDegree'[a] - 1;
        inDegree' := inDegree'[a := newDegree];
        if newDegree <= 0 {
          assert a !in stack';
          stack' := stack' + [a];
        }
      }
      todo := todo - {a};
    }
  }

  lemma EmitKeepsOrder(sm: ShareMap, sorting: seq<Id>, node: Id, left: set<Id>)
    requires node in left && left == sm.Keys - Elements(sorting)
    requires Elements(sorting) <= sm.Keys
    requires Distinct(sorting) && SharersFirst(sm, sorting) && Sharers(sm, left, node) == {}
    ensures Distinct(sorting + [node]) && SharersFirst(sm, sorting + [node])
    ensures Elements(sorting + [node]) == Elements(sorting) + {node}
  {
    var s := sorting + [node];
    forall i, c | 0 <= i < |s| && Edge(sm, c, s[i]) ensures c in s[..i] {
      if i < |sorting| {
        assert s[..i] == sorting[..i];
      } else {
        assert s[..i] == sorting;
        assert c !in Sharers(sm, left, node);
        assert c in Elements(sorting);
      }
    }
  }

  method InitialStack(sm: ShareMap, inDegree: map<Id, nat>) returns (stack: seq<Id>)
    requires sm.Keys <= inDegree.Keys
    ensures Distinct(stack)
    ensures forall c :: c in stack <==> c in sm && inDegree[c] == 0
  {
    stack := [];
    var keys := sm.Keys;
    while keys != {}
      invariant keys <= sm.Keys && Distinct(stack)
      invariant forall c :: c in stack <==> c in sm.Keys - keys && inDegree[c] == 0
      decreases keys
    {
      var c := NextKey(keys);
      if inDegree[c] == 0 {
        stack := stack + [c];
      }
      keys := keys - {c};
    }
  }

  lemma PopNode(ids: set<Id>, sm: ShareMap, inDegree: map<Id, nat>, stack: seq<Id>, node: Id, sorting: seq<Id>,
                left: set<Id>)
    requires WorklistInvariant(ids, sm, inDegree, stack + [node], sorting, left)
    ensures node in sm ==> node in left
    ensures node !in sm ==> WorklistInvariant(ids, sm, inDegree, stack, sorting, left)
  {
    var all := stack + [node];
    assert all[|stack|] == node && forall a :: a in stack ==> a in all;
    forall i | 0 <= i < |stack| ensures all[i] == stack[i] {
    }
  }

  /** With an empty stack every account that is left still has an unemitted sharer. */
  lemma NothingToEmit(ids: set<Id>, sm: ShareMap, inDegree: map<Id, nat>, sorting: seq<Id>, left: set<Id>)
    requires WorklistInvariant(ids, sm, inDegree, [], sorting, left)
    ensures Complete(sm, sorting)
  {
    forall c | Missing(sm, sorting, c) ensures exists d :: Edge(sm, d, c) && d !in sorting {
      assert c in left && inDegree[c] != 0;
      var d := AnyOf(Sharers(sm, left, c));
      assert Edge(sm, d, c) && d !in sorting;
    }
  }

  /** Terminates on every graph, cyclic or not, and yields a clearing order. */
  method LinearizeClearing(ids: set<Id>, sm: ShareMap) returns (sorting: seq<Id>)
    requires sm.Keys <= ids
    ensures IsClearingOrder(sm, sorting)
    ensures forall c :: c in sorting <==> Settled(sm, c)
  {
    var inDegree := CountInDegrees(ids, sm);
    var stack := InitialStack(sm, inDegree);
    sorting := [];
    ghost var left := sm.Keys;
    assert left == sm.Keys - Elements(sorting);
    while |stack| > 0
      invariant WorklistInvariant(ids, sm, inDegree, stack, sorting, left)
      decreases left, |stack|
    {
      var node := stack[|stack| - 1];
      assert stack == stack[..|stack| - 1] + [node];
      stack := stack[..|stack| - 1];
      PopNode(ids, sm, inDegree, stack, node, sorting, left);
      if node in sm {
        inDegree, stack := ReleaseTargets(ids, sm, node, inDegree, stack, sorting, left);
        sorting := sorting + [node];
        left := left - {node};
      }
    }
    NothingToEmit(ids, sm, inDegree, sorting, left);
    forall c ensures c in sorting <==> Settled(sm, c) {
      EmittedIffSettled(sm, sorting, c);
    }
  }
}
