/** Schema migrations: linking the revision files into one chain and applying it piece by piece
    (abrechnung/framework/database.py, lines 179 to 313). */
module Migrations {
  import opened Wrappers

  /** `needs` is the version in the "requires" header line; None is a revision without one. */
  datatype Revision = Revision(version: string, needs: Option<string>)

  datatype LinkError = NoRoot | NoSuccessor(version: string)

  // ---------- linking ----------

  ghost predicate DistinctVersions(revisions: seq<Revision>) {
    forall i, j :: 0 <= i < j < |revisions| ==> revisions[i].version != revisions[j].version
  }

  ghost predicate LinearChain(p: seq<Revision>) {
    forall i {:trigger Before(p, i)} :: 0 <= i < |p| ==> p[i].needs == Before(p, i)
  }

  ghost function Before(p: seq<Revision>, i: nat): Option<string>
    requires i < |p|
  {
    if i == 0 then None else Some(p[i - 1].version)
  }

  /** `p` orders exactly the given revisions in one chain from a root. */
  ghost predicate ChainOf(revisions: seq<Revision>, p: seq<Revision>) {
    multiset(p) == multiset(revisions) && LinearChain(p)
  }

  /** The first revision with the given requirement. */
  function FirstNeeding(revisions: seq<Revision>, needs: Option<string>): (r: Option<Revision>)
    ensures r.Some? ==> r.value in revisions && r.value.needs == needs
    ensures r.None? ==> forall x :: x in revisions ==> x.needs != needs
  {
    if revisions == [] then None
    else if revisions[0].needs == needs then Some(revisions[0])
    else FirstNeeding(revisions[1..], needs)
  }

  /** In a chain of distinct versions the successor is forced. */
  lemma {:induction false} ForcedStep(revisions: seq<Revision>, p: seq<Revision>, k: nat, x: Revision)
    requires DistinctVersions(revisions) && ChainOf(revisions, p) && k < |p|
    requires x in revisions && x.needs == Before(p, k)
    ensures x == p[k]
  {
    assert x in multiset(p);
    var j :| 0 <= j < |p| && p[j] == x;
    assert p[j].needs == Before(p, j);
    if 0 < j && 0 < k && j != k {
      SameVersionSameRevision(revisions, p, j - 1, k - 1);
    }
  }

  lemma SameVersionSameRevision(revisions: seq<Revision>, p: seq<Revision>, i: nat, j: nat)
    requires DistinctVersions(revisions) && multiset(p) == multiset(revisions)
    requires i < |p| && j < |p| && p[i].version == p[j].version
    ensures i == j
  {
    assert p[i] in multiset(revisions) && p[j] in multiset(revisions);
    var a :| 0 <= a < |revisions| && revisions[a] == p[i];
    var b :| 0 <= b < |revisions| && revisions[b] == p[j];
    assert a == b;
    OccursOnce(revisions, a);
    if i < j {
      OccursTwice(p, i, j);
    } else if j < i {
      OccursTwice(p, j, i);
    }
  }

  lemma OccursTwice(p: seq<Revision>, i: nat, j: nat)
    requires i < j < |p| && p[i] == p[j]
    ensures multiset(p)[p[i]] >= 2
  {
    assert p == p[..j] + [p[j]] + p[j + 1..];
    assert p[i] in p[..j];
  }

  /** A chain over revisions of distinct versions never comes back to a revision. */
  lemma {:induction false} ChainIsInjective(revisions: seq<Revision>, p: seq<Revision>, i: nat, j: nat)
    requires DistinctVersions(revisions) && LinearChain(p)
    requires forall x :: x in p ==> x in revisions
    requires i < j < |p|
    ensures p[i] != p[j]
  {
    assert p[i].needs == Before(p, i) && p[j].needs == Before(p, j);
    if i > 0 && p[i] == p[j] {
      assert p[i - 1] in revisions && p[j - 1] in revisions;
      ChainIsInjective(revisions, p, i - 1, j - 1);
    }
  }

  lemma OccursOnce(s: seq<Revision>, i: nat)
    requires i < |s| && forall j, k :: 0 <= j < k < |s| ==> s[j] != s[k]
    ensures multiset(s)[s[i]] == 1
  {
    assert s == s[..i] + [s[i]] + s[i + 1..];
    assert s[i] !in s[..i] && s[i] !in s[i + 1..];
  }

  lemma {:induction false} DistinctSubsequence(s: seq<Revision>, t: seq<Revision>)
    requires forall i, j :: 0 <= i < j < |s| ==> s[i] != s[j]
    requires forall x :: x in s ==> x in t
    ensures multiset(s) <= multiset(t)
  {
    forall x | x in multiset(s) ensures multiset(s)[x] <= multiset(t)[x] {
      var i :| 0 <= i < |s| && s[i] == x;
      OccursOnce(s, i);
      assert x in s && x in t;
    }
  }

  lemma {:induction false} FullChainIsPermutation(revisions: seq<Revision>, p: seq<Revision>)
    requires DistinctVersions(revisions) && LinearChain(p) && |p| == |revisions|
    requires forall x :: x in p ==> x in revisions
    ensures ChainOf(revisions, p)
  {
    forall i, j | 0 <= i < j < |p| ensures p[i] != p[j] {
      ChainIsInjective(revisions, p, i, j);
    }
    DistinctSubsequence(p, revisions);
    assert |multiset(p)| == |multiset(revisions)|;
    assert |multiset(revisions) - multiset(p)| == 0;
    assert multiset(revisions) == multiset(p) + (multiset(revisions) - multiset(p));
  }

  /** With distinct versions it succeeds exactly when the revisions form one linear chain from a
      root; then the result is that chain.  Any branch, gap or detached cycle is an error. */
  method RevisionsFromDir(revisions: seq<Revision>) returns (r: Result<seq<Revision>, LinkError>)
    ensures r.Success? ==> LinearChain(r.value) && |r.value| == |revisions| &&
                           forall x :: x in r.value ==> x in revisions
    ensures DistinctVersions(revisions) && r.Success? ==> ChainOf(revisions, r.value)
    ensures DistinctVersions(revisions) && (exists p: seq<Revision> :: ChainOf(revisions, p)) ==> r.Success?
    ensures r.Failure? && r.error.NoRoot? ==> forall x :: x in revisions ==> x.needs.Some?
    ensures r.Failure? && r.error.NoSuccessor? ==>
              forall x :: x in revisions ==> x.needs != Some(r.error.version)
  {
    if |revisions| == 0 {
      return Success([]);
    }
    var first := FirstNeeding(revisions, None);
    if first.None? {
      forall p: seq<Revision> ensures !ChainOf(revisions, p) {
        if ChainOf(revisions, p) {
          ChainHasRoot(revisions, p);
        }
      }
      return Failure(NoRoot);
    }
    var sorted := [first.value];
    FirstStepForced(revisions, first.value);
    while |sorted| < |revisions|
      invariant 1 <= |sorted| <= |revisions|
      invariant LinearChain(sorted)
      invariant forall x :: x in sorted ==> x in revisions
      invariant DistinctVersions(revisions) ==> forall p: seq<Revision> :: ChainOf(revisions, p) ==> sorted <= p
    {
      var curr := sorted[|sorted| - 1];
      var next := FirstNeeding(revisions, Some(curr.version));
      NextStepForced(revisions, sorted, next);
      if next.None? {
        return Failure(NoSuccessor(curr.version));
      }
      LinearChainPush(sorted, next.value);
      sorted := sorted + [next.value];
    }
    if DistinctVersions(revisions) {
      FullChainIsPermutation(revisions, sorted);
    }
    return Success(sorted);
  }

  lemma LinearChainPush(p: seq<Revision>, x: Revision)
    requires LinearChain(p) && p != [] && x.needs == Some(p[|p| - 1].version)
    ensures LinearChain(p + [x])
  {
    forall i | 0 <= i < |p| + 1 ensures (p + [x])[i].needs == Before(p + [x], i) {
      if i < |p| {
        assert p[i].needs == Before(p, i);
      }
    }
  }

  lemma ChainHasRoot(revisions: seq<Revision>, p: seq<Revision>)
    requires revisions != [] && ChainOf(revisions, p)
    ensures exists x :: x in revisions && x.needs == None
  {
    assert |multiset(p)| == |multiset(revisions)|;
    assert p[0] in multiset(revisions);
    assert p[0].needs == Before(p, 0);
  }

  lemma FirstStepForced(revisions: seq<Revision>, x: Revision)
    requires x in revisions && x.needs == None
    ensures DistinctVersions(revisions) ==> forall p: seq<Revision> :: ChainOf(revisions, p) ==> [x] <= p
  {
    if DistinctVersions(revisions) {
      forall p: seq<Revision> | ChainOf(revisions, p) ensures [x] <= p {
        assert |multiset(p)| == |multiset(revisions)|;
        ForcedStep(revisions, p, 0, x);
      }
    }
  }

  lemma ChainMember(revisions: seq<Revision>, p: seq<Revision>, k: nat)
    requires ChainOf(revisions, p) && 0 < k < |revisions|
    ensures |p| == |revisions| && p[k] in revisions && p[k].needs == Some(p[k - 1].version)
  {
    assert |multiset(p)| == |multiset(revisions)|;
    assert p[k] in multiset(revisions);
    assert p[k].needs == Before(p, k);
  }

  lemma NextStepForcedIn(revisions: seq<Revision>, sorted: seq<Revision>, p: seq<Revision>, next: Option<Revision>)
    requires DistinctVersions(revisions) && ChainOf(revisions, p)
    requires 1 <= |sorted| < |revisions| && sorted <= p
    requires next.Some? ==> next.value in revisions && next.value.needs == Some(sorted[|sorted| - 1].version)
    requires next.None? ==> forall x :: x in revisions ==> x.needs != Some(sorted[|sorted| - 1].version)
    ensures next.Some? && sorted + [next.value] <= p
  {
    ChainMember(revisions, p, |sorted|);
    if next.Some? {
      assert Before(p, |sorted|) == next.value.needs;
      ForcedStep(revisions, p, |sorted|, next.value);
    }
  }

  lemma NextStepForced(revisions: seq<Revision>, sorted: seq<Revision>, next: Option<Revision>)
    requires 1 <= |sorted| < |revisions|
    requires DistinctVersions(revisions) ==> forall p: seq<Revision> :: ChainOf(revisions, p) ==> sorted <= p
    requires next == FirstNeeding(revisions, Some(sorted[|sorted| - 1].version))
    ensures DistinctVersions(revisions) ==>
              forall p: seq<Revision> :: ChainOf(revisions, p) ==> next.Some? && sorted + [next.value] <= p
  {
    if DistinctVersions(revisions) {
      forall p: seq<Revision> | ChainOf(revisions, p) ensures next.Some? && sorted + [next.value] <= p {
        NextStepForcedIn(revisions, sorted, p, next);
      }
    }
  }

  // ---------- applying ----------

  datatype ApplyError =
    | OtherRevisionPresent(required: string)
    | RevisionPresent(version: string)
    | BrokenCode(version: string)
    | UnknownRevision(version: string)

  /** The rows of the version table, and the revisions whose code has been executed, in order. */
  datatype Schema = Schema(rows: set<string>, executed: seq<Revision>)

  ghost function LastRow(executed: seq<Revision>): set<string> {
    if executed == [] then {} else {executed[|executed| - 1].version}
  }

  /** The first revisions of the chain have been executed, each once and in order, and the version
      table holds exactly the row of the last of them. */
  ghost predicate OnChain(schema: Schema, revisions: seq<Revision>) {
    schema.executed <= revisions && schema.rows == LastRow(schema.executed)
  }

  ghost predicate Chain(revisions: seq<Revision>) {
    DistinctVersions(revisions) && LinearChain(revisions)
  }

  /** What RevisionsFromDir returns is such a chain. */
  lemma {:induction false} LinkedIsChain(revisions: seq<Revision>, p: seq<Revision>)
    requires DistinctVersions(revisions) && ChainOf(revisions, p)
    ensures Chain(p)
  {
    forall i, j | 0 <= i < j < |p| ensures p[i].version != p[j].version {
      if p[i].version == p[j].version {
        SameVersionSameRevision(revisions, p, i, j);
      }
    }
  }

  /** How far a call that starts after `k` revisions gets: to `until`, or to the end if it names
      no revision, but never back. */
  ghost function Target(revisions: seq<Revision>, k: nat, until: Option<string>): nat {
    var stop := StopAt(revisions, until);
    if stop > k then stop else k
  }

  ghost function StopAt(revisions: seq<Revision>, until: Option<string>): nat {
    if exists i :: 0 <= i < |revisions| && until == Some(revisions[i].version) then
      var i :| 0 <= i < |revisions| && until == Some(revisions[i].version);
      i + 1
    else |revisions|
  }

  lemma StopAtIs(revisions: seq<Revision>, until: Option<string>, i: nat)
    requires DistinctVersions(revisions) && i < |revisions| && until == Some(revisions[i].version)
    ensures StopAt(revisions, until) == i + 1
  {
  }

  /** What a call of apply_revisions does to a database on the chain: it gets to its target, or
      changes nothing because the code of a revision on the way there is broken.  The checks of
      the version table never fail. */
  ghost predicate CallOutcome(before: Schema, revisions: seq<Revision>, until: Option<string>, broken: set<string>,
                              r: Result<(), ApplyError>, after: Schema)
  {
    Chain(revisions) && OnChain(before, revisions) ==>
      var k := |before.executed|;
      var target := Target(revisions, k, until);
      && (r.Success? ==> OnChain(after, revisions) && |after.executed| == target)
      && (r.Failure? ==> r.error.BrokenCode? && after == before)
      && (r.Success? <==> forall i :: k <= i < target ==> revisions[i].version !in broken)
  }

  lemma StopAtIsLater(revisions: seq<Revision>, until: Option<string>, i: nat)
    requires i < |revisions| && forall j :: 0 <= j < i ==> until != Some(revisions[j].version)
    ensures StopAt(revisions, until) > i
  {
  }

  /** Inside a call, when the loop has come to revision `i`. */
  ghost predicate CallProgress(before: Schema, schema: Schema, revisions: seq<Revision>, broken: set<string>,
                               found: bool, i: nat)
    requires i <= |revisions|
  {
    var k := |before.executed|;
    && k <= |revisions|
    && (found <==> k == 0 || i >= k)
    && schema.executed == revisions[..if i > k then i else k]
    && schema.rows == LastRow(schema.executed)
    && forall j :: k <= j < i ==> revisions[j].version !in broken
  }

  lemma ChecksPass(before: Schema, schema: Schema, revisions: seq<Revision>, broken: set<string>, found: bool, i: nat)
    requires LinearChain(revisions) && i < |revisions|
    requires CallProgress(before, schema, revisions, broken, found, i)
    ensures found ==> if revisions[i].needs.Some? then schema.rows == {revisions[i].needs.value} else schema.rows == {}
  {
    assert revisions[i].needs == Before(revisions, i);
  }

  lemma CallStarts(before: Schema, revisions: seq<Revision>, broken: set<string>, found: bool)
    requires OnChain(before, revisions) && (found <==> before.rows == {})
    ensures CallProgress(before, before, revisions, broken, found, 0)
  {
  }

  lemma FindsPosition(before: Schema, revisions: seq<Revision>, curr: Option<string>, i: nat)
    requires DistinctVersions(revisions) && OnChain(before, revisions) && i < |revisions|
    requires curr.None? <==> before.rows == {}
    requires curr.Some? ==> curr.value in before.rows
    ensures curr == Some(revisions[i].version) <==> |before.executed| == i + 1
    ensures revisions[..i + 1] == revisions[..i] + [revisions[i]]
  {
    var k := |before.executed|;
    if k > 0 {
      assert before.executed[k - 1] == revisions[k - 1];
    }
  }

  /** What the loop body does to revision `i`: nothing before the current revision is found, and
      then it applies the revision. */
  ghost predicate LoopStep(schema: Schema, next: Schema, revision: Revision, broken: set<string>, found: bool) {
    if found then
      && revision.version !in broken
      && next.executed == schema.executed + [revision]
      && next.rows == (if revision.needs.Some? then schema.rows - {revision.needs.value} else {}) + {revision.version}
    else next == schema
  }

  /** Why applying a revision fails: the version check, or its code. */
  ghost predicate ApplyFails(schema: Schema, revision: Revision, broken: set<string>, error: ApplyError) {
    if revision.needs.Some? && revision.needs.value !in schema.rows then
      error == OtherRevisionPresent(revision.needs.value)
    else if revision.needs.None? && schema.rows != {} then error == RevisionPresent(revision.version)
    else revision.version in broken && error == BrokenCode(revision.version)
  }

  lemma CallContinues(before: Schema, schema: Schema, next: Schema, revisions: seq<Revision>, curr: Option<string>,
                      broken: set<string>, found: bool, i: nat)
    requires Chain(revisions) && OnChain(before, revisions) && i < |revisions|
    requires curr.None? <==> before.rows == {}
    requires curr.Some? ==> curr.value in before.rows
    requires CallProgress(before, schema, revisions, broken, found, i)
    requires LoopStep(schema, next, revisions[i], broken, found)
    ensures CallProgress(before, next, revisions, broken, found || curr == Some(revisions[i].version), i + 1)
  {
    FindsPosition(before, revisions, curr, i);
    ChecksPass(before, schema, revisions, broken, found, i);
  }

  lemma CallStops(before: Schema, after: Schema, revisions: seq<Revision>, until: Option<string>,
                  broken: set<string>, found: bool, i: nat)
    requires Chain(revisions) && OnChain(before, revisions) && i < |revisions| && until == Some(revisions[i].version)
    requires CallProgress(before, after, revisions, broken, found, i + 1)
    ensures CallOutcome(before, revisions, until, broken, Success(()), after)
  {
    StopAtIs(revisions, until, i);
  }

  lemma CallEnds(before: Schema, after: Schema, revisions: seq<Revision>, until: Option<string>,
                 broken: set<string>, found: bool)
    requires OnChain(before, revisions) && forall j :: 0 <= j < |revisions| ==> until != Some(revisions[j].version)
    requires CallProgress(before, after, revisions, broken, found, |revisions|)
    ensures found && CallOutcome(before, revisions, until, broken, Success(()), after)
  {
  }

  lemma CallOffChain(before: Schema, revisions: seq<Revision>, until: Option<string>, broken: set<string>,
                     r: Result<(), ApplyError>, after: Schema)
    requires !(Chain(revisions) && OnChain(before, revisions))
    ensures CallOutcome(before, revisions, until, broken, r, after)
  {
  }

  lemma CallFails(before: Schema, schema: Schema, revisions: seq<Revision>, until: Option<string>, broken: set<string>,
                  found: bool, i: nat, error: ApplyError)
    requires Chain(revisions) && OnChain(before, revisions) && i < |revisions| && found
    requires forall j :: 0 <= j < i ==> until != Some(revisions[j].version)
    requires CallProgress(before, schema, revisions, broken, found, i)
    requires ApplyFails(schema, revisions[i], broken, error)
    ensures CallOutcome(before, revisions, until, broken, Failure(error), before)
  {
    ChecksPass(before, schema, revisions, broken, found, i);
    StopAtIsLater(revisions, until, i);
  }

  /** Where a successful call stops: behind the revision it names, at the end if it names none, and
      never before the revision it starts from. */
  lemma {:induction false} CallReaches(before: Schema, revisions: seq<Revision>, until: Option<string>, broken: set<string>,
                                       after: Schema)
    requires Chain(revisions) && OnChain(before, revisions)
    requires CallOutcome(before, revisions, until, broken, Success(()), after)
    ensures until.None? ==> after.executed == revisions
    ensures forall i: nat :: i < |revisions| && until == Some(revisions[i].version) ==>
                               after.executed == if i + 1 < |before.executed| then before.executed else revisions[..i + 1]
    ensures after.rows == if after.executed == [] then {} else {after.executed[|after.executed| - 1].version}
  {
    forall i: nat | i < |revisions| && until == Some(revisions[i].version)
      ensures after.executed == if i + 1 < |before.executed| then before.executed else revisions[..i + 1]
    {
      StopAtIs(revisions, until, i);
    }
  }

  class Database {
    var schema: Schema

    constructor ()
      ensures schema == Schema({}, [])
    {
      schema := Schema({}, []);
    }

    /** `broken` are the versions whose SQL code raises an error. */
    method Apply(revision: Revision, broken: set<string>) returns (r: Result<(), ApplyError>)
      modifies this
      ensures r.Success? <==> revision.version !in broken &&
                              if revision.needs.Some? then revision.needs.value in old(schema.rows)
                              else old(schema.rows) == {}
      ensures r.Success? ==>
                && schema.executed == old(schema.executed) + [revision]
                && schema.rows == (if revision.needs.Some? then old(schema.rows) - {revision.needs.value} else {})
                                  + {revision.version}
      ensures r.Failure? ==> ApplyFails(old(schema), revision, broken, r.error)
    {
      if revision.needs.Some? {
        if revision.needs.value !in schema.rows {
          return Failure(OtherRevisionPresent(revision.needs.value));
        }
        schema := schema.(rows := schema.rows - {revision.needs.value} + {revision.version});
      } else {
        if |schema.rows| != 0 {
          return Failure(RevisionPresent(revision.version));
        }
        schema := schema.(rows := {revision.version});
      }
      if revision.version in broken {
        return Failure(BrokenCode(revision.version));
      }
      schema := schema.(executed := schema.executed + [revision]);
      return Success(());
    }

    method CurrentRevision() returns (version: Option<string>)
      ensures version.None? <==> schema.rows == {}
      ensures version.Some? ==> version.value in schema.rows
    {
      if schema.rows == {} {
        return None;
      }
      var v :| v in schema.rows;
      return Some(v);
    }

    /** One call inside a transaction, which a failure rolls back. */
    method ApplyRevisions(revisions: seq<Revision>, until: Option<string>, broken: set<string>)
      returns (r: Result<(), ApplyError>)
      modifies this
      ensures CallOutcome(old(schema), revisions, until, broken, r, schema)
      ensures r.Failure? ==> schema == old(schema)
      ensures forall v :: old(schema.rows) == {v} &&
                          (forall x :: x in revisions ==> x.version != v && until != Some(x.version))
                          ==> r == Failure(UnknownRevision(v))
    {
      hide CallOutcome, CallProgress, Chain, OnChain, StopAt;
      var before := schema;
      ghost var onChain := Chain(revisions) && OnChain(before, revisions);
      var curr := CurrentRevision();
      var found := curr.None?;
      ghost var unknown :=
        curr.Some? && forall x :: x in revisions ==> x.version != curr.value && until != Some(x.version);
      if onChain {
        CallStarts(before, revisions, broken, found);
      } else {
        forall result, after ensures CallOutcome(before, revisions, until, broken, result, after) {
          CallOffChain(before, revisions, until, broken, result, after);
        }
      }
      for i := 0 to |revisions|
        invariant !found ==> curr.Some? && schema == before
        invariant unknown ==> !found
        invariant forall j :: 0 <= j < i ==> until != Some(revisions[j].version)
        invariant onChain ==> CallProgress(before, schema, revisions, broken, found, i)
      {
        var revision := revisions[i];
        ghost var start := schema;
        if found {
          r := Apply(revision, broken);
          if r.Failure? {
            if onChain {
              CallFails(before, start, revisions, until, broken, found, i, r.error);
            }
            schema := before;
            return;
          }
        }
        if onChain {
          CallContinues(before, start, schema, revisions, curr, broken, found, i);
        }
        if curr == Some(revision.version) {
          found := true;
        }
        if until == Some(revision.version) {
          if onChain {
            CallStops(before, schema, revisions, until, broken, found, i);
          }
          return Success(());
        }
      }
      if onChain {
        CallEnds(before, schema, revisions, until, broken, found);
      }
      if !found {
        schema := before;
        return Failure(UnknownRevision(curr.value));
      }
      return Success(());
    }
  }

  // ---------- whole runs ----------

  datatype Call = Call(revisions: seq<Revision>, until: Option<string>, broken: set<string>,
                       outcome: Result<(), ApplyError>)

  /** Calls, failed ones included, from an empty database on; between calls the chain may grow at
      its end.  `states[i]` is the database before call `i`. */
  ghost predicate IsRun(states: seq<Schema>, calls: seq<Call>) {
    && |states| == |calls| + 1
    && states[0] == Schema({}, [])
    && (forall i :: 0 <= i < |calls| ==> Chain(calls[i].revisions))
    && (forall i, j :: 0 <= i < j < |calls| ==> calls[i].revisions <= calls[j].revisions)
    && (forall i :: 0 <= i < |calls| ==> Outcome(states[i], calls[i], states[i + 1]))
  }

  ghost predicate Outcome(before: Schema, call: Call, after: Schema) {
    CallOutcome(before, call.revisions, call.until, call.broken, call.outcome, after)
  }

  /** Every call finds and leaves the database on its chain, and never undoes or repeats anything. */
  lemma {:induction false} RunStaysOnChain(states: seq<Schema>, calls: seq<Call>, i: nat)
    requires IsRun(states, calls) && i < |calls|
    ensures OnChain(states[i], calls[i].revisions) && OnChain(states[i + 1], calls[i].revisions)
    ensures states[i].executed <= states[i + 1].executed
    ensures calls[i].outcome.Failure? ==> calls[i].outcome.error.BrokenCode?
  {
    if i > 0 {
      RunStaysOnChain(states, calls, i - 1);
      assert calls[i - 1].revisions <= calls[i].revisions;
    }
    assert Outcome(states[i], calls[i], states[i + 1]);
    OutcomeExtends(states[i], calls[i], states[i + 1]);
  }

  lemma OutcomeExtends(before: Schema, call: Call, after: Schema)
    requires Outcome(before, call, after) && Chain(call.revisions) && OnChain(before, call.revisions)
    ensures OnChain(after, call.revisions) && before.executed <= after.executed
  {
    assert |before.executed| <= Target(call.revisions, |before.executed|, call.until);
  }

  /** After a run whose last call succeeded and named no revision to stop at, every revision of the
      chain has been executed exactly once, in order, and the version row is the last one's. */
  lemma {:induction false} RunAppliesEverything(states: seq<Schema>, calls: seq<Call>)
    requires IsRun(states, calls) && calls != []
    requires calls[|calls| - 1].outcome.Success? && calls[|calls| - 1].until == None
    ensures var chain, end := calls[|calls| - 1].revisions, states[|calls|];
            end.executed == chain && end.rows == LastRow(chain)
  {
    var last := |calls| - 1;
    RunStaysOnChain(states, calls, last);
    assert Outcome(states[last], calls[last], states[last + 1]);
    assert StopAt(calls[last].revisions, None) == |calls[last].revisions|;
  }
}
