/** The service methods that write the tables step by step, proved against the commands of the
    revision store (abrechnung/application/accounts.py and transactions.py). */
module RevisionServices {
  import opened Wrappers
  import opened Sums
  import opened TransactionEffects
  import opened ClearingGraph
  import opened RevisionTables
  import opened RevisionStore
  import opened RevisionEffects

  type Outcome = Result<(), StoreError>

  // ---------- the cycle check of the database ----------

  ghost function Targets(rows: ShareMap): set<Id> {
    set c, a | c in rows && a in rows[c] :: a
  }

  lemma {:induction false} ClosedUnderShares(rows: ShareMap, seen: set<Id>, p: seq<Id>)
    requires forall c, a :: c in seen && Edge(rows, c, a) ==> a in seen
    requires IsPath(rows, p) && p[0] in seen
    ensures p[|p| - 1] in seen
    decreases |p|
  {
    var n := |p|;
    assert Edge(rows, p[n - 2], p[n - 1]);
    if n > 2 {
      ClosedUnderShares(rows, seen, p[..n - 1]);
    }
  }

  lemma NextAreTargets(rows: ShareMap, a: Id)
    ensures a in rows ==> rows[a].Keys <= Targets(rows)
  {
    if a in rows {
      forall b | b in rows[a] ensures b in Targets(rows) {
      }
    }
  }

  lemma VisitsOn(rows: ShareMap, starts: set<Id>, a: Id, b: Id)
    requires Visits(rows, starts, a) && Edge(rows, a, b)
    ensures Visits(rows, starts, b)
  {
    var s :| s in starts && (s == a || Reaches(rows, s, a));
    ReachesByEdge(rows, a, b);
    if s != a {
      ReachesTransitively(rows, s, a, b);
    }
  }

  lemma OnlyVisited(rows: ShareMap, starts: set<Id>, seen: set<Id>, y: Id)
    requires starts <= seen && forall c, a :: c in seen && Edge(rows, c, a) ==> a in seen
    requires Visits(rows, starts, y)
    ensures y in seen
  {
    var s :| s in starts && (s == y || Reaches(rows, s, y));
    if s != y {
      var p :| PathBetween(rows, p, s, y);
      ClosedUnderShares(rows, seen, p);
    }
  }

  /** The accounts a search along the share rows comes to. */
  method Search(rows: ShareMap, starts: set<Id>) returns (seen: set<Id>)
    ensures forall y :: y in seen <==> Visits(rows, starts, y)
  {
    seen := {};
    var todo := starts;
    while todo != {}
      invariant todo !! seen && starts <= todo + seen
      invariant todo + seen <= starts + Targets(rows)
      invariant forall a :: a in todo + seen ==> Visits(rows, starts, a)
      invariant forall c, a :: c in seen && Edge(rows, c, a) ==> a in todo + seen
      decreases starts + Targets(rows) - seen
    {
      var a := NextKey(todo);
      var next := if a in rows then rows[a].Keys else {};
      NextAreTargets(rows, a);
      forall b | b in next ensures Visits(rows, starts, b) {
        VisitsOn(rows, starts, a, b);
      }
      assert a in starts + Targets(rows) - seen;
      seen := seen + {a};
      todo := todo + next - seen;
    }
    forall y | Visits(rows, starts, y) ensures y in seen {
      OnlyVisited(rows, starts, seen, y);
    }
  }

  lemma OnCycleIff(rows: ShareMap, y: Id)
    ensures OnCycle(rows, y) <==> y in rows && Visits(rows, rows[y].Keys, y)
  {
    if y in rows && Visits(rows, rows[y].Keys, y) {
      var s :| s in rows[y].Keys && (s == y || Reaches(rows, s, y));
      ReachesByEdge(rows, y, s);
      if s != y {
        ReachesTransitively(rows, y, s, y);
      }
    }
    if OnCycle(rows, y) {
      var p :| PathBetween(rows, p, y, y);
      assert Edge(rows, p[0], p[1]);
      if |p| > 2 {
        assert PathBetween(rows, p[1..], p[1], y);
      }
    }
  }

  /** The query of the cycle constraint: reports any cycle the new shares lead to. */
  method FindsCycle(rows: ShareMap, starts: set<Id>) returns (found: bool)
    ensures found <==> CycleReported(rows, starts)
  {
    var seen := Search(rows, starts);
    var todo := seen;
    while todo != {}
      invariant todo <= seen
      invariant forall y :: y in seen - todo ==> !OnCycle(rows, y)
      decreases todo
    {
      var y := NextKey(todo);
      OnCycleIff(rows, y);
      if y in rows {
        var after := Search(rows, rows[y].Keys);
        if y in after {
          return true;
        }
      }
      todo := todo - {y};
    }
    return false;
  }

  // ---------- helper lemmas for the checks ----------

  lemma CountsAll(keys: set<Id>, good: set<Id>)
    requires good <= keys
    ensures |good| == |keys| <==> good == keys
  {
    assert keys == good + (keys - good);
    assert |keys| == |good| + |keys - good|;
  }

  /** Shares do not influence which accounts are live. */
  lemma LivenessIgnoresShares(t: Tables, a: Id, s1: Shares, s2: Shares, group: GroupId, k: Id)
    ensures LiveIn(AddAccountRevision(t, AccountRevision(a, Some(false), s1)), group, k) <==>
            LiveIn(AddAccountRevision(t, AccountRevision(a, Some(false), s2)), group, k)
  {
    AccountStateAfter(t, AccountRevision(a, Some(false), s1), k);
    AccountStateAfter(t, AccountRevision(a, Some(false), s2), k);
  }

  ghost function NonZeroPart(shares: Shares, done: set<Id>): Shares {
    map k | k in shares && k in done && shares[k] != 0.0 :: shares[k]
  }

  ghost predicate PutChecked(t: Tables, group: GroupId, versions: map<Id, ItemVersion>, changed: seq<ChangedItem>, i: nat)
    requires i < |changed|
  {
    && PutAllowed(t.items, PutVersions(versions, changed[..i]), changed[i])
    && ItemAccepted(t, group, changed[i].communistShares, changed[i].usages)
  }

  lemma PutsCheckedAre(t: Tables, group: GroupId, versions: map<Id, ItemVersion>, changed: seq<ChangedItem>)
    ensures (forall i :: 0 <= i < |changed| ==> PutChecked(t, group, versions, changed, i)) <==>
            PutsAllowed(t.items, versions, changed) &&
            forall i :: 0 <= i < |changed| ==> ItemAccepted(t, group, changed[i].communistShares, changed[i].usages)
  {
    if forall i :: 0 <= i < |changed| ==> PutChecked(t, group, versions, changed, i) {
      forall i | 0 <= i < |changed|
        ensures PutAllowed(t.items, PutVersions(versions, changed[..i]), changed[i])
        ensures ItemAccepted(t, group, changed[i].communistShares, changed[i].usages)
      {
        assert PutChecked(t, group, versions, changed, i);
      }
    }
  }

  ghost function Inserted(shares: Shares, todo: set<Id>): Shares {
    map k | k in shares && k !in todo :: shares[k]
  }

  lemma AtLeastTwo(keys: set<Id>, a: Id, b: Id)
    requires a in keys && b in keys && a != b
    ensures |keys| >= 2
  {
    assert |keys - {a, b}| == |keys| - 2;
  }

  /** Share rows are inserted one by one; each must be positive, and for some kinds of transactions
      the only one. */
  method InsertShares(shares: Shares, single: bool) returns (ok: bool, rows: Shares)
    ensures ok <==> AllPositive(shares) && (single ==> |shares| <= 1)
    ensures ok ==> rows == shares
  {
    rows := map[];
    var todo := shares.Keys;
    while todo != {}
      invariant todo <= shares.Keys && rows == Inserted(shares, todo)
      invariant AllPositive(rows) && (single ==> |rows| <= 1)
      decreases todo
    {
      var k := NextKey(todo);
      if shares[k] <= 0.0 {
        return false, rows;
      }
      if single && rows != map[] {
        ghost var other := AnyOf(rows.Keys);
        AtLeastTwo(shares.Keys, k, other);
        return false, rows;
      }
      rows := rows[k := shares[k]];
      todo := todo - {k};
    }
    assert rows == shares;
    return true, rows;
  }

  class Store {
    var tables: Tables

    constructor ()
      ensures tables == EMPTY
    {
      tables := EMPTY;
    }

    // ---------- accounts ----------

    method CheckAccountExists(group: GroupId, a: Id) returns (ok: bool)
      ensures ok <==> LiveIn(tables, group, a)
    {
      var state := AccountState(tables.accountRevisions, a);
      ok := a in tables.accounts && state.Some? && tables.accounts[a].group == group && !state.value.deleted.value;
    }

    /** Checks and inserts the shares one by one into the newest revision, skipping zeros. */
    method PutClearingShares(ghost t0: Tables, group: GroupId, a: Id, shares: Shares) returns (ok: bool)
      requires tables == AddAccountRevision(t0, AccountRevision(a, Some(false), map[]))
      modifies this
      ensures ok <==> AllLiveIn(AccountCommit(t0, a, false, shares), group, NonZero(shares).Keys)
      ensures ok ==> tables == AccountCommit(t0, a, false, shares)
    {
      var n := |tables.accountRevisions| - 1;
      var todo := shares.Keys;
      assert NonZeroPart(shares, shares.Keys - todo) == map[];
      while todo != {}
        invariant todo <= shares.Keys && n == |t0.accountRevisions|
        invariant tables == AddAccountRevision(t0, AccountRevision(a, Some(false), NonZeroPart(shares, shares.Keys - todo)))
        invariant forall k :: k in shares.Keys - todo && shares[k] != 0.0 ==>
                                LiveIn(AccountCommit(t0, a, false, shares), group, k)
        decreases todo
      {
        var k := NextKey(todo);
        ghost var part := NonZeroPart(shares, shares.Keys - todo);
        ghost var part' := NonZeroPart(shares, shares.Keys - (todo - {k}));
        if shares[k] != 0.0 {
          LivenessIgnoresShares(t0, a, part, NonZero(shares), group, k);
          var exists_ := CheckAccountExists(group, k);
          if !exists_ {
            assert k in NonZero(shares);
            return false;
          }
          var r := tables.accountRevisions[n];
          assert part' == part[k := shares[k]];
          tables := tables.(accountRevisions := tables.accountRevisions[n := r.(shares := r.shares[k := shares[k]])]);
        } else {
          assert part' == part;
        }
        todo := todo - {k};
      }
      assert NonZeroPart(shares, shares.Keys - todo) == NonZero(shares);
      return true;
    }

    /** Inserts a new revision with its shares and commits it. */
    method WriteAccount(a: Id, shares: Shares) returns (ok: bool)
      requires a in tables.accounts
      modifies this
      ensures ok <==> SharesAccepted(old(tables), a, shares)
      ensures ok ==> tables == AccountCommit(old(tables), a, false, shares)
    {
      var row := tables.accounts[a];
      ghost var t0 := tables;
      if shares != map[] && !row.clearing {
        return false;
      }
      tables := tables.(accountRevisions := tables.accountRevisions + [AccountRevision(a, Some(false), map[])]);
      ok := PutClearingShares(t0, row.group, a, shares);
      if ok {
        var cyclic := FindsCycle(GroupRows(tables, row.group), NonZero(shares).Keys);
        ok := !cyclic;
      }
    }

    method CreateAccount(id: Id, group: GroupId, clearing: bool, shares: Shares) returns (r: Outcome)
      requires id !in tables.accounts
      modifies this
      ensures r.Success? <==> Accepted(old(tables), Command.CreateAccount(id, group, clearing, shares))
      ensures tables == if r.Success?
                        then After(old(tables), Command.CreateAccount(id, group, clearing, shares))
                        else old(tables)
      ensures r.Success? ==>
                && AccountIs(tables, id, false, shares) && LiveIn(tables, group, id)
                && OtherAccountsKept(old(tables), tables, id) && TransactionsKept(old(tables), tables)
      ensures shares != map[] && !clearing ==> r.Failure?
    {
      CreatedAccount(tables, id, group, clearing, shares);
      var before := tables;
      tables := tables.(accounts := tables.accounts[id := AccountRow(group, clearing)]);
      var ok := WriteAccount(id, shares);
      if !ok {
        tables := before;
        return Failure(InvalidCommand);
      }
      return Success(());
    }

    method UpdateAccount(id: Id, shares: Shares) returns (r: Outcome)
      modifies this
      ensures r.Success? <==> Accepted(old(tables), Command.UpdateAccount(id, shares))
      ensures tables == if r.Success? then After(old(tables), Command.UpdateAccount(id, shares)) else old(tables)
      ensures r.Success? ==>
                && AccountIs(tables, id, false, shares) && IsLive(tables, id)
                && OtherAccountsKept(old(tables), tables, id) && TransactionsKept(old(tables), tables)
      ensures r == Failure(NotFound) <==> id !in old(tables).accounts
      ensures id in old(tables).accounts && shares != map[] && !old(tables).accounts[id].clearing ==> r.Failure?
    {
      if id in tables.accounts {
        UpdatedAccount(tables, id, shares);
      }
      var before := tables;
      if id !in tables.accounts {
        return Failure(NotFound);
      }
      var ok := WriteAccount(id, shares);
      if !ok {
        tables := before;
        return Failure(InvalidCommand);
      }
      return Success(());
    }

    method IsReferenced(a: Id) returns (referenced: bool)
      ensures referenced <==> !Unreferenced(tables, a)
    {
      var hasShares := exists x :: x in tables.transactions && HasShare(x, a);
      var hasClearingShares := exists c :: c in tables.accounts && HasClearingShare(c, a);
      var hasUsages := exists i :: i in tables.items && HasUsage(i, a);
      referenced := hasShares || hasClearingShares || hasUsages;
    }

    predicate HasShare(x: Id, a: Id)
      reads this
    {
      var s := TransactionState(tables.transactionRevisions, x);
      s.Some? && !s.value.deleted.value && (a in s.value.creditors || a in s.value.debitors)
    }

    predicate HasClearingShare(c: Id, a: Id)
      reads this
    {
      IsLive(tables, c) && a in AccountState(tables.accountRevisions, c).value.shares
    }

    predicate HasUsage(i: Id, a: Id)
      requires i in tables.items
      reads this
    {
      var s := ItemState(tables.transactionRevisions, tables.items[i], i);
      s.Some? && !s.value.deleted && a in s.value.usages
    }

    /** The new revision has no shares for the cycle query to start from. */
    method DeleteAccount(id: Id) returns (r: Outcome)
      modifies this
      ensures r.Success? <==> Accepted(old(tables), Command.DeleteAccount(id))
      ensures tables == if r.Success? then After(old(tables), Command.DeleteAccount(id)) else old(tables)
      ensures r.Success? ==>
                && AccountIs(tables, id, true, map[]) && !IsLive(tables, id)
                && OtherAccountsKept(old(tables), tables, id) && TransactionsKept(old(tables), tables)
      ensures r == Failure(NotFound) <==> id !in old(tables).accounts
    {
      DeletedAccount(tables, id);
      if id !in tables.accounts {
        return Failure(NotFound);
      }
      var referenced := IsReferenced(id);
      if referenced {
        return Failure(InvalidCommand);
      }
      var state := AccountState(tables.accountRevisions, id);
      if state.None? || state.value.deleted.value {
        return Failure(InvalidCommand);
      }
      assert NonZero(map[]) == map[];
      tables := tables.(accountRevisions := tables.accountRevisions + [AccountRevision(id, Some(true), map[])]);
      return Success(());
    }

    // ---------- transactions ----------

    /** Compares the number of keys with the number of live accounts among them. */
    method AllExist(group: GroupId, shares: Shares) returns (ok: bool)
      ensures ok <==> AllLiveIn(tables, group, shares.Keys)
    {
      var live := set k | k in shares.Keys && LiveIn(tables, group, k);
      CountsAll(shares.Keys, live);
      ok := |shares.Keys| == |live|;
      if live == shares.Keys {
        assert forall k :: k in shares.Keys ==> k in live;
      }
    }

    /** Checks the accounts of the shares and inserts them one by one, each row checked by the
        constraints. */
    method PutShares(group: GroupId, shares: Shares, single: bool) returns (ok: bool, rows: Shares)
      ensures ok <==> AllLiveIn(tables, group, shares.Keys) && AllPositive(shares) && (single ==> |shares| <= 1)
      ensures ok ==> rows == shares
    {
      rows := map[];
      ok := AllExist(group, shares);
      if ok {
        ok, rows := InsertShares(shares, single);
      }
    }

    method CreateItems(x: Id, group: GroupId, newItems: seq<NewItem>) returns (ok: bool, versions: map<Id, ItemVersion>)
      modifies this
      ensures ok <==> forall i :: 0 <= i < |newItems| ==>
                                    ItemAccepted(old(tables), group, newItems[i].communistShares, newItems[i].usages)
      ensures ok ==> tables == old(tables).(items := OwnItems(old(tables).items, x, newItems))
      ensures ok ==> versions == NewVersions(newItems)
    {
      versions := map[];
      for i := 0 to |newItems|
        invariant tables == old(tables).(items := OwnItems(old(tables).items, x, newItems[..i]))
        invariant versions == NewVersions(newItems[..i])
        invariant forall k :: 0 <= k < i ==>
                                ItemAccepted(old(tables), group, newItems[k].communistShares, newItems[k].usages)
      {
        var item := newItems[i];
        assert newItems[..i + 1][..i] == newItems[..i];
        tables := tables.(items := tables.items[item.id := x]);
        var allowed := item.communistShares >= 0.0;
        var usages := map[];
        if allowed {
          allowed, usages := PutShares(group, item.usages, false);
        }
        SameAccounts(old(tables), tables, group);
        assert allowed <==> ItemAccepted(old(tables), group, item.communistShares, item.usages);
        if !allowed {
          return false, versions;
        }
        versions := versions[item.id := ItemVersion(false, item.communistShares, usages)];
      }
      assert newItems[..|newItems|] == newItems;
      return true, versions;
    }

    method PutItems(group: GroupId, versions0: map<Id, ItemVersion>, changed: seq<ChangedItem>)
      returns (ok: bool, versions: map<Id, ItemVersion>)
      ensures ok <==> forall i :: 0 <= i < |changed| ==> PutChecked(tables, group, versions0, changed, i)
      ensures ok ==> versions == PutVersions(versions0, changed)
    {
      versions := versions0;
      for i := 0 to |changed|
        invariant versions == PutVersions(versions0, changed[..i])
        invariant forall k :: 0 <= k < i ==> PutChecked(tables, group, versions0, changed, k)
      {
        var c := changed[i];
        assert changed[..i + 1][..i] == changed[..i];
        ok := PutAllowed(tables.items, versions, c) && c.communistShares >= 0.0;
        var usages := map[];
        if ok {
          ok, usages := PutShares(group, c.usages, false);
        }
        assert ok <==> PutChecked(tables, group, versions0, changed, i);
        if !ok {
          return;
        }
        versions := PutVersion(versions, c.(usages := usages));
      }
      assert changed[..|changed|] == changed;
      ok := true;
    }

    /** Writes a revision of transaction `x` with its shares and positions, and commits it if asked to. */
    method WriteTransaction(x: Id, row: TransactionRow, deleted: Option<bool>, committed: bool, creditors: Shares,
                            debitors: Shares, newItems: seq<NewItem>, changed: seq<ChangedItem>) returns (ok: bool)
      modifies this
      ensures ok <==> TransactionAccepted(old(tables), x, row, committed, creditors, debitors, newItems, changed)
      ensures ok ==> tables == TransactionCommit(old(tables), x, deleted, creditors, debitors, newItems, changed)
    {
      hide LiveIn, AllLiveIn, ItemAccepted, PutAllowed, PutsAllowed, PutVersions, NewVersions, OwnItems, CommitAllowed;
      var debitorRows, creditorRows;
      ok, debitorRows := PutShares(row.group, debitors, row.kind == Transfer);
      if !ok { return; }
      ok, creditorRows := PutShares(row.group, creditors, row.kind != Mimo);
      if !ok { return; }
      var versions;
      ok, versions := CreateItems(x, row.group, newItems);
      if !ok { return; }
      ghost var created := versions;
      PutsCheckedAre(tables, row.group, created, changed);
      SameAccounts(old(tables), tables, row.group);
      ok, versions := PutItems(row.group, versions, changed);
      if !ok { return; }
      if committed {
        ok := CommitAllowed(tables.items, x, row.kind, creditorRows, debitorRows, versions);
        if !ok { return; }
      }
      tables := tables.(transactionRevisions := tables.transactionRevisions +
                          [TransactionRevision(x, deleted, creditorRows, debitorRows, versions)]);
    }

    method CreateTransaction(id: Id, group: GroupId, kind: TransactionKind, creditors: Shares, debitors: Shares,
                             newItems: seq<NewItem>) returns (r: Outcome)
      requires id !in tables.transactions && FreshItems(tables, newItems)
      modifies this
      ensures r.Success? <==>
              Accepted(old(tables), Command.CreateTransaction(id, group, kind, creditors, debitors, newItems))
      ensures tables == if r.Success?
                        then After(old(tables), Command.CreateTransaction(id, group, kind, creditors, debitors, newItems))
                        else old(tables)
      ensures r.Success? ==>
                && id in tables.transactions && tables.transactions[id] == TransactionRow(group, kind)
                && TransactionIs(tables, id, false, creditors, debitors)
                && ItemsWritten(old(tables), tables, id, newItems, [])
                && OtherTransactionsKept(old(tables), tables, id) && AccountsKept(old(tables), tables)
    {
      hide TransactionIs, ItemsWritten, OtherTransactionsKept;
      if Accepted(tables, Command.CreateTransaction(id, group, kind, creditors, debitors, newItems)) {
        CreatedTransaction(tables, id, group, kind, creditors, debitors, newItems);
      }
      var before := tables;
      var row := TransactionRow(group, kind);
      tables := tables.(transactions := tables.transactions[id := row]);
      ghost var t1 := tables;
      var ok := WriteTransaction(id, row, Some(false), true, creditors, debitors, newItems, []);
      RowDoesNotMatter(before, t1, id, row, true, creditors, debitors, newItems, []);
      if !ok {
        tables := before;
        return Failure(InvalidCommand);
      }
      return Success(());
    }

    method UpdateTransaction(id: Id, kind: TransactionKind, creditors: Shares, debitors: Shares,
                             newItems: seq<NewItem>, changed: seq<ChangedItem>) returns (r: Outcome)
      requires FreshItems(tables, newItems)
      modifies this
      ensures r.Success? <==>
              Accepted(old(tables), Command.UpdateTransaction(id, kind, creditors, debitors, newItems, changed))
      ensures tables == if r.Success?
                        then After(old(tables), Command.UpdateTransaction(id, kind, creditors, debitors, newItems, changed))
                        else old(tables)
      ensures r.Success? ==>
                && TransactionIs(tables, id, false, creditors, debitors)
                && ItemsWritten(old(tables), tables, id, newItems, changed)
                && OtherTransactionsKept(old(tables), tables, id) && AccountsKept(old(tables), tables)
      ensures r == Failure(NotFound) <==> id !in old(tables).transactions
      ensures id in old(tables).transactions && old(tables).transactions[id].kind != kind ==> r.Failure?
    {
      hide TransactionIs, ItemsWritten, OtherTransactionsKept;
      if Accepted(tables, Command.UpdateTransaction(id, kind, creditors, debitors, newItems, changed)) {
        UpdatedTransaction(tables, id, kind, creditors, debitors, newItems, changed);
      }
      var before := tables;
      if id !in tables.transactions {
        return Failure(NotFound);
      }
      if tables.transactions[id].kind != kind {
        return Failure(InvalidCommand);
      }
      var ok := WriteTransaction(id, tables.transactions[id], Some(false), true, creditors, debitors, newItems, changed);
      if !ok {
        tables := before;
        return Failure(InvalidCommand);
      }
      return Success(());
    }

    /** Writes a revision without a history row of the transaction itself, and never commits it. */
    method UpdateTransactionPositions(id: Id, changed: seq<ChangedItem>) returns (r: Outcome)
      modifies this
      ensures r.Success? <==> Accepted(old(tables), Command.UpdatePositions(id, changed))
      ensures tables == if r.Success? then After(old(tables), Command.UpdatePositions(id, changed)) else old(tables)
      ensures r.Success? ==>
                && TransactionState(tables.transactionRevisions, id) == TransactionState(old(tables).transactionRevisions, id)
                && ItemsWritten(old(tables), tables, id, [], changed)
                && OtherTransactionsKept(old(tables), tables, id) && AccountsKept(old(tables), tables)
      ensures r == Failure(NotFound) <==> id !in old(tables).transactions
      ensures id in old(tables).transactions && old(tables).transactions[id].kind != Purchase ==> r.Failure?
    {
      hide ItemsWritten, OtherTransactionsKept;
      if Accepted(tables, Command.UpdatePositions(id, changed)) {
        UpdatedPositions(tables, id, changed);
      }
      var before := tables;
      if id !in tables.transactions {
        return Failure(NotFound);
      }
      if tables.transactions[id].kind != Purchase {
        return Failure(InvalidCommand);
      }
      var ok := WriteTransaction(id, tables.transactions[id], None, false, map[], map[], [], changed);
      if !ok {
        tables := before;
        return Failure(InvalidCommand);
      }
      return Success(());
    }

    /** Copies the latest state into a new revision and marks it deleted; positions stay as they are. */
    method DeleteTransaction(id: Id) returns (r: Outcome)
      modifies this
      ensures r.Success? <==> Accepted(old(tables), Command.DeleteTransaction(id))
      ensures tables == if r.Success? then After(old(tables), Command.DeleteTransaction(id)) else old(tables)
      ensures r.Success? ==>
                && (var before := TransactionState(old(tables).transactionRevisions, id);
                    before.Some? && TransactionIs(tables, id, true, before.value.creditors, before.value.debitors))
                && (forall y, i :: ItemState(tables.transactionRevisions, y, i) ==
                                   ItemState(old(tables).transactionRevisions, y, i))
                && OtherTransactionsKept(old(tables), tables, id) && AccountsKept(old(tables), tables)
    {
      hide TransactionIs, OtherTransactionsKept;
      if Accepted(tables, Command.DeleteTransaction(id)) {
        DeletedTransaction(tables, id);
      }
      if id !in tables.transactions {
        return Failure(NotFound);
      }
      var state := TransactionState(tables.transactionRevisions, id);
      if state.None? {
        return Failure(NotFound);
      }
      if state.value.deleted.value {
        return Failure(InvalidCommand);
      }
      var kind := tables.transactions[id].kind;
      var creditorsInserted, creditors := InsertShares(state.value.creditors, kind != Mimo);
      var debitorsInserted, debitors := InsertShares(state.value.debitors, kind == Transfer);
      if !creditorsInserted || !debitorsInserted {
        return Failure(ConstraintViolation);
      }
      var copy := TransactionRevision(id, state.value.deleted, creditors, debitors, map[]);
      copy := copy.(deleted := Some(true));
      tables := tables.(transactionRevisions := tables.transactionRevisions + [copy]);
      return Success(());
    }
  }

  lemma RowDoesNotMatter(t: Tables, t1: Tables, x: Id, row: TransactionRow, committed: bool, creditors: Shares,
                         debitors: Shares, newItems: seq<NewItem>, changed: seq<ChangedItem>)
    requires t1.accounts == t.accounts && t1.accountRevisions == t.accountRevisions && t1.items == t.items
    ensures TransactionAccepted(t, x, row, committed, creditors, debitors, newItems, changed) <==>
            TransactionAccepted(t1, x, row, committed, creditors, debitors, newItems, changed)
  {
    hide AllLiveIn, ItemAccepted, ShareRowsAllowed, PutsAllowed, CommitAllowed;
    SameAccounts(t, t1, row.group);
  }
}
