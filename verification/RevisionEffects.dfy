/** What each call of the services does, as the views of the current state show it afterwards
    (abrechnung/application/accounts.py and transactions.py). */
module RevisionEffects {
  import opened Wrappers
  import opened Sums
  import opened TransactionEffects
  import opened ClearingGraph
  import opened RevisionTables
  import opened RevisionStore

  // ---------- accounts ----------

  /** The current state of `a` has the deleted flag and exactly the non-zero ones of the shares. */
  ghost predicate AccountIs(t: Tables, a: Id, deleted: bool, shares: Shares) {
    var state := AccountState(t.accountRevisions, a);
    && state.Some? && state.value.deleted == Some(deleted)
    && (forall k :: k in state.value.shares <==> k in shares && shares[k] != 0.0)
    && (forall k :: k in state.value.shares ==> state.value.shares[k] == shares[k])
  }

  ghost predicate OtherAccountsKept(t: Tables, after: Tables, a: Id) {
    && (forall b :: b != a ==> AccountState(after.accountRevisions, b) == AccountState(t.accountRevisions, b))
    && (forall b :: b != a ==> (b in after.accounts <==> b in t.accounts))
    && (forall b :: b != a && b in t.accounts && b in after.accounts ==> after.accounts[b] == t.accounts[b])
  }

  ghost predicate TransactionsKept(t: Tables, after: Tables) {
    && after.transactions == t.transactions && after.transactionRevisions == t.transactionRevisions
    && after.items == t.items
  }

  lemma {:induction false} AccountCommitShows(t: Tables, a: Id, deleted: bool, shares: Shares)
    ensures var after := AccountCommit(t, a, deleted, shares);
            && AccountIs(after, a, deleted, shares)
            && OtherAccountsKept(t, after, a) && TransactionsKept(t, after)
            && after.accounts == t.accounts
  {
    forall b ensures AccountState(AccountCommit(t, a, deleted, shares).accountRevisions, b) ==
                     if b == a then Some(AccountRevision(a, Some(deleted), NonZero(shares)))
                     else AccountState(t.accountRevisions, b) {
      AccountStateAfter(t, AccountRevision(a, Some(deleted), NonZero(shares)), b);
    }
  }

  /** A created account is live in its group, of its type and with its shares; nothing else changes. */
  lemma {:induction false} CreatedAccount(t: Tables, id: Id, group: GroupId, clearing: bool, shares: Shares)
    ensures var after := After(t, Command.CreateAccount(id, group, clearing, shares));
            && id in after.accounts && after.accounts[id].group == group && after.accounts[id].clearing == clearing
            && AccountIs(after, id, false, shares) && LiveIn(after, group, id)
            && OtherAccountsKept(t, after, id) && TransactionsKept(t, after)
  {
    AccountCommitShows(AddAccountRow(t, id, AccountRow(group, clearing)), id, false, shares);
  }

  /** An updated account is live, deleted before or not, and has exactly the new shares. */
  lemma {:induction false} UpdatedAccount(t: Tables, id: Id, shares: Shares)
    requires id in t.accounts
    ensures var after := After(t, Command.UpdateAccount(id, shares));
            && AccountIs(after, id, false, shares) && LiveIn(after, t.accounts[id].group, id)
            && after.accounts == t.accounts
            && OtherAccountsKept(t, after, id) && TransactionsKept(t, after)
  {
    AccountCommitShows(t, id, false, shares);
  }

  /** A deleted account is not live and shares nothing. */
  lemma {:induction false} DeletedAccount(t: Tables, id: Id)
    ensures var after := After(t, Command.DeleteAccount(id));
            && AccountIs(after, id, true, map[]) && !IsLive(after, id)
            && after.accounts == t.accounts
            && OtherAccountsKept(t, after, id) && TransactionsKept(t, after)
  {
    AccountCommitShows(t, id, true, map[]);
  }

  // ---------- transactions ----------

  ghost predicate TransactionIs(t: Tables, x: Id, deleted: bool, creditors: Shares, debitors: Shares) {
    var state := TransactionState(t.transactionRevisions, x);
    && state.Some? && state.value.deleted == Some(deleted)
    && state.value.creditors == creditors && state.value.debitors == debitors
  }

  ghost predicate OtherTransactionsKept(t: Tables, after: Tables, x: Id) {
    && (forall y :: y != x ==> TransactionState(after.transactionRevisions, y) == TransactionState(t.transactionRevisions, y))
    && (forall y, i :: y != x ==> ItemState(after.transactionRevisions, y, i) == ItemState(t.transactionRevisions, y, i))
    && (forall y :: y != x ==> (y in after.transactions <==> y in t.transactions))
    && (forall y :: y != x && y in t.transactions && y in after.transactions ==> after.transactions[y] == t.transactions[y])
    && (forall i :: i in t.items ==> i in after.items && after.items[i] == t.items[i])
  }

  ghost predicate AccountsKept(t: Tables, after: Tables) {
    after.accounts == t.accounts && after.accountRevisions == t.accountRevisions
  }

  ghost predicate IsNew(newItems: seq<NewItem>, n: nat, i: Id) {
    n < |newItems| && newItems[n].id == i
  }

  ghost predicate IsChange(changed: seq<ChangedItem>, j: nat, i: Id) {
    j < |changed| && changed[j].id == i
  }

  ghost predicate IsLastChange(changed: seq<ChangedItem>, j: nat, i: Id) {
    IsChange(changed, j, i) && forall k :: j < k < |changed| ==> changed[k].id != i
  }

  ghost predicate Written(newItems: seq<NewItem>, changed: seq<ChangedItem>, i: Id) {
    (exists n: nat :: IsNew(newItems, n, i)) || (exists j: nat :: IsChange(changed, j, i))
  }

  ghost predicate Uses(usages: Shares, k: Id, w: real) {
    k in usages && usages[k] == w
  }

  /** One of the given items uses `k` with weight `w`. */
  ghost predicate GivesUsage(newItems: seq<NewItem>, changed: seq<ChangedItem>, i: Id, k: Id, w: real) {
    || (exists n: nat :: IsNew(newItems, n, i) && Uses(newItems[n].usages, k, w))
    || (exists j: nat :: IsChange(changed, j, i) && Uses(changed[j].usages, k, w))
  }

  /** The positions of `x` are as before except those written: a new one is not deleted and has its
      common share, a changed one has the flag and common share of its last change, and both have all
      usages that were given for them and no other. */
  ghost predicate ItemsWritten(t: Tables, after: Tables, x: Id, newItems: seq<NewItem>, changed: seq<ChangedItem>) {
    && (forall i :: !Written(newItems, changed, i) ==>
                      ItemState(after.transactionRevisions, x, i) == ItemState(t.transactionRevisions, x, i))
    && (forall i :: Written(newItems, changed, i) ==> ItemState(after.transactionRevisions, x, i).Some?)
    && (forall n: nat, i :: IsNew(newItems, n, i) && !(exists j: nat :: IsChange(changed, j, i)) ==>
                              var v := ItemState(after.transactionRevisions, x, i);
                              v.Some? && !v.value.deleted && v.value.communistShares == newItems[n].communistShares)
    && (forall j: nat, i :: IsLastChange(changed, j, i) ==>
                              var v := ItemState(after.transactionRevisions, x, i);
                              && v.Some? && v.value.deleted == changed[j].deleted
                              && v.value.communistShares == changed[j].communistShares)
    && (forall i, k, w :: Written(newItems, changed, i) ==>
                            var v := ItemState(after.transactionRevisions, x, i);
                            v.Some? && (Uses(v.value.usages, k, w) <==> GivesUsage(newItems, changed, i, k, w)))
    && (forall n: nat, i :: IsNew(newItems, n, i) ==> i in after.items && after.items[i] == x)
  }

  lemma {:induction false} NewVersionAt(newItems: seq<NewItem>, n: nat)
    requires n < |newItems| && forall i, j :: 0 <= i < j < |newItems| ==> newItems[i].id != newItems[j].id
    ensures newItems[n].id in NewVersions(newItems)
    ensures NewVersions(newItems)[newItems[n].id] == ItemVersion(false, newItems[n].communistShares, newItems[n].usages)
  {
    var last := |newItems| - 1;
    if n < last {
      NewVersionAt(newItems[..last], n);
      assert newItems[n].id != newItems[last].id;
    }
  }

  lemma {:induction false} PutNone(versions: map<Id, ItemVersion>, changed: seq<ChangedItem>, i: Id)
    requires !exists j: nat :: IsChange(changed, j, i)
    ensures i in PutVersions(versions, changed) <==> i in versions
    ensures i in versions ==> PutVersions(versions, changed)[i] == versions[i]
  {
    if changed != [] {
      var n := |changed| - 1;
      assert !IsChange(changed, n, i);
      forall j: nat ensures !IsChange(changed[..n], j, i) {
        assert !IsChange(changed, j, i);
      }
      PutNone(versions, changed[..n], i);
    }
  }

  lemma {:induction false} PutLast(versions: map<Id, ItemVersion>, changed: seq<ChangedItem>, j: nat, i: Id)
    requires IsLastChange(changed, j, i)
    ensures i in PutVersions(versions, changed)
    ensures PutVersions(versions, changed)[i].deleted == changed[j].deleted
    ensures PutVersions(versions, changed)[i].communistShares == changed[j].communistShares
  {
    var n := |changed| - 1;
    if j < n {
      assert IsLastChange(changed[..n], j, i);
      PutLast(versions, changed[..n], j, i);
    }
  }

  ghost predicate ChangeUses(changed: seq<ChangedItem>, i: Id, k: Id, w: real) {
    exists j: nat :: IsChange(changed, j, i) && Uses(changed[j].usages, k, w)
  }

  ghost predicate VersionUses(versions: map<Id, ItemVersion>, i: Id, k: Id, w: real) {
    i in versions && Uses(versions[i].usages, k, w)
  }

  lemma ChangeUsesPush(changed: seq<ChangedItem>, c: ChangedItem, i: Id, k: Id, w: real)
    ensures ChangeUses(changed + [c], i, k, w) <==> ChangeUses(changed, i, k, w) || (c.id == i && Uses(c.usages, k, w))
  {
    var all := changed + [c];
    if j: nat :| IsChange(changed, j, i) && Uses(changed[j].usages, k, w) {
      assert IsChange(all, j, i) && all[j] == changed[j];
    }
    if c.id == i && Uses(c.usages, k, w) {
      assert IsChange(all, |changed|, i) && all[|changed|] == c;
    }
    if j: nat :| IsChange(all, j, i) && Uses(all[j].usages, k, w) {
      assert j < |changed| ==> IsChange(changed, j, i) && all[j] == changed[j];
    }
  }

  lemma PutVersionUses(items: map<Id, Id>, versions: map<Id, ItemVersion>, c: ChangedItem, i: Id, k: Id, w: real)
    requires PutAllowed(items, versions, c)
    ensures VersionUses(PutVersion(versions, c), i, k, w) <==>
            VersionUses(versions, i, k, w) || (c.id == i && Uses(c.usages, k, w))
  {
  }

  lemma {:induction false} PutUses(items: map<Id, Id>, versions: map<Id, ItemVersion>, changed: seq<ChangedItem>,
                                   i: Id, k: Id, w: real)
    requires PutsAllowed(items, versions, changed)
    ensures VersionUses(PutVersions(versions, changed), i, k, w) <==>
            VersionUses(versions, i, k, w) || ChangeUses(changed, i, k, w)
  {
    hide PutAllowed, PutVersion, VersionUses, PutsAllowed;
    if changed == [] {
      assert !ChangeUses([], i, k, w);
    } else {
      var n := |changed| - 1;
      PutsAllowedBefore(items, versions, changed);
      PutUses(items, versions, changed[..n], i, k, w);
      PutVersionUses(items, PutVersions(versions, changed[..n]), changed[n], i, k, w);
      ChangeUsesPush(changed[..n], changed[n], i, k, w);
      assert changed == changed[..n] + [changed[n]];
    }
  }

  lemma {:induction false} NewVersionUses(newItems: seq<NewItem>, i: Id, k: Id, w: real)
    requires forall n, m :: 0 <= n < m < |newItems| ==> newItems[n].id != newItems[m].id
    ensures VersionUses(NewVersions(newItems), i, k, w) <==>
            exists n: nat :: IsNew(newItems, n, i) && Uses(newItems[n].usages, k, w)
  {
    if VersionUses(NewVersions(newItems), i, k, w) {
      NewVersionsFrom(newItems, i);
      var n :| 0 <= n < |newItems| && newItems[n].id == i &&
        NewVersions(newItems)[i] == ItemVersion(false, newItems[n].communistShares, newItems[n].usages);
      assert IsNew(newItems, n, i);
    }
    if n: nat :| IsNew(newItems, n, i) && Uses(newItems[n].usages, k, w) {
      NewVersionAt(newItems, n);
    }
  }

  lemma {:induction false} VersionsOfWritten(newItems: seq<NewItem>, changed: seq<ChangedItem>, i: Id)
    requires forall n, m :: 0 <= n < m < |newItems| ==> newItems[n].id != newItems[m].id
    ensures i in PutVersions(NewVersions(newItems), changed) <==> Written(newItems, changed, i)
  {
    if exists j: nat :: IsChange(changed, j, i) {
      var j := LastChangeOf(changed, i);
      PutLast(NewVersions(newItems), changed, j, i);
    } else {
      PutNone(NewVersions(newItems), changed, i);
      if i in NewVersions(newItems) {
        NewVersionsFrom(newItems, i);
        var n :| 0 <= n < |newItems| && newItems[n].id == i &&
          NewVersions(newItems)[i] == ItemVersion(false, newItems[n].communistShares, newItems[n].usages);
        assert IsNew(newItems, n, i);
      }
      if n: nat :| IsNew(newItems, n, i) {
        NewVersionAt(newItems, n);
      }
    }
  }

  lemma {:induction false} LastChangeOf(changed: seq<ChangedItem>, i: Id) returns (j: nat)
    requires exists k: nat :: IsChange(changed, k, i)
    ensures IsLastChange(changed, j, i)
  {
    var n := |changed| - 1;
    var k: nat :| IsChange(changed, k, i);
    if changed[n].id == i {
      j := n;
    } else {
      assert IsChange(changed[..n], k, i);
      j := LastChangeOf(changed[..n], i);
      assert IsChange(changed, j, i);
    }
  }

  lemma {:induction false} CommitWritesItems(t: Tables, x: Id, deleted: Option<bool>, creditors: Shares, debitors: Shares,
                                             newItems: seq<NewItem>, changed: seq<ChangedItem>)
    requires FreshItems(t, newItems) && PutsAllowed(OwnItems(t.items, x, newItems), NewVersions(newItems), changed)
    ensures ItemsWritten(t, TransactionCommit(t, x, deleted, creditors, debitors, newItems, changed), x, newItems, changed)
  {
    hide PutsAllowed, PutVersions, NewVersions, OwnItems, Written, Uses;
    var after := TransactionCommit(t, x, deleted, creditors, debitors, newItems, changed);
    var versions := PutVersions(NewVersions(newItems), changed);
    forall i ensures ItemState(after.transactionRevisions, x, i) ==
                     (if i in versions then Some(versions[i]) else ItemState(t.transactionRevisions, x, i)) {
      ItemStateAfter(t.(items := after.items), TransactionRevision(x, deleted, creditors, debitors, versions), x, i);
    }
    forall i ensures i in versions <==> Written(newItems, changed, i) {
      VersionsOfWritten(newItems, changed, i);
    }
    forall n: nat, i | IsNew(newItems, n, i) && !(exists j: nat :: IsChange(changed, j, i))
      ensures i in versions && !versions[i].deleted && versions[i].communistShares == newItems[n].communistShares
    {
      NewVersionAt(newItems, n);
      PutNone(NewVersions(newItems), changed, i);
    }
    forall j: nat, i | IsLastChange(changed, j, i)
      ensures i in versions && versions[i].deleted == changed[j].deleted
      ensures versions[i].communistShares == changed[j].communistShares
    {
      PutLast(NewVersions(newItems), changed, j, i);
    }
    forall i, k, w | i in versions ensures Uses(versions[i].usages, k, w) <==> GivesUsage(newItems, changed, i, k, w) {
      PutUses(OwnItems(t.items, x, newItems), NewVersions(newItems), changed, i, k, w);
      NewVersionUses(newItems, i, k, w);
    }
    forall n: nat, i | IsNew(newItems, n, i) ensures i in after.items && after.items[i] == x {
      OwnItemsAre(t.items, x, newItems, i);
    }
  }

  lemma {:induction false} CommitKeepsOthers(t: Tables, x: Id, deleted: Option<bool>, creditors: Shares, debitors: Shares,
                                             newItems: seq<NewItem>, changed: seq<ChangedItem>)
    requires FreshItems(t, newItems)
    ensures var after := TransactionCommit(t, x, deleted, creditors, debitors, newItems, changed);
            && OtherTransactionsKept(t, after, x) && AccountsKept(t, after) && after.transactions == t.transactions
            && (deleted.Some? ==> TransactionIs(after, x, deleted.value, creditors, debitors))
            && (deleted.None? ==> TransactionState(after.transactionRevisions, x) == TransactionState(t.transactionRevisions, x))
  {
    hide PutVersions, NewVersions, OwnItems, FreshItems;
    var after := TransactionCommit(t, x, deleted, creditors, debitors, newItems, changed);
    var r := TransactionRevision(x, deleted, creditors, debitors, PutVersions(NewVersions(newItems), changed));
    forall y ensures TransactionState(after.transactionRevisions, y) ==
                     if y == x && deleted.Some? then Some(r) else TransactionState(t.transactionRevisions, y) {
      TransactionStateAfter(t.(items := after.items), r, y);
    }
    forall y, i | y != x ensures ItemState(after.transactionRevisions, y, i) == ItemState(t.transactionRevisions, y, i) {
      ItemStateAfter(t.(items := after.items), r, y, i);
    }
    ItemsGrow(t, x, newItems);
  }

  /** A created transaction is live, of its kind and group, with its shares and positions. */
  lemma {:induction false} CreatedTransaction(t: Tables, id: Id, group: GroupId, kind: TransactionKind, creditors: Shares,
                                              debitors: Shares, newItems: seq<NewItem>)
    requires var c := Command.CreateTransaction(id, group, kind, creditors, debitors, newItems);
             FreshIds(t, c) && Accepted(t, c)
    ensures var after := After(t, Command.CreateTransaction(id, group, kind, creditors, debitors, newItems));
            && id in after.transactions && after.transactions[id].group == group && after.transactions[id].kind == kind
            && TransactionIs(after, id, false, creditors, debitors)
            && ItemsWritten(t, after, id, newItems, [])
            && OtherTransactionsKept(t, after, id) && AccountsKept(t, after)
  {
    hide ItemsWritten, PutsAllowed, OwnItems, NewVersions, PutVersions, FreshItems;
    var t1 := t.(transactions := t.transactions[id := TransactionRow(group, kind)]);
    FreshInBoth(t, t1, newItems);
    CommitKeepsOthers(t1, id, Some(false), creditors, debitors, newItems, []);
    CommitWritesItems(t1, id, Some(false), creditors, debitors, newItems, []);
    SameItems(t1, t, After(t, Command.CreateTransaction(id, group, kind, creditors, debitors, newItems)), id, newItems, []);
  }

  lemma FreshInBoth(t: Tables, t1: Tables, newItems: seq<NewItem>)
    requires t1.items == t.items && FreshItems(t, newItems)
    ensures FreshItems(t1, newItems)
  {
  }

  lemma SameItems(t1: Tables, t: Tables, after: Tables, x: Id, newItems: seq<NewItem>, changed: seq<ChangedItem>)
    requires t1.transactionRevisions == t.transactionRevisions && ItemsWritten(t1, after, x, newItems, changed)
    ensures ItemsWritten(t, after, x, newItems, changed)
  {
  }

  /** An updated transaction is live, deleted before or not, with the new shares and positions. */
  lemma {:induction false} UpdatedTransaction(t: Tables, id: Id, kind: TransactionKind, creditors: Shares, debitors: Shares,
                                              newItems: seq<NewItem>, changed: seq<ChangedItem>)
    requires var c := Command.UpdateTransaction(id, kind, creditors, debitors, newItems, changed);
             FreshIds(t, c) && Accepted(t, c)
    ensures var after := After(t, Command.UpdateTransaction(id, kind, creditors, debitors, newItems, changed));
            && id in t.transactions && after.transactions == t.transactions && t.transactions[id].kind == kind
            && TransactionIs(after, id, false, creditors, debitors)
            && ItemsWritten(t, after, id, newItems, changed)
            && OtherTransactionsKept(t, after, id) && AccountsKept(t, after)
  {
    hide ItemsWritten, PutsAllowed, OwnItems, NewVersions, PutVersions, FreshItems, TransactionIs;
    CommitKeepsOthers(t, id, Some(false), creditors, debitors, newItems, changed);
    CommitWritesItems(t, id, Some(false), creditors, debitors, newItems, changed);
  }

  /** When a purchase has been committed, none of its own positions that were written is live and
      without usages and common share. */
  lemma {:induction false} CommittedItemsAreAssigned(t: Tables, id: Id, creditors: Shares, debitors: Shares,
                                                     newItems: seq<NewItem>, changed: seq<ChangedItem>, i: Id)
    requires var c := Command.UpdateTransaction(id, Purchase, creditors, debitors, newItems, changed);
             FreshIds(t, c) && Accepted(t, c)
    requires Written(newItems, changed, i)
    ensures var after := After(t, Command.UpdateTransaction(id, Purchase, creditors, debitors, newItems, changed));
            var v := ItemState(after.transactionRevisions, id, i);
            i in after.items && after.items[i] == id ==>
              v.Some? && (v.value.deleted || v.value.usages != map[] || v.value.communistShares > 0.0)
  {
    hide PutsAllowed, OwnItems, NewVersions, PutVersions, Written;
    var versions := PutVersions(NewVersions(newItems), changed);
    VersionsOfWritten(newItems, changed, i);
    ItemStateAfter(t.(items := OwnItems(t.items, id, newItems)),
                   TransactionRevision(id, Some(false), creditors, debitors, versions), id, i);
  }

  /** An update of positions changes the positions of a purchase and nothing else. */
  lemma {:induction false} UpdatedPositions(t: Tables, id: Id, changed: seq<ChangedItem>)
    requires Accepted(t, Command.UpdatePositions(id, changed))
    ensures var after := After(t, Command.UpdatePositions(id, changed));
            && id in t.transactions && after.transactions == t.transactions && t.transactions[id].kind == Purchase
            && TransactionState(after.transactionRevisions, id) == TransactionState(t.transactionRevisions, id)
            && ItemsWritten(t, after, id, [], changed)
            && OtherTransactionsKept(t, after, id) && AccountsKept(t, after)
  {
    hide ItemsWritten, PutsAllowed, OwnItems, NewVersions, PutVersions;
    CommitKeepsOthers(t, id, None, map[], map[], [], changed);
    CommitWritesItems(t, id, None, map[], map[], [], changed);
  }

  /** A deleted transaction is deleted, with the shares it had, and all positions are as before. */
  lemma {:induction false} DeletedTransaction(t: Tables, id: Id)
    requires Accepted(t, Command.DeleteTransaction(id))
    ensures var before, after := TransactionState(t.transactionRevisions, id), After(t, Command.DeleteTransaction(id));
            && before.Some? && TransactionIs(after, id, true, before.value.creditors, before.value.debitors)
            && (forall y, i :: ItemState(after.transactionRevisions, y, i) == ItemState(t.transactionRevisions, y, i))
            && after.transactions == t.transactions && after.items == t.items
            && OtherTransactionsKept(t, after, id) && AccountsKept(t, after)
  {
    hide TransactionIs, ShareRowsAllowed;
    var state := TransactionState(t.transactionRevisions, id).value;
    var after := After(t, Command.DeleteTransaction(id));
    CommitKeepsOthers(t, id, Some(true), state.creditors, state.debitors, [], []);
    forall y, i ensures ItemState(after.transactionRevisions, y, i) == ItemState(t.transactionRevisions, y, i) {
      ItemStateAfter(t, TransactionRevision(id, Some(true), state.creditors, state.debitors, map[]), y, i);
    }
  }

  /** A deleted transaction cannot be deleted again. */
  lemma {:induction false} DeletedOnce(t: Tables, id: Id)
    requires Accepted(t, Command.DeleteTransaction(id))
    ensures !Accepted(After(t, Command.DeleteTransaction(id)), Command.DeleteTransaction(id))
  {
    DeletedTransaction(t, id);
  }

  // ---------- which shares a clearing account may take ----------

  /** The shares are refused unless the account is a clearing account, all their targets are other live
      accounts of its group, and no account comes to share into itself. */
  lemma {:induction false} SharesAcceptedIff(t: Tables, a: Id, shares: Shares)
    requires RowsWithinGroups(t) && Acyclic(ShareRows(t.accountRevisions)) && a in t.accounts
    ensures SharesAccepted(t, a, shares) <==>
            && (shares == map[] || t.accounts[a].clearing)
            && (forall k :: k in shares && shares[k] != 0.0 ==> k != a && LiveIn(t, t.accounts[a].group, k))
            && Acyclic(ShareRows(AccountCommit(t, a, false, shares).accountRevisions))
  {
    hide CycleReported, Acyclic;
    var after := AccountCommit(t, a, false, shares);
    var revision := AccountRevision(a, Some(false), NonZero(shares));
    ShareRowsAfter(t, revision);
    forall k ensures LiveIn(after, t.accounts[a].group, k) <==> k == a || LiveIn(t, t.accounts[a].group, k) {
      AccountStateAfter(t, revision, k);
    }
    if AllLiveIn(after, t.accounts[a].group, NonZero(shares).Keys) {
      TargetsInGroup(t, a, shares);
      ReportedIffCyclic(ShareRows(t.accountRevisions), after, a, NonZero(shares).Keys);
      if a in NonZero(shares) {
        SelfShareIsCycle(ShareRows(after.accountRevisions), a);
      }
    }
    assert forall k :: k in shares && shares[k] != 0.0 <==> k in NonZero(shares).Keys;
  }

  lemma TargetsInGroup(t: Tables, a: Id, shares: Shares)
    requires RowsWithinGroups(t) && a in t.accounts
    requires AllLiveIn(AccountCommit(t, a, false, shares), t.accounts[a].group, NonZero(shares).Keys)
    ensures RowsWithinGroups(AccountCommit(t, a, false, shares))
    ensures forall s :: s in NonZero(shares).Keys ==> SameGroup(AccountCommit(t, a, false, shares), a, s)
  {
    var after := AccountCommit(t, a, false, shares);
    ShareRowsAfter(t, AccountRevision(a, Some(false), NonZero(shares)));
    forall s | s in NonZero(shares).Keys ensures SameGroup(after, a, s) {
      assert LiveIn(after, t.accounts[a].group, s);
    }
  }

  lemma SelfShareIsCycle(rows: ShareMap, a: Id)
    requires Edge(rows, a, a)
    ensures !Acyclic(rows)
  {
    ReachesByEdge(rows, a, a);
    assert OnCycle(rows, a);
  }

  // ---------- only clearing accounts share ----------

  /** Only clearing accounts have ever shared anything. */
  ghost predicate OnlyClearingShares(t: Tables) {
    forall c, a :: Edge(ShareRows(t.accountRevisions), c, a) ==> c in t.accounts && t.accounts[c].clearing
  }

  lemma AccountCommitClearing(t: Tables, a: Id, deleted: bool, shares: Shares)
    requires OnlyClearingShares(t) && a in t.accounts
    requires !deleted ==> SharesAccepted(t, a, shares)
    requires deleted ==> shares == map[]
    ensures OnlyClearingShares(AccountCommit(t, a, deleted, shares))
  {
    hide CycleReported, AllLiveIn;
    var after := AccountCommit(t, a, deleted, shares);
    ShareRowsAfter(t, AccountRevision(a, Some(deleted), NonZero(shares)));
    forall c, b | Edge(ShareRows(after.accountRevisions), c, b) ensures c in after.accounts && after.accounts[c].clearing {
      assert Edge(ShareRows(t.accountRevisions), c, b) || (c == a && b in shares);
    }
  }

  lemma {:induction false} CommandKeepsSharers(t: Tables, c: Command)
    requires OnlyClearingShares(t) && FreshIds(t, c) && Accepted(t, c)
    ensures OnlyClearingShares(After(t, c))
  {
    hide CycleReported, AllLiveIn, TransactionAccepted, Unreferenced;
    match c
    case CreateAccount(id, group, clearing, shares) =>
      assert OnlyClearingShares(AddAccountRow(t, id, AccountRow(group, clearing)));
      AccountCommitClearing(AddAccountRow(t, id, AccountRow(group, clearing)), id, false, shares);
    case UpdateAccount(id, shares) => AccountCommitClearing(t, id, false, shares);
    case DeleteAccount(id) => AccountCommitClearing(t, id, true, map[]);
    case _ =>
  }

  /** In no reachable state has an account of another type ever had a share row. */
  lemma {:induction false} EverySharerIsClearing(commands: seq<Command>)
    ensures OnlyClearingShares(Run(EMPTY, commands))
  {
    hide Accepted, FreshIds, After, OnlyClearingShares;
    if commands == [] {
      NobodyShares();
    } else {
      var before, c := Run(EMPTY, commands[..|commands| - 1]), commands[|commands| - 1];
      EverySharerIsClearing(commands[..|commands| - 1]);
      if FreshIds(before, c) && Accepted(before, c) {
        CommandKeepsSharers(before, c);
      }
    }
  }

  lemma NobodyShares()
    ensures OnlyClearingShares(EMPTY)
  {
  }
}
