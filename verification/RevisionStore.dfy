/** The account and transaction services as one store (abrechnung/application/accounts.py and
    transactions.py).  Each service call is one database transaction: it succeeds, or it raises
    and is rolled back.  Ids handed out by database sequences are parameters. */
module RevisionStore {
  import opened Wrappers
  import opened Sums
  import opened TransactionEffects
  import opened ClearingGraph
  import opened RevisionTables

  datatype StoreError = NotFound | InvalidCommand | ConstraintViolation

  datatype NewItem = NewItem(id: Id, communistShares: real, usages: Shares)

  datatype ChangedItem = ChangedItem(id: Id, deleted: bool, communistShares: real, usages: Shares)

  datatype Command =
    | CreateAccount(id: Id, group: GroupId, clearing: bool, shares: Shares)
    | UpdateAccount(id: Id, shares: Shares)
    | DeleteAccount(id: Id)
    | CreateTransaction(id: Id, group: GroupId, kind: TransactionKind, creditors: Shares, debitors: Shares,
                        newItems: seq<NewItem>)
    | UpdateTransaction(id: Id, kind: TransactionKind, creditors: Shares, debitors: Shares,
                        newItems: seq<NewItem>, changed: seq<ChangedItem>)
    | UpdatePositions(id: Id, changed: seq<ChangedItem>)
    | DeleteTransaction(id: Id)

  // ---------- what each command does ----------

  function NonZero(shares: Shares): Shares {
    map k | k in shares && shares[k] != 0.0 :: shares[k]
  }

  ghost function AccountCommit(t: Tables, a: Id, deleted: bool, shares: Shares): Tables {
    AddAccountRevision(t, AccountRevision(a, Some(deleted), NonZero(shares)))
  }

  /** A clearing account may take the given shares: all targets are live once the account itself
      is, and the query of the cycle constraint reports nothing. */
  ghost predicate SharesAccepted(t: Tables, a: Id, shares: Shares)
    requires a in t.accounts
  {
    var after := AccountCommit(t, a, false, shares);
    && (shares == map[] || t.accounts[a].clearing)
    && AllLiveIn(after, t.accounts[a].group, NonZero(shares).Keys)
    && !CycleReported(GroupRows(after, t.accounts[a].group), NonZero(shares).Keys)
  }

  ghost function AddAccountRow(t: Tables, a: Id, row: AccountRow): Tables {
    t.(accounts := t.accounts[a := row])
  }

  function OwnItems(items: map<Id, Id>, x: Id, newItems: seq<NewItem>): map<Id, Id> {
    if newItems == [] then items
    else OwnItems(items, x, newItems[..|newItems| - 1])[newItems[|newItems| - 1].id := x]
  }

  function NewVersions(newItems: seq<NewItem>): map<Id, ItemVersion> {
    if newItems == [] then map[]
    else
      var last := newItems[|newItems| - 1];
      NewVersions(newItems[..|newItems| - 1])[last.id := ItemVersion(false, last.communistShares, last.usages)]
  }

  /** Writing the same item twice in one revision replaces its history row and adds its usages. */
  function PutVersion(versions: map<Id, ItemVersion>, c: ChangedItem): map<Id, ItemVersion> {
    versions[c.id := ItemVersion(c.deleted, c.communistShares,
                                 (if c.id in versions then versions[c.id].usages else map[]) + c.usages)]
  }

  function PutVersions(versions: map<Id, ItemVersion>, changed: seq<ChangedItem>): map<Id, ItemVersion> {
    if changed == [] then versions
    else PutVersion(PutVersions(versions, changed[..|changed| - 1]), changed[|changed| - 1])
  }

  predicate PutAllowed(items: map<Id, Id>, versions: map<Id, ItemVersion>, c: ChangedItem) {
    c.id in items && (c.id in versions ==> versions[c.id].usages.Keys !! c.usages.Keys)
  }

  /** Every written item exists, and no usage is written twice in one revision. */
  ghost predicate PutsAllowed(items: map<Id, Id>, versions: map<Id, ItemVersion>, changed: seq<ChangedItem>) {
    forall i :: 0 <= i < |changed| ==> PutAllowed(items, PutVersions(versions, changed[..i]), changed[i])
  }

  /** The usages of an item go to live accounts, and its rows obey the constraints. */
  ghost predicate ItemAccepted(t: Tables, group: GroupId, communistShares: real, usages: Shares) {
    AllLiveIn(t, group, usages.Keys) && ItemRowsAllowed(communistShares, usages)
  }

  ghost predicate ItemsAccepted(t: Tables, group: GroupId, newItems: seq<NewItem>, changed: seq<ChangedItem>) {
    && (forall i :: 0 <= i < |newItems| ==> ItemAccepted(t, group, newItems[i].communistShares, newItems[i].usages))
    && (forall i :: 0 <= i < |changed| ==> ItemAccepted(t, group, changed[i].communistShares, changed[i].usages))
  }

  ghost function TransactionCommit(t: Tables, x: Id, deleted: Option<bool>, creditors: Shares, debitors: Shares,
                                   newItems: seq<NewItem>, changed: seq<ChangedItem>): Tables
  {
    AddTransactionRevision(t.(items := OwnItems(t.items, x, newItems)),
                           TransactionRevision(x, deleted, creditors, debitors,
                                               PutVersions(NewVersions(newItems), changed)))
  }

  /** The checks of the service and the constraints on the rows it writes; those on the whole
      revision are only checked when it is committed. */
  ghost predicate TransactionAccepted(t: Tables, x: Id, row: TransactionRow, committed: bool, creditors: Shares,
                                      debitors: Shares, newItems: seq<NewItem>, changed: seq<ChangedItem>)
  {
    && AllLiveIn(t, row.group, debitors.Keys)
    && AllLiveIn(t, row.group, creditors.Keys)
    && ShareRowsAllowed(row.kind, creditors, debitors)
    && ItemsAccepted(t, row.group, newItems, changed)
    && PutsAllowed(OwnItems(t.items, x, newItems), NewVersions(newItems), changed)
    && (committed ==> CommitAllowed(OwnItems(t.items, x, newItems), x, row.kind, creditors, debitors,
                                    PutVersions(NewVersions(newItems), changed)))
  }

  /** Database sequences hand out ids that are not in use. */
  ghost predicate FreshIds(t: Tables, c: Command) {
    match c
    case CreateAccount(id, _, _, _) => id !in t.accounts
    case CreateTransaction(id, _, _, _, _, newItems) => id !in t.transactions && FreshItems(t, newItems)
    case UpdateTransaction(_, _, _, _, newItems, _) => FreshItems(t, newItems)
    case _ => true
  }

  ghost predicate FreshItems(t: Tables, newItems: seq<NewItem>) {
    && (forall i :: 0 <= i < |newItems| ==> newItems[i].id !in t.items)
    && (forall i, j :: 0 <= i < j < |newItems| ==> newItems[i].id != newItems[j].id)
  }

  /** The calls that do not raise. */
  ghost predicate Accepted(t: Tables, c: Command) {
    match c
    case CreateAccount(id, group, clearing, shares) =>
      SharesAccepted(AddAccountRow(t, id, AccountRow(group, clearing)), id, shares)
    case UpdateAccount(id, shares) => id in t.accounts && SharesAccepted(t, id, shares)
    case DeleteAccount(id) =>
      IsLive(t, id) && Unreferenced(t, id)
    case CreateTransaction(id, group, kind, creditors, debitors, newItems) =>
      TransactionAccepted(t, id, TransactionRow(group, kind), true, creditors, debitors, newItems, [])
    case UpdateTransaction(id, kind, creditors, debitors, newItems, changed) =>
      && id in t.transactions && t.transactions[id].kind == kind
      && TransactionAccepted(t, id, t.transactions[id], true, creditors, debitors, newItems, changed)
    case UpdatePositions(id, changed) =>
      && id in t.transactions && t.transactions[id].kind == Purchase
      && TransactionAccepted(t, id, t.transactions[id], false, map[], map[], [], changed)
    case DeleteTransaction(id) =>
      var state := TransactionState(t.transactionRevisions, id);
      && id in t.transactions && state.Some? && !state.value.deleted.value
      && ShareRowsAllowed(t.transactions[id].kind, state.value.creditors, state.value.debitors)
  }

  ghost function After(t: Tables, c: Command): Tables {
    match c
    case CreateAccount(id, group, clearing, shares) =>
      AccountCommit(AddAccountRow(t, id, AccountRow(group, clearing)), id, false, shares)
    case UpdateAccount(id, shares) => AccountCommit(t, id, false, shares)
    case DeleteAccount(id) => AccountCommit(t, id, true, map[])
    case CreateTransaction(id, group, kind, creditors, debitors, newItems) =>
      TransactionCommit(t.(transactions := t.transactions[id := TransactionRow(group, kind)]),
                        id, Some(false), creditors, debitors, newItems, [])
    case UpdateTransaction(id, _, creditors, debitors, newItems, changed) =>
      TransactionCommit(t, id, Some(false), creditors, debitors, newItems, changed)
    case UpdatePositions(id, changed) => TransactionCommit(t, id, None, map[], map[], [], changed)
    case DeleteTransaction(id) =>
      var state := TransactionState(t.transactionRevisions, id);
      if state.None? then t
      else TransactionCommit(t, id, Some(true), state.value.creditors, state.value.debitors, [], [])
  }

  // ---------- every accepted command keeps the state consistent ----------

  lemma {:induction false} AccountCommitKeeps(t: Tables, a: Id, deleted: bool, shares: Shares)
    requires Consistent(t) && a in t.accounts
    requires !deleted ==> SharesAccepted(t, a, shares)
    requires deleted ==> shares == map[] && Unreferenced(t, a)
    ensures Consistent(AccountCommit(t, a, deleted, shares))
  {
    var r := AccountRevision(a, Some(deleted), NonZero(shares));
    var after := AccountCommit(t, a, deleted, shares);
    forall b ensures AccountState(after.accountRevisions, b) ==
                     if b == a then Some(r) else AccountState(t.accountRevisions, b) {
      AccountStateAfter(t, r, b);
    }
    AccountCommitReferences(t, a, deleted, shares);
    AccountCommitRows(t, a, deleted, shares);
    forall x ensures SharesObey(after, x) { assert SharesObey(t, x); }
    forall x, item ensures ItemObeys(after, x, item) { assert ItemObeys(t, x, item); }
  }

  lemma {:induction false} AccountCommitReferences(t: Tables, a: Id, deleted: bool, shares: Shares)
    requires Integrity(t) && a in t.accounts
    requires !deleted ==> SharesAccepted(t, a, shares)
    requires deleted ==> shares == map[] && Unreferenced(t, a)
    ensures Integrity(AccountCommit(t, a, deleted, shares))
  {
    hide CycleReported;
    var r := AccountRevision(a, Some(deleted), NonZero(shares));
    var after := AccountCommit(t, a, deleted, shares);
    forall b ensures AccountState(after.accountRevisions, b) ==
                     if b == a then Some(r) else AccountState(t.accountRevisions, b) {
      AccountStateAfter(t, r, b);
    }
    forall x ensures TransactionReferences(after, x) { assert TransactionReferences(t, x); }
    forall b ensures AccountReferences(after, b) { assert AccountReferences(t, b); }
    forall item ensures ItemReferences(after, item) { assert ItemReferences(t, item); }
  }

  /** The new share rows stay within the group and close no cycle. */
  lemma {:induction false} AccountCommitRows(t: Tables, a: Id, deleted: bool, shares: Shares)
    requires RowsWithinGroups(t) && Acyclic(ShareRows(t.accountRevisions)) && a in t.accounts
    requires !deleted ==> SharesAccepted(t, a, shares)
    requires deleted ==> shares == map[]
    ensures var after := AccountCommit(t, a, deleted, shares);
            RowsWithinGroups(after) && Acyclic(ShareRows(after.accountRevisions))
  {
    hide CycleReported, Acyclic;
    var after := AccountCommit(t, a, deleted, shares);
    ShareRowsAfter(t, AccountRevision(a, Some(deleted), NonZero(shares)));
    forall s | s in NonZero(shares).Keys ensures SameGroup(after, a, s) {
      assert LiveIn(after, t.accounts[a].group, s);
    }
    NoStartsNoReport(GroupRows(after, t.accounts[a].group));
    assert deleted ==> NonZero(shares).Keys == {};
    ReportedIffCyclic(ShareRows(t.accountRevisions), after, a, NonZero(shares).Keys);
  }

  lemma NoNewEdges(g: ShareMap, h: ShareMap)
    requires Acyclic(g) && forall c, a :: Edge(h, c, a) ==> Edge(g, c, a)
    ensures Acyclic(h)
  {
    forall y ensures !OnCycle(h, y) {
      if OnCycle(h, y) {
        var p :| PathBetween(h, p, y, y);
        assert PathBetween(g, p, y, y);
        assert OnCycle(g, y);
      }
    }
  }

  lemma AccountRowKeeps(t: Tables, a: Id, row: AccountRow)
    requires Consistent(t) && a !in t.accounts
    ensures Consistent(AddAccountRow(t, a, row))
  {
    hide ShareRows, AccountState, TransactionState, ItemState, OnCycle;
    var after := AddAccountRow(t, a, row);
    forall x ensures TransactionReferences(after, x) { assert TransactionReferences(t, x); }
    forall b ensures AccountReferences(after, b) { assert AccountReferences(t, b); }
    forall item ensures ItemReferences(after, item) { assert ItemReferences(t, item); }
    forall x ensures SharesObey(after, x) { assert SharesObey(t, x); }
    forall x, item ensures ItemObeys(after, x, item) { assert ItemObeys(t, x, item); }
    forall c, b | Edge(ShareRows(t.accountRevisions), c, b) ensures SameGroup(after, c, b) {
      assert SameGroup(t, c, b);
    }
  }

  lemma {:induction false} OwnItemsAre(items: map<Id, Id>, x: Id, newItems: seq<NewItem>, i: Id)
    ensures (exists k :: 0 <= k < |newItems| && newItems[k].id == i) ==>
              i in OwnItems(items, x, newItems) && OwnItems(items, x, newItems)[i] == x
    ensures !(exists k :: 0 <= k < |newItems| && newItems[k].id == i) ==>
              && (i in OwnItems(items, x, newItems) <==> i in items)
              && (i in items ==> OwnItems(items, x, newItems)[i] == items[i])
  {
    if newItems != [] {
      var n := |newItems| - 1;
      OwnItemsAre(items, x, newItems[..n], i);
      if k :| 0 <= k < |newItems| && newItems[k].id == i && i != newItems[n].id {
        assert newItems[..n][k].id == i;
      }
      if k :| 0 <= k < n && newItems[..n][k].id == i {
        assert newItems[k].id == i;
      }
    }
  }

  /** A version of a new item is that of one of the given new items ... */
  lemma {:induction false} NewVersionsFrom(newItems: seq<NewItem>, i: Id)
    requires i in NewVersions(newItems)
    ensures exists k :: 0 <= k < |newItems| && newItems[k].id == i &&
              NewVersions(newItems)[i] == ItemVersion(false, newItems[k].communistShares, newItems[k].usages)
  {
    var n := |newItems| - 1;
    if newItems[n].id != i {
      NewVersionsFrom(newItems[..n], i);
      var k :| 0 <= k < n && newItems[..n][k].id == i &&
        NewVersions(newItems[..n])[i] == ItemVersion(false, newItems[..n][k].communistShares, newItems[..n][k].usages);
      assert newItems[k] == newItems[..n][k];
    }
  }

  /** Every version belongs to an existing item, uses live accounts and obeys the constraints. */
  ghost predicate VersionsAccepted(t: Tables, group: GroupId, items: map<Id, Id>, versions: map<Id, ItemVersion>) {
    forall i :: i in versions ==>
                  i in items && ItemAccepted(t, group, versions[i].communistShares, versions[i].usages)
  }

  lemma VersionPut(t: Tables, group: GroupId, items: map<Id, Id>, versions: map<Id, ItemVersion>, c: ChangedItem)
    requires VersionsAccepted(t, group, items, versions) && PutAllowed(items, versions, c)
    requires ItemAccepted(t, group, c.communistShares, c.usages)
    ensures VersionsAccepted(t, group, items, PutVersion(versions, c))
  {
    hide LiveIn;
  }

  lemma PutsAllowedBefore(items: map<Id, Id>, versions: map<Id, ItemVersion>, changed: seq<ChangedItem>)
    requires PutsAllowed(items, versions, changed) && changed != []
    ensures var n := |changed| - 1;
            PutsAllowed(items, versions, changed[..n]) && PutAllowed(items, PutVersions(versions, changed[..n]), changed[n])
  {
    hide PutAllowed, PutVersions;
    var n := |changed| - 1;
    forall k | 0 <= k < n ensures PutAllowed(items, PutVersions(versions, changed[..n][..k]), changed[..n][k]) {
      assert changed[..n][..k] == changed[..k];
    }
  }

  /** ... and putting changed versions only adds usages of the given changes. */
  lemma {:induction false} VersionsUse(t: Tables, group: GroupId, items: map<Id, Id>, versions: map<Id, ItemVersion>,
                                       changed: seq<ChangedItem>)
    requires VersionsAccepted(t, group, items, versions)
    requires forall k :: 0 <= k < |changed| ==> ItemAccepted(t, group, changed[k].communistShares, changed[k].usages)
    requires PutsAllowed(items, versions, changed)
    ensures VersionsAccepted(t, group, items, PutVersions(versions, changed))
  {
    hide VersionsAccepted, ItemAccepted, PutAllowed, PutsAllowed, PutVersion;
    if changed != [] {
      var n := |changed| - 1;
      PutsAllowedBefore(items, versions, changed);
      VersionsUse(t, group, items, versions, changed[..n]);
      VersionPut(t, group, items, PutVersions(versions, changed[..n]), changed[n]);
    }
  }

  lemma {:induction false} VersionsWritten(t: Tables, x: Id, group: GroupId, newItems: seq<NewItem>,
                                           changed: seq<ChangedItem>)
    requires ItemsAccepted(t, group, newItems, changed)
    requires PutsAllowed(OwnItems(t.items, x, newItems), NewVersions(newItems), changed)
    ensures VersionsAccepted(t, group, OwnItems(t.items, x, newItems), PutVersions(NewVersions(newItems), changed))
  {
    var items := OwnItems(t.items, x, newItems);
    forall i | i in NewVersions(newItems)
      ensures i in items
      ensures ItemAccepted(t, group, NewVersions(newItems)[i].communistShares, NewVersions(newItems)[i].usages)
    {
      NewVersionsFrom(newItems, i);
      OwnItemsAre(t.items, x, newItems, i);
    }
    VersionsUse(t, group, items, NewVersions(newItems), changed);
  }

  /** What a revision of transaction `x` must satisfy to keep the state consistent. */
  ghost predicate RevisionAllowed(t: Tables, x: Id, deleted: Option<bool>, creditors: Shares, debitors: Shares)
    requires x in t.transactions
  {
    var row := t.transactions[x];
    && ShareRowsAllowed(row.kind, creditors, debitors)
    && (deleted == Some(false) ==>
          && AllLiveIn(t, row.group, creditors.Keys + debitors.Keys)
          && SharesComplete(row.kind, creditors, debitors))
  }

  lemma {:induction false} TransactionCommitKeeps(t: Tables, x: Id, deleted: Option<bool>, creditors: Shares,
                                                  debitors: Shares, newItems: seq<NewItem>, changed: seq<ChangedItem>)
    requires Consistent(t) && x in t.transactions && FreshItems(t, newItems)
    requires RevisionAllowed(t, x, deleted, creditors, debitors)
    requires ItemsAccepted(t, t.transactions[x].group, newItems, changed)
    requires PutsAllowed(OwnItems(t.items, x, newItems), NewVersions(newItems), changed)
    ensures Consistent(TransactionCommit(t, x, deleted, creditors, debitors, newItems, changed))
  {
    hide ItemsAccepted, PutsAllowed, VersionsAccepted, FreshItems, RevisionAllowed, Extends, Acyclic, RowsWithinGroups;
    hide TransactionReferences, SharesObey, AccountReferences, ItemReferences, ItemObeys;
    var items := OwnItems(t.items, x, newItems);
    var r := TransactionRevision(x, deleted, creditors, debitors, PutVersions(NewVersions(newItems), changed));
    VersionsWritten(t, x, t.transactions[x].group, newItems, changed);
    ItemsGrow(t, x, newItems);
    RevisionKeepsStates(t, items, r);
    RevisionKeepsItems(t, items, r);
    RevisionKeepsRows(t, items, r);
    assert TransactionCommit(t, x, deleted, creditors, debitors, newItems, changed) == WithRevision(t, items, r);
  }

  /** `items` extends the items of `t` by new ones of transaction `x`. */
  ghost predicate Extends(t: Tables, x: Id, items: map<Id, Id>) {
    && (forall i :: i in t.items ==> i in items && items[i] == t.items[i])
    && (forall i :: i in items && i !in t.items ==> items[i] == x)
  }

  lemma {:induction false} ItemsGrow(t: Tables, x: Id, newItems: seq<NewItem>)
    requires FreshItems(t, newItems)
    ensures Extends(t, x, OwnItems(t.items, x, newItems))
  {
    forall i
      ensures i in t.items ==> i in OwnItems(t.items, x, newItems) && OwnItems(t.items, x, newItems)[i] == t.items[i]
      ensures i in OwnItems(t.items, x, newItems) && i !in t.items ==> OwnItems(t.items, x, newItems)[i] == x
    {
      OwnItemsAre(t.items, x, newItems, i);
    }
  }

  /** The tables after revision `r`, with `items` as purchase_item. */
  ghost function WithRevision(t: Tables, items: map<Id, Id>, r: TransactionRevision): Tables {
    AddTransactionRevision(t.(items := items), r)
  }

  lemma {:induction false} RevisionKeepsStates(t: Tables, items: map<Id, Id>, r: TransactionRevision)
    requires Consistent(t) && r.transaction in t.transactions
    requires RevisionAllowed(t, r.transaction, r.deleted, r.creditors, r.debitors)
    ensures var after := WithRevision(t, items, r);
            && (forall x :: TransactionReferences(after, x) && SharesObey(after, x))
            && (forall a :: AccountReferences(after, a))
            && (forall x :: x in after.transactions || TransactionState(after.transactionRevisions, x).None?)
  {
    hide ShareRowsAllowed, SharesComplete, ItemState, ShareRows;
    var after := WithRevision(t, items, r);
    forall x ensures TransactionReferences(after, x) && SharesObey(after, x)
             ensures x in after.transactions || TransactionState(after.transactionRevisions, x).None? {
      TransactionStateAfter(t.(items := items), r, x);
      assert TransactionReferences(t, x) && SharesObey(t, x);
    }
    forall a ensures AccountReferences(after, a) { assert AccountReferences(t, a); }
  }

  lemma RevisionKeepsRows(t: Tables, items: map<Id, Id>, r: TransactionRevision)
    requires Consistent(t)
    ensures RowsWithinGroups(WithRevision(t, items, r))
    ensures Acyclic(ShareRows(WithRevision(t, items, r).accountRevisions))
    ensures forall a :: a in t.accounts || AccountState(t.accountRevisions, a).None?
  {
    hide Acyclic;
    forall c, b | Edge(ShareRows(t.accountRevisions), c, b) ensures SameGroup(WithRevision(t, items, r), c, b) {
      assert SameGroup(t, c, b);
    }
  }

  lemma {:induction false} RevisionKeepsItems(t: Tables, items: map<Id, Id>, r: TransactionRevision)
    requires Consistent(t) && r.transaction in t.transactions && Extends(t, r.transaction, items)
    requires VersionsAccepted(t, t.transactions[r.transaction].group, items, r.items)
    ensures var after := WithRevision(t, items, r);
            && (forall item :: ItemReferences(after, item))
            && (forall x, item :: ItemObeys(after, x, item))
            && (forall item, x :: item in after.items || ItemState(after.transactionRevisions, x, item).None?)
  {
    hide ItemRowsAllowed, TransactionState, ShareRows;
    var after := WithRevision(t, items, r);
    forall x, i
      ensures ItemObeys(after, x, i)
      ensures i in after.items || ItemState(after.transactionRevisions, x, i).None?
    {
      ItemStateAfter(t.(items := items), r, x, i);
      assert ItemObeys(t, x, i);
      assert i in t.items || ItemState(t.transactionRevisions, x, i).None?;
    }
    forall i ensures ItemReferences(after, i) {
      if i in after.items {
        ItemStateAfter(t.(items := items), r, after.items[i], i);
        assert ItemReferences(t, i);
        assert i in t.items || ItemState(t.transactionRevisions, after.items[i], i).None?;
      }
    }
  }

  lemma TransactionRowKeeps(t: Tables, x: Id, row: TransactionRow)
    requires Consistent(t) && x !in t.transactions
    ensures Consistent(t.(transactions := t.transactions[x := row]))
  {
    hide ShareRows, AccountState, TransactionState, ItemState, OnCycle;
    var after := t.(transactions := t.transactions[x := row]);
    forall y ensures TransactionReferences(after, y) && SharesObey(after, y) {
      assert TransactionReferences(t, y) && SharesObey(t, y);
    }
    forall b ensures AccountReferences(after, b) { assert AccountReferences(t, b); }
    forall item ensures ItemReferences(after, item) { assert ItemReferences(t, item); }
    forall y, item ensures ItemObeys(after, y, item) { assert ItemObeys(t, y, item); }
    forall c, b | Edge(ShareRows(t.accountRevisions), c, b) ensures SameGroup(after, c, b) {
      assert SameGroup(t, c, b);
    }
  }

  /** Which accounts are live does not depend on transactions and items. */
  lemma SameAccounts(t: Tables, t1: Tables, group: GroupId)
    requires t1.accounts == t.accounts && t1.accountRevisions == t.accountRevisions
    ensures forall keys: set<Id> :: AllLiveIn(t1, group, keys) <==> AllLiveIn(t, group, keys)
    ensures forall communistShares: real, usages: Shares ::
              ItemAccepted(t1, group, communistShares, usages) <==> ItemAccepted(t, group, communistShares, usages)
  {
    forall k ensures LiveIn(t, group, k) <==> LiveIn(t1, group, k) {
    }
  }

  lemma {:induction false} CreateTransactionKeeps(t: Tables, x: Id, row: TransactionRow, creditors: Shares,
                                                  debitors: Shares, newItems: seq<NewItem>)
    requires Consistent(t) && x !in t.transactions && FreshItems(t, newItems)
    requires TransactionAccepted(t, x, row, true, creditors, debitors, newItems, [])
    ensures Consistent(TransactionCommit(t.(transactions := t.transactions[x := row]), x, Some(false), creditors,
                                         debitors, newItems, []))
  {
    hide Consistent, ItemAccepted, PutsAllowed, ShareRowsAllowed, SharesComplete, LiveIn;
    var t1 := t.(transactions := t.transactions[x := row]);
    TransactionRowKeeps(t, x, row);
    SameAccounts(t, t1, row.group);
    TransactionCommitKeeps(t1, x, Some(false), creditors, debitors, newItems, []);
  }

  /** Every accepted command leads from a consistent state to a consistent state. */
  lemma {:induction false} CommandKeepsConsistency(t: Tables, c: Command)
    requires Consistent(t) && FreshIds(t, c) && Accepted(t, c)
    ensures Consistent(After(t, c))
  {
    hide Consistent, ItemAccepted, ShareRowsAllowed, SharesComplete, LiveIn, CycleReported, OwnItems;
    match c
    case CreateAccount(id, group, clearing, shares) =>
      AccountRowKeeps(t, id, AccountRow(group, clearing));
      AccountCommitKeeps(AddAccountRow(t, id, AccountRow(group, clearing)), id, false, shares);
    case UpdateAccount(id, shares) => AccountCommitKeeps(t, id, false, shares);
    case DeleteAccount(id) => AccountCommitKeeps(t, id, true, map[]);
    case CreateTransaction(id, group, kind, creditors, debitors, newItems) =>
      CreateTransactionKeeps(t, id, TransactionRow(group, kind), creditors, debitors, newItems);
    case UpdateTransaction(id, _, creditors, debitors, newItems, changed) =>
      TransactionCommitKeeps(t, id, Some(false), creditors, debitors, newItems, changed);
    case UpdatePositions(id, changed) => TransactionCommitKeeps(t, id, None, map[], map[], [], changed);
    case DeleteTransaction(id) =>
      var state := TransactionState(t.transactionRevisions, id).value;
      TransactionCommitKeeps(t, id, Some(true), state.creditors, state.debitors, [], []);
  }

  /** In a consistent state nothing but the service's own checks refuses a deletion: the copied share
      rows obey the constraints. */
  lemma DeletionIsAccepted(t: Tables, x: Id)
    requires Consistent(t) && x in t.transactions
    ensures Accepted(t, DeleteTransaction(x)) <==>
            var state := TransactionState(t.transactionRevisions, x); state.Some? && !state.value.deleted.value
  {
    hide ShareRowsAllowed;
    assert SharesObey(t, x);
  }

  /** The state after a list of service calls, rejected ones included. */
  ghost function Run(t: Tables, commands: seq<Command>): Tables {
    if commands == [] then t
    else
      var before := Run(t, commands[..|commands| - 1]);
      var c := commands[|commands| - 1];
      if FreshIds(before, c) && Accepted(before, c) then After(before, c) else before
  }

  lemma {:induction false} EveryReachableStateIsConsistent(commands: seq<Command>)
    ensures Consistent(Run(EMPTY, commands))
  {
    if commands == [] {
      EmptyIsConsistent();
    } else {
      var before := Run(EMPTY, commands[..|commands| - 1]);
      EveryReachableStateIsConsistent(commands[..|commands| - 1]);
      if FreshIds(before, commands[|commands| - 1]) && Accepted(before, commands[|commands| - 1]) {
        CommandKeepsConsistency(before, commands[|commands| - 1]);
      }
    }
  }
}
