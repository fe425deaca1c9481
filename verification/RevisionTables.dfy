/** The tables behind the account and transaction services: every change appends a revision, and the
    current state of an entity is its latest revision that has a history row
    (abrechnung/database/code/0001_views.sql and 0004_functions.sql). */
module RevisionTables {
  import opened Wrappers
  import opened Sums
  import opened TransactionEffects
  import opened ClearingGraph

  type GroupId = int

  datatype AccountRow = AccountRow(group: GroupId, clearing: bool)

  datatype TransactionKind = Mimo | Purchase | Transfer

  datatype TransactionRow = TransactionRow(group: GroupId, kind: TransactionKind)

  /** A row of account_revision with its rows in account_history (the deleted flag) and
      clearing_account_share. */
  datatype AccountRevision = AccountRevision(account: Id, deleted: Option<bool>, shares: Shares)

  /** A row of purchase_item_history with its rows in purchase_item_usage. */
  datatype ItemVersion = ItemVersion(deleted: bool, communistShares: real, usages: Shares)

  /** A row of transaction_revision with its rows in transaction_history (the deleted flag),
      creditor_share, debitor_share and the tables of purchase items. */
  datatype TransactionRevision = TransactionRevision(
    transaction: Id,
    deleted: Option<bool>,
    creditors: Shares,
    debitors: Shares,
    items: map<Id, ItemVersion>)

  /** Revisions are listed in the order of their creation; `items` is purchase_item. */
  datatype Tables = Tables(
    accounts: map<Id, AccountRow>,
    accountRevisions: seq<AccountRevision>,
    transactions: map<Id, TransactionRow>,
    transactionRevisions: seq<TransactionRevision>,
    items: map<Id, Id>)

  // ---------- the views of the current state ----------

  /** account_state_valid_at() */
  function AccountState(revisions: seq<AccountRevision>, a: Id): (r: Option<AccountRevision>)
    ensures r.Some? ==> r.value.account == a && r.value.deleted.Some?
  {
    if revisions == [] then None
    else
      var last := revisions[|revisions| - 1];
      if last.account == a && last.deleted.Some? then Some(last)
      else AccountState(revisions[..|revisions| - 1], a)
  }

  /** transaction_state_valid_at() */
  function TransactionState(revisions: seq<TransactionRevision>, x: Id): (r: Option<TransactionRevision>)
    ensures r.Some? ==> r.value.transaction == x && r.value.deleted.Some?
  {
    if revisions == [] then None
    else
      var last := revisions[|revisions| - 1];
      if last.transaction == x && last.deleted.Some? then Some(last)
      else TransactionState(revisions[..|revisions| - 1], x)
  }

  /** transaction_position_state_valid_at(): only revisions of the item's own transaction count. */
  function ItemState(revisions: seq<TransactionRevision>, x: Id, item: Id): Option<ItemVersion> {
    if revisions == [] then None
    else
      var last := revisions[|revisions| - 1];
      if last.transaction == x && item in last.items then Some(last.items[item])
      else ItemState(revisions[..|revisions| - 1], x, item)
  }

  predicate IsLive(t: Tables, a: Id) {
    var state := AccountState(t.accountRevisions, a);
    a in t.accounts && state.Some? && !state.value.deleted.value
  }

  predicate LiveIn(t: Tables, group: GroupId, a: Id) {
    IsLive(t, a) && t.accounts[a].group == group
  }

  /** All clearing shares of all revisions, old ones included, as one graph. */
  function ShareRows(revisions: seq<AccountRevision>): ShareMap {
    if revisions == [] then map[]
    else
      var last := revisions[|revisions| - 1];
      var rows := ShareRows(revisions[..|revisions| - 1]);
      rows[last.account := (if last.account in rows then rows[last.account] else map[]) + last.shares]
  }

  /** The rows a query over the accounts of one group sees. */
  function GroupRows(t: Tables, group: GroupId): ShareMap {
    var rows := ShareRows(t.accountRevisions);
    map c | c in rows && c in t.accounts && t.accounts[c].group == group :: rows[c]
  }

  // ---------- the constraints of the database ----------

  predicate AllPositive(shares: Shares) {
    forall k :: k in shares ==> shares[k] > 0.0
  }

  /** Share rows are positive; purchases and transfers have at most one creditor, transfers at most
      one debitor. */
  predicate ShareRowsAllowed(kind: TransactionKind, creditors: Shares, debitors: Shares) {
    && AllPositive(creditors) && AllPositive(debitors)
    && (kind != Mimo ==> |creditors| <= 1)
    && (kind == Transfer ==> |debitors| <= 1)
  }

  predicate ItemRowsAllowed(communistShares: real, usages: Shares) {
    communistShares >= 0.0 && AllPositive(usages)
  }

  /** Somebody uses the item, or it has a common share. */
  predicate Assigned(v: ItemVersion) {
    v.usages != map[] || v.communistShares > 0.0
  }

  /** check_committed_transactions() for a revision that is not deleted: enough shares of each kind,
      and every live item of a purchase that this revision writes is assigned.  Items of other
      transactions are not looked at. */
  predicate CommitAllowed(items: map<Id, Id>, x: Id, kind: TransactionKind, creditors: Shares, debitors: Shares,
                          versions: map<Id, ItemVersion>)
  {
    && SharesComplete(kind, creditors, debitors)
    && (kind == Purchase ==>
          forall i :: i in versions && i in items && items[i] == x && !versions[i].deleted ==> Assigned(versions[i]))
  }

  predicate SharesComplete(kind: TransactionKind, creditors: Shares, debitors: Shares) {
    match kind
    case Transfer => |creditors| == 1 && |debitors| == 1
    case Purchase => |creditors| == 1 && |debitors| >= 1
    case Mimo => |creditors| >= 1 && |debitors| >= 1
  }

  /** The number the constraint compares with zero: it joins the item to its usages and adds up usage
      plus common share over the joined rows, one of which stands for an item without usages. */
  ghost function JoinedShares(v: ItemVersion): real {
    if v.usages == map[] then v.communistShares
    else SumSet(v.usages.Keys, JoinedRow(v))
  }

  ghost function JoinedRow(v: ItemVersion): Id -> real {
    k => Weight(v.usages, k) + v.communistShares
  }

  lemma {:induction false} AssignedIffPositive(v: ItemVersion)
    requires ItemRowsAllowed(v.communistShares, v.usages)
    ensures Assigned(v) <==> JoinedShares(v) > 0.0
    ensures Assigned(v) <==> v.communistShares + Total(v.usages) > 0.0
  {
    if v.usages == map[] {
      assert v.usages.Keys == {};
    } else {
      var k := AnyOf(v.usages.Keys);
      SumSetNonNegative(v.usages.Keys, JoinedRow(v));
      PositiveTotal(v.usages);
    }
  }

  lemma {:induction false} PositiveTotal(shares: Shares)
    requires AllPositive(shares) && shares != map[]
    ensures Total(shares) > 0.0
  {
    var k := AnyOf(shares.Keys);
    SumSetNonNegative(shares.Keys, WeightOf(shares));
    assert WeightOf(shares)(k) > 0.0;
  }

  /** What the recursive query of the cycle constraint finds: from the shares of the new revision it
      follows the rows of the group, and reports when it comes to an account a second time. */
  ghost predicate CycleReported(rows: ShareMap, starts: set<Id>) {
    exists y :: Visits(rows, starts, y) && OnCycle(rows, y)
  }

  ghost predicate Visits(rows: ShareMap, starts: set<Id>, y: Id) {
    exists s :: s in starts && (s == y || Reaches(rows, s, y))
  }

  // ---------- what every reachable state satisfies ----------

  ghost predicate AllLiveIn(t: Tables, group: GroupId, keys: set<Id>) {
    forall k :: k in keys ==> LiveIn(t, group, k)
  }

  ghost predicate TransactionReferences(t: Tables, x: Id) {
    var state := TransactionState(t.transactionRevisions, x);
    x in t.transactions && state.Some? && !state.value.deleted.value ==>
      AllLiveIn(t, t.transactions[x].group, state.value.creditors.Keys + state.value.debitors.Keys)
  }

  ghost predicate AccountReferences(t: Tables, a: Id) {
    IsLive(t, a) ==>
      AllLiveIn(t, t.accounts[a].group, AccountState(t.accountRevisions, a).value.shares.Keys)
  }

  /** Whether the transaction is deleted plays no role: an update would bring it back. */
  ghost predicate ItemReferences(t: Tables, item: Id) {
    item in t.items ==>
      var x := t.items[item];
      var state := ItemState(t.transactionRevisions, x, item);
      && x in t.transactions
      && (state.Some? && !state.value.deleted ==>
            AllLiveIn(t, t.transactions[x].group, state.value.usages.Keys))
  }

  /** The rows of a transaction obey the constraints, and a live one has enough shares of each kind. */
  ghost predicate SharesObey(t: Tables, x: Id) {
    var state := TransactionState(t.transactionRevisions, x);
    x in t.transactions && state.Some? ==>
      && ShareRowsAllowed(t.transactions[x].kind, state.value.creditors, state.value.debitors)
      && (!state.value.deleted.value ==>
            SharesComplete(t.transactions[x].kind, state.value.creditors, state.value.debitors))
  }

  ghost predicate ItemObeys(t: Tables, x: Id, item: Id) {
    var state := ItemState(t.transactionRevisions, x, item);
    state.Some? ==> ItemRowsAllowed(state.value.communistShares, state.value.usages)
  }

  ghost predicate SameGroup(t: Tables, c: Id, a: Id) {
    c in t.accounts && a in t.accounts && t.accounts[c].group == t.accounts[a].group
  }

  /** Clearing shares, old ones included, stay within a group. */
  ghost predicate RowsWithinGroups(t: Tables) {
    forall c, a :: Edge(ShareRows(t.accountRevisions), c, a) ==> SameGroup(t, c, a)
  }

  /** Live transactions, clearing accounts and positions refer to live accounts of their group. */
  ghost predicate Integrity(t: Tables) {
    && (forall x :: TransactionReferences(t, x))
    && (forall a :: AccountReferences(t, a))
    && (forall item :: ItemReferences(t, item))
  }

  ghost predicate Consistent(t: Tables) {
    && Integrity(t)
    && (forall x :: SharesObey(t, x))
    && (forall x, item :: ItemObeys(t, x, item))
    && RowsWithinGroups(t)
    && Acyclic(ShareRows(t.accountRevisions))
    && (forall a :: a in t.accounts || AccountState(t.accountRevisions, a).None?)
    && (forall x :: x in t.transactions || TransactionState(t.transactionRevisions, x).None?)
    && (forall item, x :: item in t.items || ItemState(t.transactionRevisions, x, item).None?)
  }

  const EMPTY := Tables(map[], [], map[], [], map[])

  lemma EmptyIsConsistent()
    ensures Consistent(EMPTY)
  {
    forall c ensures !OnCycle(map[], c) {
      if OnCycle(map[], c) {
        ReachesFromSharer(map[], c, c);
      }
    }
  }

  // ---------- appending a revision ----------

  ghost function AddAccountRevision(t: Tables, r: AccountRevision): Tables {
    t.(accountRevisions := t.accountRevisions + [r])
  }

  ghost function AddTransactionRevision(t: Tables, r: TransactionRevision): Tables {
    t.(transactionRevisions := t.transactionRevisions + [r])
  }

  lemma AccountStateAfter(t: Tables, r: AccountRevision, a: Id)
    ensures AccountState(AddAccountRevision(t, r).accountRevisions, a) ==
            if r.account == a && r.deleted.Some? then Some(r) else AccountState(t.accountRevisions, a)
  {
    assert (t.accountRevisions + [r])[..|t.accountRevisions|] == t.accountRevisions;
  }

  lemma TransactionStateAfter(t: Tables, r: TransactionRevision, x: Id)
    ensures TransactionState(AddTransactionRevision(t, r).transactionRevisions, x) ==
            if r.transaction == x && r.deleted.Some? then Some(r) else TransactionState(t.transactionRevisions, x)
  {
    assert (t.transactionRevisions + [r])[..|t.transactionRevisions|] == t.transactionRevisions;
  }

  lemma ItemStateAfter(t: Tables, r: TransactionRevision, x: Id, item: Id)
    ensures ItemState(AddTransactionRevision(t, r).transactionRevisions, x, item) ==
            if r.transaction == x && item in r.items then Some(r.items[item])
            else ItemState(t.transactionRevisions, x, item)
  {
    assert (t.transactionRevisions + [r])[..|t.transactionRevisions|] == t.transactionRevisions;
  }

  /** Nothing live refers to `a`. */
  ghost predicate Unreferenced(t: Tables, a: Id) {
    && (forall x :: x in t.transactions ==>
                      var s := TransactionState(t.transactionRevisions, x);
                      s.Some? && !s.value.deleted.value ==> a !in s.value.creditors && a !in s.value.debitors)
    && (forall c :: IsLive(t, c) ==> a !in AccountState(t.accountRevisions, c).value.shares)
    && (forall item :: item in t.items ==>
                         var s := ItemState(t.transactionRevisions, t.items[item], item);
                         s.Some? && !s.value.deleted ==> a !in s.value.usages)
  }

  lemma CycleThrough(h: ShareMap, p: seq<Id>, i: nat)
    requires IsPath(h, p) && p[0] == p[|p| - 1] && i < |p| - 1
    ensures OnCycle(h, p[i])
  {
    assert PathBetween(h, p[i..], p[i], p[0]);
    if i > 0 {
      var q := p[..i + 1];
      assert PathBetween(h, q, p[0], p[i]);
      ReachesTransitively(h, p[i], p[0], p[i]);
    }
  }

  lemma CycleThroughNext(h: ShareMap, p: seq<Id>, i: nat)
    requires IsPath(h, p) && p[0] == p[|p| - 1] && i < |p| - 1
    ensures OnCycle(h, p[i + 1])
  {
    if i + 1 < |p| - 1 {
      CycleThrough(h, p, i + 1);
    } else {
      CycleThrough(h, p, 0);
    }
  }

  ghost predicate StepsInto(p: seq<Id>, i: nat, targets: set<Id>) {
    i + 1 < |p| && p[i + 1] in targets
  }

  /** A cycle that new shares of account `x` close runs through one of their targets. */
  lemma {:induction false} NewCycleThroughTarget(g: ShareMap, h: ShareMap, x: Id, targets: set<Id>, y: Id)
    requires Acyclic(g) && OnCycle(h, y)
    requires forall c, a :: Edge(h, c, a) ==> Edge(g, c, a) || (c == x && a in targets)
    ensures exists s :: s in targets && OnCycle(h, s)
  {
    var p :| PathBetween(h, p, y, y);
    if i: nat :| StepsInto(p, i, targets) {
      CycleThroughNext(h, p, i);
    } else {
      forall i | 0 <= i < |p| - 1 ensures Edge(g, p[i], p[i + 1]) {
        assert Edge(h, p[i], p[i + 1]) && !StepsInto(p, i, targets);
      }
      assert PathBetween(g, p, y, y);
      assert OnCycle(g, y);
    }
  }

  /** What starts in a group stays there. */
  lemma {:induction false} PathStaysInGroup(t: Tables, p: seq<Id>, i: nat)
    requires RowsWithinGroups(t) && IsPath(ShareRows(t.accountRevisions), p) && i < |p|
    requires p[0] in t.accounts
    ensures SameGroup(t, p[0], p[i])
  {
    if i > 0 {
      PathStaysInGroup(t, p, i - 1);
      assert Edge(ShareRows(t.accountRevisions), p[i - 1], p[i]);
    }
  }

  lemma {:induction false} CycleWithinGroup(t: Tables, s: Id)
    requires RowsWithinGroups(t) && s in t.accounts && OnCycle(ShareRows(t.accountRevisions), s)
    ensures OnCycle(GroupRows(t, t.accounts[s].group), s)
  {
    var rows, own := ShareRows(t.accountRevisions), GroupRows(t, t.accounts[s].group);
    var p :| PathBetween(rows, p, s, s);
    forall i | 0 <= i < |p| - 1 ensures Edge(own, p[i], p[i + 1]) {
      PathStaysInGroup(t, p, i);
      assert Edge(rows, p[i], p[i + 1]);
    }
    assert PathBetween(own, p, s, s);
  }

  /** The query reports exactly that the new shares of an account have closed a cycle. */
  lemma {:induction false} ReportedIffCyclic(g: ShareMap, after: Tables, x: Id, targets: set<Id>)
    requires Acyclic(g) && RowsWithinGroups(after) && x in after.accounts
    requires forall c, a :: Edge(ShareRows(after.accountRevisions), c, a) ==> Edge(g, c, a) || (c == x && a in targets)
    requires forall s :: s in targets ==> SameGroup(after, x, s)
    ensures CycleReported(GroupRows(after, after.accounts[x].group), targets) <==>
            !Acyclic(ShareRows(after.accountRevisions))
  {
    var h, own := ShareRows(after.accountRevisions), GroupRows(after, after.accounts[x].group);
    if y :| Visits(own, targets, y) && OnCycle(own, y) {
      var p :| PathBetween(own, p, y, y);
      assert forall c, a :: Edge(own, c, a) ==> Edge(h, c, a);
      assert PathBetween(h, p, y, y);
      assert OnCycle(h, y);
    } else if y :| OnCycle(h, y) {
      NewCycleThroughTarget(g, h, x, targets, y);
      var s :| s in targets && OnCycle(h, s);
      CycleWithinGroup(after, s);
      assert Visits(own, targets, s);
    }
  }

  lemma NoStartsNoReport(rows: ShareMap)
    ensures !CycleReported(rows, {})
  {
  }

  lemma ShareRowsAfter(t: Tables, r: AccountRevision)
    ensures var g, h := ShareRows(t.accountRevisions), ShareRows(AddAccountRevision(t, r).accountRevisions);
            forall c, a :: Edge(h, c, a) <==> Edge(g, c, a) || (c == r.account && a in r.shares)
  {
    assert (t.accountRevisions + [r])[..|t.accountRevisions|] == t.accountRevisions;
  }

  /** The current shares of every account are among the share rows. */
  lemma {:induction false} CurrentSharesAreRows(revisions: seq<AccountRevision>, c: Id, a: Id)
    requires AccountState(revisions, c).Some? && a in AccountState(revisions, c).value.shares
    ensures Edge(ShareRows(revisions), c, a)
  {
    var last := revisions[|revisions| - 1];
    if !(last.account == c && last.deleted.Some?) {
      CurrentSharesAreRows(revisions[..|revisions| - 1], c, a);
    }
  }
}
