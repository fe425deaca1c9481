/** What the store's invariant gives the balance engine: for the accounts and transactions of a group
    as the store serves them, the engine's hypotheses hold in every reachable state. */
module StoredGroups {
  import opened Wrappers
  import opened Sums
  import opened TransactionEffects
  import opened ClearingGraph
  import opened BalanceEngine
  import opened BalanceLaws
  import opened RevisionTables
  import RevisionStore

  /** `account` is the current state of an account of the group. */
  ghost predicate ServesAccount(t: Tables, group: GroupId, account: Account) {
    && LiveIn(t, group, account.id)
    && (account.Clearing? <==> t.accounts[account.id].clearing)
    && (account.Clearing? ==> account.clearingShares == AccountState(t.accountRevisions, account.id).value.shares)
  }

  /** `accounts` are the live accounts of the group, in some order. */
  ghost predicate ServesAccounts(t: Tables, group: GroupId, accounts: seq<Account>) {
    && (forall account :: account in accounts ==> ServesAccount(t, group, account))
    && (forall a :: LiveIn(t, group, a) ==> a in Ids(accounts))
  }

  ghost predicate ServesPosition(t: Tables, x: Id, p: Position) {
    exists item :: item in t.items && t.items[item] == x &&
      ItemState(t.transactionRevisions, x, item) == Some(ItemVersion(p.deleted, p.communistShares, p.usages))
  }

  /** `tx` is the current state of a live transaction of the group. */
  ghost predicate ServesTransaction(t: Tables, group: GroupId, tx: Transaction) {
    var state := TransactionState(t.transactionRevisions, tx.id);
    && tx.id in t.transactions && t.transactions[tx.id].group == group
    && state.Some? && !state.value.deleted.value
    && tx.creditorShares == state.value.creditors && tx.debitorShares == state.value.debitors
    && forall p :: p in tx.positions ==> ServesPosition(t, tx.id, p)
  }

  /** Every share goes to a listed account, and the share graph has no cycle. */
  lemma {:induction false} ServedGraph(t: Tables, group: GroupId, accounts: seq<Account>)
    requires Consistent(t) && ServesAccounts(t, group, accounts)
    ensures TargetsListed(accounts) && Acyclic(ShareMapOf(accounts))
  {
    var sm := ShareMapOf(accounts);
    forall c, a | Edge(sm, c, a) ensures a in Ids(accounts) && Edge(ShareRows(t.accountRevisions), c, a) {
      ShareMapEntry(accounts, c);
      var i: nat :| LastSharing(accounts, i, c) && sm[c] == accounts[i].clearingShares;
      var account := accounts[i];
      assert ServesAccount(t, group, account);
      assert AccountReferences(t, c);
      assert LiveIn(t, group, a);
      CurrentSharesAreRows(t.accountRevisions, c, a);
    }
    forall c | c in sm ensures sm[c].Keys <= Ids(accounts) {
      forall a | a in sm[c] ensures a in Ids(accounts) {
        assert Edge(sm, c, a);
      }
    }
    RevisionStore.NoNewEdges(ShareRows(t.accountRevisions), sm);
  }

  /** Every account a live transaction touches is listed. */
  lemma {:induction false} ServedTransactionIsListed(t: Tables, group: GroupId, accounts: seq<Account>, tx: Transaction)
    requires Consistent(t) && ServesAccounts(t, group, accounts) && ServesTransaction(t, group, tx)
    ensures Involved(tx) <= Ids(accounts)
  {
    assert TransactionReferences(t, tx.id);
    forall a | a in Involved(tx) ensures a in Ids(accounts) {
      if a in UsageKeys(tx.positions) {
        var i :| 0 <= i < |tx.positions| && !tx.positions[i].deleted && a in tx.positions[i].usages;
        assert tx.positions[i] in tx.positions;
        var item :| item in t.items && t.items[item] == tx.id &&
          ItemState(t.transactionRevisions, tx.id, item) ==
            Some(ItemVersion(tx.positions[i].deleted, tx.positions[i].communistShares, tx.positions[i].usages));
        assert ItemReferences(t, item);
      }
      assert LiveIn(t, group, a);
    }
  }

  /** A live position that nobody uses and that has no common share. */
  ghost predicate Unassigned(p: Position) {
    !p.deleted && p.usages == map[] && p.communistShares == 0.0
  }

  /** The store's constraints leave one way for money to be stranded. */
  lemma {:induction false} StrandedIffUnassigned(t: Tables, x: Id, p: Position)
    requires Consistent(t) && ServesPosition(t, x, p)
    ensures Stranded(p) == if Unassigned(p) then p.price else 0.0
  {
    hide Total;
    var version := ItemVersion(p.deleted, p.communistShares, p.usages);
    var item :| item in t.items && ItemState(t.transactionRevisions, x, item) == Some(version);
    assert ItemObeys(t, x, item);
    AssignedIffPositive(version);
  }

  /** A live transaction has positive creditor and debitor totals. */
  lemma {:induction false} ServedTotalsArePositive(t: Tables, group: GroupId, tx: Transaction)
    requires Consistent(t) && ServesTransaction(t, group, tx)
    ensures Total(tx.creditorShares) > 0.0 && Total(tx.debitorShares) > 0.0
  {
    hide Total;
    assert SharesObey(t, tx.id);
    PositiveTotal(tx.creditorShares);
    PositiveTotal(tx.debitorShares);
  }

  /** A live purchase or transfer has exactly one creditor, and a transfer exactly one debitor. */
  lemma {:induction false} ServedShareCounts(t: Tables, group: GroupId, tx: Transaction)
    requires Consistent(t) && ServesTransaction(t, group, tx)
    ensures |tx.creditorShares| >= 1 && |tx.debitorShares| >= 1
    ensures t.transactions[tx.id].kind != Mimo ==> |tx.creditorShares| == 1
    ensures t.transactions[tx.id].kind == Transfer ==> |tx.debitorShares| == 1
  {
    hide Total;
    assert SharesObey(t, tx.id);
  }

  ghost predicate ServesTransactions(t: Tables, group: GroupId, ts: seq<Transaction>) {
    forall tx :: tx in ts ==> ServesTransaction(t, group, tx)
  }

  lemma {:induction false} ServedTransactionsAreShared(t: Tables, group: GroupId, accounts: seq<Account>,
                                                       ts: seq<Transaction>)
    requires Consistent(t) && ServesAccounts(t, group, accounts) && ServesTransactions(t, group, ts)
    ensures SharedOver(ts, Ids(accounts))
  {
    hide Consistent, ServesAccounts, ServesTransaction, Total;
    forall tx | tx in ts
      ensures Total(tx.creditorShares) > 0.0 && Total(tx.debitorShares) > 0.0 && Involved(tx) <= Ids(accounts)
    {
      ServedTotalsArePositive(t, group, tx);
      ServedTransactionIsListed(t, group, accounts, tx);
    }
  }

  /** Without unassigned positions nothing is stranded. */
  lemma {:induction false} NothingStranded(t: Tables, group: GroupId, ts: seq<Transaction>)
    requires Consistent(t) && ServesTransactions(t, group, ts)
    requires forall tx, p :: tx in ts && p in tx.positions ==> !Unassigned(p)
    ensures StrandedTotal(ts) == 0.0
  {
    forall tx | tx in ts ensures StrandedValue(tx) == 0.0 {
      forall p | p in tx.positions ensures Stranded(p) == 0.0 {
        StrandedIffUnassigned(t, tx.id, p);
      }
      SumSeqZero(tx.positions, Stranded);
    }
    SumSeqZero(ts, StrandedValue);
  }

  /** In every reachable state the balances of a group add up to what is stranded on unassigned
      positions, and so to zero if there are none, and every clearing account that shares anything
      ends at zero.  Only the clearing shares, which may be negative, need a hypothesis. */
  lemma {:induction false} ReachableGroupsBalance(commands: seq<RevisionStore.Command>, group: GroupId,
                                                  accounts: seq<Account>, ts: seq<Transaction>)
    requires var t := RevisionStore.Run(EMPTY, commands);
             ServesAccounts(t, group, accounts) && ServesTransactions(t, group, ts)
    requires NonZeroTotals(ShareMapOf(accounts))
    ensures SumSet(Ids(accounts), BalanceOf(FinalSheet(accounts, ts))) == StrandedTotal(ts)
    ensures (forall tx, p :: tx in ts && p in tx.positions ==> !Unassigned(p)) ==> StrandedTotal(ts) == 0.0
    ensures forall c :: c in ShareMapOf(accounts) ==> FinalEntry(accounts, ts, c).balance == 0.0
  {
    hide Consistent, ServesAccounts, ServesTransactions, TargetsListed;
    var t := RevisionStore.Run(EMPTY, commands);
    RevisionStore.EveryReachableStateIsConsistent(commands);
    ServedGraph(t, group, accounts);
    ServedTransactionsAreShared(t, group, accounts, ts);
    BalancesAddUpToStranded(accounts, ts);
    if forall tx, p :: tx in ts && p in tx.positions ==> !Unassigned(p) {
      NothingStranded(t, group, ts);
    }
    forall c | c in ShareMapOf(accounts) ensures FinalEntry(accounts, ts, c).balance == 0.0 {
      InflowSolves(ShareMapOf(accounts), NetTotal(ts));
      AcyclicBalances(accounts, ts, InflowOf(ShareMapOf(accounts), NetTotal(ts)), c);
    }
  }

  // ---------- a reachable group with stranded money ----------

  const ITEM_CREATED := RevisionStore.NewItem(1, 1.0, map[])
  const ITEM_EMPTIED := RevisionStore.ChangedItem(1, false, 0.0, map[])

  /** Two accounts, a purchase with a common position, and an update that takes the common share away. */
  const STRANDING: seq<RevisionStore.Command> := [
    RevisionStore.CreateAccount(1, 0, false, map[]),
    RevisionStore.CreateAccount(2, 0, false, map[]),
    RevisionStore.CreateTransaction(1, 0, Purchase, map[1 := 1.0], map[2 := 1.0], [ITEM_CREATED]),
    RevisionStore.UpdatePositions(1, [ITEM_EMPTIED])]

  const WITH_ONE := Tables(map[1 := AccountRow(0, false)], [AccountRevision(1, Some(false), map[])], map[], [], map[])
  const WITH_TWO := WITH_ONE.(accounts := map[1 := AccountRow(0, false), 2 := AccountRow(0, false)],
                              accountRevisions := [AccountRevision(1, Some(false), map[]),
                                                   AccountRevision(2, Some(false), map[])])
  const CREATED :=
    TransactionRevision(1, Some(false), map[1 := 1.0], map[2 := 1.0], map[1 := ItemVersion(false, 1.0, map[])])
  const EMPTIED := TransactionRevision(1, None, map[], map[], map[1 := ItemVersion(false, 0.0, map[])])
  const WITH_PURCHASE := WITH_TWO.(transactions := map[1 := TransactionRow(0, Purchase)],
                                   transactionRevisions := [CREATED], items := map[1 := 1])
  const WITH_STRANDED := WITH_PURCHASE.(transactionRevisions := [CREATED, EMPTIED])

  lemma FirstAccount()
    ensures RevisionStore.FreshIds(EMPTY, STRANDING[0]) && RevisionStore.Accepted(EMPTY, STRANDING[0])
    ensures RevisionStore.After(EMPTY, STRANDING[0]) == WITH_ONE
  {
    assert RevisionStore.NonZero(map[]) == map[];
    NoStartsNoReport(GroupRows(WITH_ONE, 0));
  }

  lemma SecondAccount()
    ensures RevisionStore.FreshIds(WITH_ONE, STRANDING[1]) && RevisionStore.Accepted(WITH_ONE, STRANDING[1])
    ensures RevisionStore.After(WITH_ONE, STRANDING[1]) == WITH_TWO
  {
    assert RevisionStore.NonZero(map[]) == map[];
    NoStartsNoReport(GroupRows(WITH_TWO, 0));
  }

  lemma BothLive(k: Id)
    ensures k == 1 || k == 2 ==> LiveIn(WITH_TWO, 0, k) && LiveIn(WITH_PURCHASE, 0, k)
  {
    assert WITH_TWO.accountRevisions[..1] == [AccountRevision(1, Some(false), map[])];
  }

  lemma CreatesPurchase()
    ensures RevisionStore.FreshIds(WITH_TWO, STRANDING[2]) && RevisionStore.Accepted(WITH_TWO, STRANDING[2])
    ensures RevisionStore.After(WITH_TWO, STRANDING[2]) == WITH_PURCHASE
  {
    BothLive(1);
    BothLive(2);
    assert [ITEM_CREATED][..0] == [];
    assert RevisionStore.NewVersions([ITEM_CREATED]) == CREATED.items;
    assert RevisionStore.PutVersions(CREATED.items, []) == CREATED.items;
    assert RevisionStore.OwnItems(map[], 1, [ITEM_CREATED]) == map[1 := 1];
  }

  lemma EmptiesItem()
    ensures RevisionStore.FreshIds(WITH_PURCHASE, STRANDING[3]) && RevisionStore.Accepted(WITH_PURCHASE, STRANDING[3])
    ensures RevisionStore.After(WITH_PURCHASE, STRANDING[3]) == WITH_STRANDED
  {
    assert [ITEM_EMPTIED][..0] == [];
    assert RevisionStore.PutVersions(map[], [ITEM_EMPTIED]) == EMPTIED.items;
  }

  lemma StrandingRun()
    ensures RevisionStore.Run(EMPTY, STRANDING) == WITH_STRANDED
  {
    hide RevisionStore.FreshIds, RevisionStore.Accepted, RevisionStore.After;
    FirstAccount();
    SecondAccount();
    CreatesPurchase();
    EmptiesItem();
    assert STRANDING[..4] == STRANDING && STRANDING[..3][..2] == STRANDING[..2];
    assert STRANDING[..2][..1] == STRANDING[..1] && STRANDING[..1][..0] == [];
    assert RevisionStore.Run(EMPTY, []) == EMPTY;
    assert RevisionStore.Run(EMPTY, STRANDING[..1]) == WITH_ONE;
    assert RevisionStore.Run(EMPTY, STRANDING[..2]) == WITH_TWO;
    assert RevisionStore.Run(EMPTY, STRANDING[..3]) == WITH_PURCHASE;
  }

  const TWO_ACCOUNTS := [Personal(1), Personal(2)]

  lemma ServesExample()
    ensures ServesAccounts(WITH_STRANDED, 0, TWO_ACCOUNTS)
    ensures ServesTransactions(WITH_STRANDED, 0, [UNASSIGNED_PURCHASE])
  {
    BothLive(1);
    BothLive(2);
    assert TWO_ACCOUNTS[0].id == 1 && TWO_ACCOUNTS[1].id == 2;
    assert WITH_STRANDED.transactionRevisions[..1] == [CREATED];
    assert ItemState(WITH_STRANDED.transactionRevisions, 1, 1) == Some(ItemVersion(false, 0.0, map[]));
    assert TransactionState(WITH_STRANDED.transactionRevisions, 1) == Some(CREATED);
    assert ServesPosition(WITH_STRANDED, 1, UNASSIGNED_PURCHASE.positions[0]);
  }

  lemma ExampleTotals()
    ensures NonZeroTotals(ShareMapOf(TWO_ACCOUNTS))
    ensures StrandedTotal([UNASSIGNED_PURCHASE]) == 4.0
  {
    assert TWO_ACCOUNTS[..1] == [Personal(1)] && TWO_ACCOUNTS[..1][..0] == [];
    assert ShareMapOf(TWO_ACCOUNTS) == map[];
    UnassignedPositionStrands();
    assert [UNASSIGNED_PURCHASE] == [] + [UNASSIGNED_PURCHASE];
    SumSeqPush([], UNASSIGNED_PURCHASE, StrandedValue);
  }

  /** In this reachable state the balances of the group do not add up to zero. */
  lemma {:induction false} StrandedMoneyIsReachable()
    ensures var t := RevisionStore.Run(EMPTY, STRANDING);
            && ServesAccounts(t, 0, TWO_ACCOUNTS) && ServesTransactions(t, 0, [UNASSIGNED_PURCHASE])
            && SumSet(Ids(TWO_ACCOUNTS), BalanceOf(FinalSheet(TWO_ACCOUNTS, [UNASSIGNED_PURCHASE]))) == 4.0
  {
    hide *;
    StrandingRun();
    ServesExample();
    ExampleTotals();
    ReachableGroupsBalance(STRANDING, 0, TWO_ACCOUNTS, [UNASSIGNED_PURCHASE]);
  }
}
