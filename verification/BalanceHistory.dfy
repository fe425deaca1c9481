/** The history of one account's balance (frontend/libs/core/src/lib/accounts.ts, lines 192 to 244),
    a second route to the number the balance engine computes. */
module BalanceHistory {
  import opened Sums
  import opened Sorting
  import opened TransactionEffects
  import opened ClearingGraph
  import opened BalanceEngine
  import opened BalanceLaws

  datatype Origin = FromTransaction(id: Id) | FromClearing(id: Id)

  datatype Change = Change(date: int, change: real, origin: Origin)

  datatype HistoryEntry = HistoryEntry(change: Change, balance: real)

  type Effects = map<Id, map<Id, Effect>>

  function DateOf(c: Change): real { c.date as real }

  ghost function AmountOf(c: Change): real { c.change }

  // ---------- the changes, in the order they are collected ----------

  ghost function TransactionChanges(a: Id, ts: seq<Transaction>, effects: Effects): seq<Change>
    requires forall t :: t in ts ==> t.id in effects
  {
    if ts == [] then []
    else
      var t := ts[|ts| - 1];
      TransactionChanges(a, ts[..|ts| - 1], effects) +
      if a in effects[t.id] then [Change(t.billedAt, effects[t.id][a].total, FromTransaction(t.id))] else []
  }

  predicate Resolves(sheet: Sheet, c: Id, a: Id) {
    c in sheet && a in sheet[c].clearingResolution
  }

  ghost function ClearingChanges(a: Id, clearing: seq<Account>, sheet: Sheet): seq<Change>
    requires forall c :: c in clearing ==> c.Clearing?
  {
    if clearing == [] then []
    else
      var c := clearing[|clearing| - 1];
      ClearingChanges(a, clearing[..|clearing| - 1], sheet) +
      if Resolves(sheet, c.id, a)
      then [Change(c.dateInfo, sheet[c.id].clearingResolution[a], FromClearing(c.id))] else []
  }

  ghost function Changes(history: seq<HistoryEntry>): seq<Change> {
    seq(|history|, i requires 0 <= i < |history| => history[i].change)
  }

  /** Each balance is the one before plus the change. */
  ghost predicate Accumulates(history: seq<HistoryEntry>) {
    forall i {:trigger BalanceBefore(history, i)} :: 0 <= i < |history| ==>
                  history[i].balance == BalanceBefore(history, i) + history[i].change.change
  }

  ghost function BalanceBefore(history: seq<HistoryEntry>, i: nat): real
    requires i < |history|
  {
    if i == 0 then 0.0 else history[i - 1].balance
  }

  ghost predicate DateSorted(history: seq<HistoryEntry>) {
    forall i, j :: 0 <= i < j < |history| ==> history[i].change.date <= history[j].change.date
  }

  // ---------- which changes are collected ----------

  /** The transaction changes the account as `ch` says: on its date, by its total. */
  ghost predicate Books(a: Id, t: Transaction, effects: Effects, ch: Change)
    requires t.id in effects
  {
    a in effects[t.id] && ch == Change(t.billedAt, effects[t.id][a].total, FromTransaction(t.id))
  }

  /** The clearing account does, on its date, by what it resolved to the account. */
  ghost predicate ResolvesAs(a: Id, c: Account, sheet: Sheet, ch: Change)
    requires c.Clearing?
  {
    && c.id in sheet && a in sheet[c.id].clearingResolution
    && ch == Change(c.dateInfo, sheet[c.id].clearingResolution[a], FromClearing(c.id))
  }

  ghost function BookedAs(a: Id, ts: seq<Transaction>, effects: Effects, ch: Change): set<nat>
    requires forall t :: t in ts ==> t.id in effects
  {
    set i: nat | i < |ts| && Books(a, ts[i], effects, ch)
  }

  ghost function ResolvedAs(a: Id, clearing: seq<Account>, sheet: Sheet, ch: Change): set<nat>
    requires forall c :: c in clearing ==> c.Clearing?
  {
    set i: nat | i < |clearing| && ResolvesAs(a, clearing[i], sheet, ch)
  }

  lemma IndexPush(before: set<nat>, after: set<nat>, n: nat, hit: bool)
    requires n !in before && forall i: nat :: i in after <==> i in before || (hit && i == n)
    ensures |after| == |before| + if hit then 1 else 0
  {
    assert after == if hit then before + {n} else before;
  }

  lemma BookedAsPush(a: Id, ts: seq<Transaction>, effects: Effects, ch: Change)
    requires ts != [] && forall t :: t in ts ==> t.id in effects
    ensures var n := |ts| - 1;
            |BookedAs(a, ts, effects, ch)| ==
            |BookedAs(a, ts[..n], effects, ch)| + if Books(a, ts[n], effects, ch) then 1 else 0
  {
    hide Books;
    var n := |ts| - 1;
    IndexPush(BookedAs(a, ts[..n], effects, ch), BookedAs(a, ts, effects, ch), n, Books(a, ts[n], effects, ch));
  }

  lemma ResolvedAsPush(a: Id, clearing: seq<Account>, sheet: Sheet, ch: Change)
    requires clearing != [] && forall c :: c in clearing ==> c.Clearing?
    ensures var n := |clearing| - 1;
            |ResolvedAs(a, clearing, sheet, ch)| ==
            |ResolvedAs(a, clearing[..n], sheet, ch)| + if ResolvesAs(a, clearing[n], sheet, ch) then 1 else 0
  {
    hide ResolvesAs;
    var n := |clearing| - 1;
    IndexPush(ResolvedAs(a, clearing[..n], sheet, ch), ResolvedAs(a, clearing, sheet, ch), n,
              ResolvesAs(a, clearing[n], sheet, ch));
  }

  lemma {:induction false} TransactionChangesCount(a: Id, ts: seq<Transaction>, effects: Effects, ch: Change)
    requires forall t :: t in ts ==> t.id in effects
    ensures multiset(TransactionChanges(a, ts, effects))[ch] == |BookedAs(a, ts, effects, ch)|
  {
    hide BookedAs;
    if ts == [] {
      NothingBooked(a, effects, ch);
    } else {
      TransactionChangesCount(a, ts[..|ts| - 1], effects, ch);
      BookedAsPush(a, ts, effects, ch);
    }
  }

  lemma {:induction false} ClearingChangesCount(a: Id, clearing: seq<Account>, sheet: Sheet, ch: Change)
    requires forall c :: c in clearing ==> c.Clearing?
    ensures multiset(ClearingChanges(a, clearing, sheet))[ch] == |ResolvedAs(a, clearing, sheet, ch)|
  {
    hide ResolvedAs;
    if clearing == [] {
      NothingResolved(a, sheet, ch);
    } else {
      ClearingChangesCount(a, clearing[..|clearing| - 1], sheet, ch);
      ResolvedAsPush(a, clearing, sheet, ch);
    }
  }

  lemma {:induction false} TransactionIsCollected(a: Id, ts: seq<Transaction>, effects: Effects, t: Transaction)
    requires (forall u :: u in ts ==> u.id in effects) && t in ts && a in effects[t.id]
    ensures Change(t.billedAt, effects[t.id][a].total, FromTransaction(t.id)) in TransactionChanges(a, ts, effects)
  {
    var n := |ts| - 1;
    if t != ts[n] {
      TransactionIsCollected(a, ts[..n], effects, t);
    }
  }

  lemma {:induction false} ClearingIsCollected(a: Id, clearing: seq<Account>, sheet: Sheet, c: Account)
    requires (forall d :: d in clearing ==> d.Clearing?) && c in clearing
    requires c.id in sheet && a in sheet[c.id].clearingResolution
    ensures Change(c.dateInfo, sheet[c.id].clearingResolution[a], FromClearing(c.id)) in ClearingChanges(a, clearing, sheet)
  {
    var n := |clearing| - 1;
    if c != clearing[n] {
      ClearingIsCollected(a, clearing[..n], sheet, c);
    }
  }

  lemma NothingBooked(a: Id, effects: Effects, ch: Change)
    ensures |BookedAs(a, [], effects, ch)| == 0
  {
    assert BookedAs(a, [], effects, ch) == {};
  }

  lemma NothingResolved(a: Id, sheet: Sheet, ch: Change)
    ensures |ResolvedAs(a, [], sheet, ch)| == 0
  {
    assert ResolvedAs(a, [], sheet, ch) == {};
  }

  /** Changes are collected in the order of the transactions and of the clearing accounts. */
  lemma {:induction false} TransactionChangesInOrder(a: Id, ts: seq<Transaction>, more: seq<Transaction>, effects: Effects)
    requires forall t :: t in ts + more ==> t.id in effects
    ensures TransactionChanges(a, ts + more, effects) ==
            TransactionChanges(a, ts, effects) + TransactionChanges(a, more, effects)
    decreases |more|
  {
    if more == [] {
      assert ts + more == ts;
    } else {
      assert (ts + more)[..|ts + more| - 1] == ts + more[..|more| - 1];
      TransactionChangesInOrder(a, ts, more[..|more| - 1], effects);
    }
  }

  lemma {:induction false} ClearingChangesInOrder(a: Id, clearing: seq<Account>, more: seq<Account>, sheet: Sheet)
    requires forall c :: c in clearing + more ==> c.Clearing?
    ensures ClearingChanges(a, clearing + more, sheet) ==
            ClearingChanges(a, clearing, sheet) + ClearingChanges(a, more, sheet)
    decreases |more|
  {
    if more == [] {
      assert clearing + more == clearing;
    } else {
      assert (clearing + more)[..|clearing + more| - 1] == clearing + more[..|more| - 1];
      ClearingChangesInOrder(a, clearing, more[..|more| - 1], sheet);
    }
  }

  method CollectTransactionChanges(a: Id, ts: seq<Transaction>, effects: Effects) returns (changes: seq<Change>)
    requires forall t :: t in ts ==> t.id in effects
    ensures changes == TransactionChanges(a, ts, effects)
    ensures forall ch :: multiset(changes)[ch] == |BookedAs(a, ts, effects, ch)|
  {
    forall ch ensures multiset(TransactionChanges(a, ts, effects))[ch] == |BookedAs(a, ts, effects, ch)| {
      TransactionChangesCount(a, ts, effects, ch);
    }
    changes := [];
    for i := 0 to |ts|
      invariant changes == TransactionChanges(a, ts[..i], effects)
    {
      assert ts[..i + 1][..i] == ts[..i];
      if a in effects[ts[i].id] {
        changes := changes + [Change(ts[i].billedAt, effects[ts[i].id][a].total, FromTransaction(ts[i].id))];
      }
    }
    assert ts[..|ts|] == ts;
  }

  method CollectClearingChanges(a: Id, clearing: seq<Account>, sheet: Sheet) returns (changes: seq<Change>)
    requires forall c :: c in clearing ==> c.Clearing?
    ensures changes == ClearingChanges(a, clearing, sheet)
    ensures forall ch :: multiset(changes)[ch] == |ResolvedAs(a, clearing, sheet, ch)|
  {
    forall ch ensures multiset(ClearingChanges(a, clearing, sheet))[ch] == |ResolvedAs(a, clearing, sheet, ch)| {
      ClearingChangesCount(a, clearing, sheet, ch);
    }
    changes := [];
    for i := 0 to |clearing|
      invariant changes == ClearingChanges(a, clearing[..i], sheet)
    {
      assert clearing[..i + 1][..i] == clearing[..i];
      if clearing[i].id in sheet && a in sheet[clearing[i].id].clearingResolution {
        changes := changes + [Change(clearing[i].dateInfo, sheet[clearing[i].id].clearingResolution[a],
                                     FromClearing(clearing[i].id))];
      }
    }
    assert clearing[..|clearing|] == clearing;
  }

  method Accumulate(changes: seq<Change>) returns (history: seq<HistoryEntry>)
    ensures Changes(history) == changes && Accumulates(history)
  {
    history := [];
    var currBalance := 0.0;
    for i := 0 to |changes|
      invariant Changes(history) == changes[..i] && Accumulates(history)
      invariant |history| == i && currBalance == if i == 0 then 0.0 else history[i - 1].balance
    {
      ghost var before := history;
      currBalance := currBalance + changes[i].change;
      history := history + [HistoryEntry(changes[i], currBalance)];
      assert forall j :: 0 <= j < i ==> BalanceBefore(history, j) == BalanceBefore(before, j);
    }
  }

  method ComputeAccountBalanceHistory(a: Id, clearing: seq<Account>, sheet: Sheet, ts: seq<Transaction>,
                                      effects: Effects) returns (history: seq<HistoryEntry>)
    requires forall t :: t in ts ==> t.id in effects
    requires forall c :: c in clearing ==> c.Clearing?
    ensures ts == [] ==> history == []
    ensures ts != [] ==> multiset(Changes(history)) ==
                         multiset(TransactionChanges(a, ts, effects) + ClearingChanges(a, clearing, sheet))
    ensures ts != [] ==> forall ch :: multiset(Changes(history))[ch] ==
                                      |BookedAs(a, ts, effects, ch)| + |ResolvedAs(a, clearing, sheet, ch)|
    ensures ts != [] ==>
              forall t :: t in ts && a in effects[t.id] ==>
                            Change(t.billedAt, effects[t.id][a].total, FromTransaction(t.id)) in Changes(history)
    ensures ts != [] ==>
              forall c :: c in clearing && c.id in sheet && a in sheet[c.id].clearingResolution ==>
                            Change(c.dateInfo, sheet[c.id].clearingResolution[a], FromClearing(c.id)) in Changes(history)
    ensures ts != [] ==>
              forall date :: WithKey(Changes(history), DateOf, date) ==
                             WithKey(TransactionChanges(a, ts, effects) + ClearingChanges(a, clearing, sheet), DateOf, date)
    ensures DateSorted(history) && Accumulates(history)
  {
    if |ts| == 0 {
      return [];
    }
    var changes := CollectTransactionChanges(a, ts, effects);
    var more := CollectClearingChanges(a, clearing, sheet);
    forall t | t in ts && a in effects[t.id]
      ensures Change(t.billedAt, effects[t.id][a].total, FromTransaction(t.id)) in changes
    {
      TransactionIsCollected(a, ts, effects, t);
    }
    forall c | c in clearing && c.id in sheet && a in sheet[c.id].clearingResolution
      ensures Change(c.dateInfo, sheet[c.id].clearingResolution[a], FromClearing(c.id)) in more
    {
      ClearingIsCollected(a, clearing, sheet, c);
    }
    var sorted := SortBy(changes + more, DateOf);
    SortByIsPermutation(changes + more, DateOf);
    SortByIsSorted(changes + more, DateOf);
    forall date ensures WithKey(sorted, DateOf, date) == WithKey(changes + more, DateOf, date) {
      SortByIsStable(changes + more, DateOf, date);
    }
    history := Accumulate(sorted);
    assert forall ch :: ch in changes || ch in more ==> ch in multiset(sorted);
    forall i, j | 0 <= i < j < |history| ensures history[i].change.date <= history[j].change.date {
      assert Changes(history)[i] == sorted[i] && Changes(history)[j] == sorted[j];
      assert DateOf(sorted[i]) <= DateOf(sorted[j]);
    }
  }

  // ---------- agreement with the balance engine ----------

  lemma {:induction false} LastBalance(history: seq<HistoryEntry>)
    requires Accumulates(history) && history != []
    ensures history[|history| - 1].balance == SumSeq(Changes(history), AmountOf)
  {
    var n := |history| - 1;
    var init := history[..n];
    assert Changes(history)[..n] == Changes(init);
    assert history[n].balance == BalanceBefore(history, n) + history[n].change.change;
    if n > 0 {
      assert forall i :: 0 <= i < n ==> BalanceBefore(init, i) == BalanceBefore(history, i);
      LastBalance(init);
    }
  }

  /** The effects passed in are those the transactions have. */
  ghost predicate EffectsOfTransactions(ts: seq<Transaction>, effects: Effects) {
    forall t :: t in ts ==>
                  && t.id in effects
                  && effects[t.id].Keys == Involved(t)
                  && forall a :: a in Involved(t) ==> effects[t.id][a] == EffectOn(t, a)
  }

  lemma {:induction false} TransactionChangesTotal(a: Id, ts: seq<Transaction>, effects: Effects)
    requires EffectsOfTransactions(ts, effects)
    ensures SumSeq(TransactionChanges(a, ts, effects), AmountOf) == NetTotal(ts)(a)
  {
    if ts != [] {
      var n := |ts| - 1;
      var init := TransactionChanges(a, ts[..n], effects);
      TransactionChangesTotal(a, ts[..n], effects);
      if a in Involved(ts[n]) {
        SumSeqPush(init, Change(ts[n].billedAt, effects[ts[n].id][a].total, FromTransaction(ts[n].id)), AmountOf);
      } else {
        NotInvolved(ts[n], a);
        assert TransactionChanges(a, ts, effects) == init;
      }
    }
  }

  ghost predicate UniqueIds(accounts: seq<Account>) {
    forall i, j :: 0 <= i < j < |accounts| ==> accounts[i].id != accounts[j].id
  }

  ghost function ResolvedBy(sheet: Sheet, a: Id): Id -> real {
    c => if Resolves(sheet, c, a) then sheet[c].clearingResolution[a] else 0.0
  }

  lemma {:induction false} ClearingChangesTotal(a: Id, clearing: seq<Account>, sheet: Sheet)
    requires UniqueIds(clearing)
    requires forall c :: c in clearing ==> c.Clearing?
    ensures SumSeq(ClearingChanges(a, clearing, sheet), AmountOf) == SumSet(Ids(clearing), ResolvedBy(sheet, a))
  {
    if clearing != [] {
      var n := |clearing| - 1;
      var c := clearing[n];
      var init := ClearingChanges(a, clearing[..n], sheet);
      ClearingChangesTotal(a, clearing[..n], sheet);
      IdsPush(clearing, n);
      assert clearing[..n + 1] == clearing;
      SumSetInsert(Ids(clearing[..n]), c.id, ResolvedBy(sheet, a));
      if Resolves(sheet, c.id, a) {
        SumSeqPush(init, Change(c.dateInfo, sheet[c.id].clearingResolution[a], FromClearing(c.id)), AmountOf);
      } else {
        assert ClearingChanges(a, clearing, sheet) == init;
      }
    }
  }

  /** All changes of account `a` add up to what flows into it. */
  lemma {:induction false} ChangesTotal(a: Id, accounts: seq<Account>, clearing: seq<Account>, ts: seq<Transaction>,
                                        effects: Effects)
    requires EffectsOfTransactions(ts, effects)
    requires UniqueIds(clearing) && forall c :: c in clearing ==> c.Clearing?
    requires ShareMapOf(accounts).Keys <= Ids(clearing)
    ensures SumSeq(TransactionChanges(a, ts, effects)
                   + ClearingChanges(a, clearing, FinalSheet(accounts, ts)), AmountOf) ==
            Inflow(ShareMapOf(accounts), NetTotal(ts), a)
  {
    var sheet, sm, t := FinalSheet(accounts, ts), ShareMapOf(accounts), NetTotal(ts);
    SumSeqConcat(TransactionChanges(a, ts, effects), ClearingChanges(a, clearing, sheet), AmountOf);
    TransactionChangesTotal(a, ts, effects);
    ClearingChangesTotal(a, clearing, sheet);
    var settled := SettledAccounts(sm);
    forall c ensures c in settled ==> ResolvedBy(sheet, a)(c) == Contribution(sm, t, a)(c)
             ensures c !in settled ==> ResolvedBy(sheet, a)(c) == 0.0 {
    }
    SumSetExtend(settled, Ids(clearing), ResolvedBy(sheet, a));
    SumSetCongruent(settled, ResolvedBy(sheet, a), Contribution(sm, t, a));
    InflowEquation(sm, t, a, settled);
  }

  /** The last entry of a non-empty history of a listed account tells its paid minus consumed, and
      so its balance unless it was itself redistributed. */
  lemma {:induction false} HistoryAgrees(a: Id, accounts: seq<Account>, clearing: seq<Account>, ts: seq<Transaction>,
                                         effects: Effects, history: seq<HistoryEntry>)
    requires NonZeroTotals(ShareMapOf(accounts))
    requires EffectsOfTransactions(ts, effects)
    requires UniqueIds(clearing) && forall c :: c in clearing ==> c.Clearing?
    requires ShareMapOf(accounts).Keys <= Ids(clearing)
    requires history != [] && Accumulates(history)
    requires multiset(Changes(history)) ==
             multiset(TransactionChanges(a, ts, effects) + ClearingChanges(a, clearing, FinalSheet(accounts, ts)))
    ensures var b := FinalEntry(accounts, ts, a);
            var last := history[|history| - 1].balance;
            && last == b.totalPaid - b.totalConsumed
            && (!Settled(ShareMapOf(accounts), a) ==> last == b.balance)
  {
    LastBalance(history);
    SumSeqPermutation(Changes(history),
                      TransactionChanges(a, ts, effects) + ClearingChanges(a, clearing, FinalSheet(accounts, ts)),
                      AmountOf);
    ChangesTotal(a, accounts, clearing, ts, effects);
    FinalLedger(accounts, ts, a);
  }
}
