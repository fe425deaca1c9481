/** What a settlement plan achieves: its counts and amounts, the cent filter, and what happens
    when the plan is entered as transfers and the balances are computed again
    (frontend/libs/core/src/lib/accounts.ts, lines 283 to 322). */
module SettlementExecution {
  import opened Sums
  import opened Sorting
  import opened TransactionEffects
  import opened ClearingGraph
  import opened BalanceEngine
  import opened BalanceLaws
  import opened Settlement

  // ---------- the unfiltered plan of balances that add up to zero ----------

  lemma {:induction false} ZeroSumOutcome(b: seq<Open>, plan: Plan)
    requires OncePerAccount(b) && IsPlan(b, plan) && Sum(b) == 0.0
    ensures PlanOutcome(b, Planner([], [], plan))
  {
    var creditors: seq<Open>, debitors: seq<Open> :| PlanOutcome(b, Planner(creditors, debitors, plan));
    InitialState(b);
    BothOrNeither(BalanceIn(b), Planner(creditors, debitors, plan));
  }

  /** The plan settles every account, pays positive amounts from debt to credit, joins no pair of
      accounts twice, and each account pays or receives exactly its absolute balance. */
  lemma {:induction false} PlanIsExact(b: seq<Open>, plan: Plan, a: Id)
    requires OncePerAccount(b) && IsPlan(b, plan) && Sum(b) == 0.0
    ensures ProperItems(BalanceIn(b), plan) && NoPairTwice(plan)
    ensures Remaining(BalanceIn(b), plan, a) == 0.0
    ensures Paid(plan, a) == if Owed(b, a) < 0.0 then - Owed(b, a) else 0.0
    ensures Received(plan, a) == if Owed(b, a) > 0.0 then Owed(b, a) else 0.0
    ensures SumSeq(plan, PaymentOf) == Sum(Creditors(b))
  {
    ZeroSumOutcome(b, plan);
    if Owed(b, a) >= 0.0 {
      forall p | p in plan ensures Outgoing(a)(p) == 0.0 { }
      SumSeqZero(plan, Outgoing(a));
    }
    if Owed(b, a) <= 0.0 {
      forall p | p in plan ensures Incoming(a)(p) == 0.0 { }
      SumSeqZero(plan, Incoming(a));
    }
  }

  /** With n non-zero balances and m one-to-one matches over all rounds, the plan has n - m items.
      At least one round makes a match, so n - 1 payments always suffice. */
  lemma {:induction false} PlanLength(b: seq<Open>, plan: Plan, matches: nat)
    requires OncePerAccount(b) && PlannedWith(b, plan, matches) && Sum(b) == 0.0
    ensures var n := |Creditors(b)| + |Debitors(b)|; |plan| == n - matches && (n > 0 ==> matches >= 1)
    ensures matches == BothSettled(BalanceIn(b), plan)
  {
    hide ByRounds, Creditors, Debitors, SumSeq;
    var s, rounds: nat :| ByRounds(Start(b), s, matches, rounds) && !BothOpen(s) && s.plan == plan;
    InitialState(b);
    RunEnds(b, s, matches, rounds);
    BothOrNeither(BalanceIn(b), s);
    MatchesAreDoubleSettlements(BalanceIn(b), Start(b), s, matches, rounds);
  }

  // ---------- the cent filter ----------

  /** Number.EPSILON */
  const EPSILON := 1.0 / 4503599627370496.0

  /** Math.round: half-way values are rounded up. */
  function Round(x: real): int { (x + 0.5).Floor }

  predicate AtLeastACent(p: PlanItem) {
    Round((p.paymentAmount + EPSILON) * 100.0) as real / 100.0 != 0.0
  }

  function Kept(plan: Plan): Plan {
    if plan == [] then []
    else Kept(plan[..|plan| - 1]) + if AtLeastACent(plan[|plan| - 1]) then [plan[|plan| - 1]] else []
  }

  /** The filter keeps every item of at least a cent as often as it occurs, and no other ... */
  lemma {:induction false} KeptCount(plan: Plan, p: PlanItem)
    ensures multiset(Kept(plan))[p] == if AtLeastACent(p) then multiset(plan)[p] else 0
  {
    if plan != [] {
      KeptCount(plan[..|plan| - 1], p);
      assert plan == plan[..|plan| - 1] + [plan[|plan| - 1]];
    }
  }

  /** ... in their order. */
  lemma {:induction false} KeptInOrder(plan: Plan)
    ensures Subsequence(Kept(plan), plan)
  {
    hide Subsequence, AtLeastACent;
    if plan == [] {
      NothingIsSubsequence<PlanItem>([]);
    } else {
      var init, p := plan[..|plan| - 1], plan[|plan| - 1];
      KeptInOrder(init);
      SubsequencePush(Kept(init), init, p);
      assert plan == init + [p] && Kept(init) + [] == Kept(init);
    }
  }

  /** The returned plan is the full one without the items below half a cent. */
  ghost predicate Filtered(full: Plan, plan: Plan) {
    && Subsequence(plan, full)
    && (forall p :: p in plan ==> p in full && p.paymentAmount >= 0.005 - EPSILON)
    && (forall p :: p in full && p.paymentAmount >= 0.005 - EPSILON ==> multiset(plan)[p] == multiset(full)[p])
  }

  lemma {:induction false} KeptIsFiltered(b: Id -> real, full: Plan)
    requires ProperItems(b, full)
    ensures Filtered(full, Kept(full))
  {
    hide Kept, AtLeastACent, Subsequence;
    KeptInOrder(full);
    forall p ensures multiset(Kept(full))[p] == if AtLeastACent(p) then multiset(full)[p] else 0 {
      KeptCount(full, p);
    }
    forall p | p in Kept(full) ensures p in full && p.paymentAmount >= 0.005 - EPSILON {
      assert p in multiset(Kept(full)) && p in multiset(full);
      assert ProperItem(b, p);
      DroppedIsSmall(p);
    }
    forall p | p in full && p.paymentAmount >= 0.005 - EPSILON ensures multiset(Kept(full))[p] == multiset(full)[p] {
      assert ProperItem(b, p);
      DroppedIsSmall(p);
    }
  }

  /** Dropped items that touch account `a`. */
  ghost function Dropped(plan: Plan, a: Id): nat {
    if plan == [] then 0
    else
      var p := plan[|plan| - 1];
      Dropped(plan[..|plan| - 1], a) + if !AtLeastACent(p) && (p.creditorId == a || p.debitorId == a) then 1 else 0
  }

  ghost function Moved(plan: Plan, a: Id): real {
    Paid(plan, a) - Received(plan, a)
  }

  /** At most half a cent for each of `n` items. */
  ghost predicate WithinDust(x: real, n: nat) {
    Abs(x) <= 0.005 * n as real
  }

  lemma NoDust(x: real)
    ensures WithinDust(x, 0) ==> x == 0.0
  {
  }

  lemma DustAdds(x: real, n: nat, y: real)
    requires WithinDust(x, n) && Abs(y) <= 0.005
    ensures WithinDust(x + y, n + 1)
  {
  }

  lemma DroppedIsSmall(p: PlanItem)
    requires p.paymentAmount > 0.0
    ensures !AtLeastACent(p) <==> p.paymentAmount < 0.005 - EPSILON
  {
    var x := (p.paymentAmount + EPSILON) * 100.0;
    assert x > 0.0;
    if Round(x) == 0 {
      assert x + 0.5 < 1.0;
    } else {
      assert Round(x) >= 1;
    }
  }

  /** The filter changes what any account pays or receives by at most half a cent an item. */
  lemma {:induction false} FilterResidue(b: Id -> real, plan: Plan, a: Id)
    requires ProperItems(b, plan)
    ensures WithinDust(Moved(plan, a) - Moved(Kept(plan), a), Dropped(plan, a))
    ensures forall p :: p in Kept(plan) ==> p in plan
    decreases |plan|
  {
    if plan != [] {
      var init, p := plan[..|plan| - 1], plan[|plan| - 1];
      assert plan == init + [p];
      FilterResidue(b, init, a);
      assert p in plan && ProperItem(b, p);
      DroppedIsSmall(p);
      var residue := Moved(init, a) - Moved(Kept(init), a);
      if AtLeastACent(p) {
        SumSeqPush(Kept(init), p, Outgoing(a));
        SumSeqPush(Kept(init), p, Incoming(a));
        assert Moved(plan, a) - Moved(Kept(plan), a) == residue;
      } else {
        assert Kept(plan) == Kept(init);
        assert p.creditorId != p.debitorId;
        DustAdds(residue, Dropped(init, a), Outgoing(a)(p) - Incoming(a)(p));
      }
    }
  }

  method ComputeGroupSettlement(b: seq<Open>) returns (plan: Plan, ghost full: Plan)
    requires OncePerAccount(b)
    ensures IsPlan(b, full) && plan == Kept(full) && Filtered(full, plan)
    ensures exists p: Plan :: IsPlan(b, p) && Filtered(p, plan)
  {
    hide Filtered;
    var result, matches := PlanPayments(b);
    full := result;
    plan := Kept(result);
    PlanIsProper(b, result);
    KeptIsFiltered(BalanceIn(b), result);
  }

  lemma PlanIsProper(b: seq<Open>, plan: Plan)
    requires IsPlan(b, plan)
    ensures ProperItems(BalanceIn(b), plan)
  {
  }

  // ---------- entering the plan as transfers ----------

  /** The transfer the user interface creates for a plan item. */
  function Transfer(p: PlanItem): Transaction {
    Transaction(0, p.paymentAmount, 0, [], map[p.creditorId := 1.0], map[p.debitorId := 1.0])
  }

  function Transfers(plan: Plan): seq<Transaction> {
    if plan == [] then [] else Transfers(plan[..|plan| - 1]) + [Transfer(plan[|plan| - 1])]
  }

  lemma TransferNet(p: PlanItem, a: Id)
    ensures Net(Transfer(p), a) == Outgoing(a)(p) - Incoming(a)(p)
  {
    SingleShare(p.creditorId);
    SingleShare(p.debitorId);
  }

  lemma {:induction false} TransfersNet(plan: Plan, a: Id)
    ensures NetTotal(Transfers(plan))(a) == Moved(plan, a)
  {
    if plan != [] {
      var init, p := plan[..|plan| - 1], plan[|plan| - 1];
      TransfersNet(init, a);
      TransferNet(p, a);
      SumSeqPush(Transfers(init), Transfer(p), NetAt(a));
    }
  }

  /** Transfers between accounts with an open balance change exactly what they move: no clearing
      account passes any of it on, because a redistributed account has nothing open. */
  lemma {:induction false} ExecutedBalance(accounts: seq<Account>, ts: seq<Transaction>, plan: Plan, a: Id)
    requires ProperItems(BalanceOf(FinalSheet(accounts, ts)), plan)
    ensures FinalEntry(accounts, ts + Transfers(plan), a).balance == FinalEntry(accounts, ts, a).balance + Moved(plan, a)
  {
    var sm := ShareMapOf(accounts);
    var moves := NetTotal(Transfers(plan));
    forall c | c in SettledAccounts(sm) ensures moves(c) == 0.0 && Moved(plan, c) == 0.0 {
      NothingMoved(BalanceOf(FinalSheet(accounts, ts)), plan, c);
      TransfersNet(plan, c);
    }
    BalancesAreLinear(accounts, ts, Transfers(plan), a);
    InflowWithoutSharers(sm, moves, a);
    TransfersNet(plan, a);
    assert Settled(sm, a) ==> a in SettledAccounts(sm);
  }

  lemma {:induction false} NothingMoved(b: Id -> real, plan: Plan, a: Id)
    requires ProperItems(b, plan) && b(a) == 0.0
    ensures Moved(plan, a) == 0.0
  {
    forall p | p in plan ensures Outgoing(a)(p) == 0.0 && Incoming(a)(p) == 0.0 {
      assert ProperItem(b, p);
    }
    SumSeqZero(plan, Outgoing(a));
    SumSeqZero(plan, Incoming(a));
  }

  // ---------- the sheet as a list of open amounts ----------

  /** `b` lists the accounts of the sheet with their balances, in some order. */
  ghost predicate Lists(b: seq<Open>, sheet: Sheet) {
    && OncePerAccount(b)
    && (forall a :: Owed(b, a) == BalanceOf(sheet)(a))
    && Sum(b) == SumSet(sheet.Keys, BalanceOf(sheet))
  }

  /** `b` lists the accounts `done` of the sheet. */
  ghost predicate ListsPart(b: seq<Open>, sheet: Sheet, done: set<Id>) {
    && (forall a :: Occurs(b, a) == if a in done then 1.0 else 0.0)
    && (forall a :: Owed(b, a) == if a in done then BalanceOf(sheet)(a) else 0.0)
    && Sum(b) == SumSet(done, BalanceOf(sheet))
  }

  lemma {:induction false} ListsPush(b: seq<Open>, sheet: Sheet, done: set<Id>, k: Id)
    requires ListsPart(b, sheet, done) && k in sheet && k !in done
    ensures ListsPart(b + [Open(k, sheet[k].balance)], sheet, done + {k})
  {
    hide SumSeq, SumSet;
    var o := Open(k, sheet[k].balance);
    forall a ensures Occurs(b + [o], a) == Occurs(b, a) + CountAt(a)(o)
             ensures Owed(b + [o], a) == Owed(b, a) + AmountAt(a)(o) {
      SumSeqPush(b, o, CountAt(a));
      SumSeqPush(b, o, AmountAt(a));
    }
    SumSeqPush(b, o, AmountOf);
    SumSetInsert(done, k, BalanceOf(sheet));
  }

  method EntriesOf(sheet: Sheet) returns (b: seq<Open>)
    ensures Lists(b, sheet)
  {
    b := [];
    var todo := sheet.Keys;
    assert sheet.Keys - todo == {};
    while todo != {}
      invariant todo <= sheet.Keys
      invariant ListsPart(b, sheet, sheet.Keys - todo)
      decreases todo
    {
      var k := NextKey(todo);
      ListsPush(b, sheet, sheet.Keys - todo, k);
      assert sheet.Keys - (todo - {k}) == sheet.Keys - todo + {k};
      b := b + [Open(k, sheet[k].balance)];
      todo := todo - {k};
    }
    assert sheet.Keys - todo == sheet.Keys;
  }

  lemma {:induction false} ProperForSheet(b: seq<Open>, sheet: Sheet, plan: Plan)
    requires Lists(b, sheet) && IsPlan(b, plan)
    ensures ProperItems(BalanceOf(sheet), plan) && NoPairTwice(plan)
  {
    var creditors: seq<Open>, debitors: seq<Open> :| PlanOutcome(b, Planner(creditors, debitors, plan));
    forall p | p in plan ensures ProperItem(BalanceOf(sheet), p) {
      assert ProperItem(BalanceIn(b), p);
    }
  }

  // ---------- the plan settles the group ----------

  /** What every balance is after the unfiltered plan has been entered: what was left open. */
  lemma {:induction false} BalanceAfterPlan(accounts: seq<Account>, ts: seq<Transaction>, sheet: Sheet, b: seq<Open>,
                                            plan: Plan, a: Id)
    requires sheet == FinalSheet(accounts, ts) && Lists(b, sheet) && IsPlan(b, plan) && a in sheet
    ensures FinalEntry(accounts, ts + Transfers(plan), a).balance == Remaining(BalanceIn(b), plan, a)
  {
    hide FinalEntry, SumSeq, SumSet, IsPlan, ProperItems;
    ProperForSheet(b, sheet, plan);
    ExecutedBalance(accounts, ts, plan, a);
    assert Owed(b, a) == BalanceOf(sheet)(a);
  }

  /** Entering the unfiltered plan and computing the balances again makes every balance exactly
      zero if and only if the balances added up to zero.  Clearing accounts on cycles, which were
      never redistributed, are settled like any other account. */
  lemma {:induction false} PlanSettlesTheGroup(accounts: seq<Account>, ts: seq<Transaction>, b: seq<Open>, plan: Plan)
    requires Lists(b, FinalSheet(accounts, ts)) && IsPlan(b, plan)
    ensures (forall a :: a in Ids(accounts) ==> FinalEntry(accounts, ts + Transfers(plan), a).balance == 0.0)
            <==> SumSet(Ids(accounts), BalanceOf(FinalSheet(accounts, ts))) == 0.0
  {
    assert FinalSheet(accounts, ts).Keys == Ids(accounts);
    if Sum(b) == 0.0 {
      forall a | a in Ids(accounts) ensures FinalEntry(accounts, ts + Transfers(plan), a).balance == 0.0 {
        BalanceAfterPlan(accounts, ts, FinalSheet(accounts, ts), b, plan, a);
        PlanIsExact(b, plan, a);
      }
    } else {
      var a := SomethingOpen(b, plan);
      assert Owed(b, a) == BalanceOf(FinalSheet(accounts, ts))(a);
      BalanceAfterPlan(accounts, ts, FinalSheet(accounts, ts), b, plan, a);
    }
  }

  /** Otherwise an account that was open stays open. */
  lemma {:induction false} SomethingOpen(b: seq<Open>, plan: Plan) returns (a: Id)
    requires OncePerAccount(b) && IsPlan(b, plan) && Sum(b) != 0.0
    ensures Owed(b, a) != 0.0 && Remaining(BalanceIn(b), plan, a) != 0.0
  {
    InitialState(b);
    var creditors: seq<Open>, debitors: seq<Open> :| PlanOutcome(b, Planner(creditors, debitors, plan));
    if creditors == [] {
      a := debitors[0].id;
      OwedByMember(debitors, 0);
      assert debitors[0] in debitors;
    } else {
      a := creditors[0].id;
      OwedByMember(creditors, 0);
      assert creditors[0] in creditors;
    }
    assert Remaining(BalanceIn(b), plan, a) == Owed(creditors, a) + Owed(debitors, a);
  }

  /** Entering the plan the planner returns leaves every account at most half a cent away from
      zero for each dropped item that touches it, and exactly at zero if none does. */
  lemma {:induction false} FilteredPlanResidue(accounts: seq<Account>, ts: seq<Transaction>, sheet: Sheet, b: seq<Open>,
                                               full: Plan, a: Id)
    requires sheet == FinalSheet(accounts, ts) && a in sheet
    requires Lists(b, sheet) && IsPlan(b, full) && Sum(b) == 0.0
    ensures WithinDust(FinalEntry(accounts, ts + Transfers(Kept(full)), a).balance, Dropped(full, a))
    ensures Dropped(full, a) == 0 ==> FinalEntry(accounts, ts + Transfers(Kept(full)), a).balance == 0.0
  {
    KeptResidue(b, full, a);
    KeptIsProper(b, sheet, full);
    ExecutedBalance(accounts, ts, Kept(full), a);
    var after := FinalEntry(accounts, ts + Transfers(Kept(full)), a).balance;
    assert after == Owed(b, a) + Moved(Kept(full), a) by {
      assert Owed(b, a) == BalanceOf(sheet)(a);
    }
    NoDust(after);
  }

  /** Every account is at most half a cent away from zero for each dropped item touching it. */
  ghost predicate SettledToTheCent(sheet: Sheet, full: Plan) {
    && (forall a :: a in sheet ==> WithinDust(sheet[a].balance, Dropped(full, a)))
    && (forall a :: a in sheet && Dropped(full, a) == 0 ==> sheet[a].balance == 0.0)
  }

  lemma {:induction false} FilteredPlanSettles(accounts: seq<Account>, ts: seq<Transaction>, b: seq<Open>, full: Plan)
    requires Lists(b, FinalSheet(accounts, ts)) && IsPlan(b, full)
    requires SumSet(Ids(accounts), BalanceOf(FinalSheet(accounts, ts))) == 0.0
    ensures SettledToTheCent(FinalSheet(accounts, ts + Transfers(Kept(full))), full)
  {
    hide FinalEntry, IsPlan, WithinDust;
    var after := FinalSheet(accounts, ts + Transfers(Kept(full)));
    assert FinalSheet(accounts, ts).Keys == Ids(accounts);
    forall a | a in after
      ensures WithinDust(after[a].balance, Dropped(full, a)) && (Dropped(full, a) == 0 ==> after[a].balance == 0.0)
    {
      FilteredPlanResidue(accounts, ts, FinalSheet(accounts, ts), b, full, a);
    }
  }

  lemma {:induction false} KeptResidue(b: seq<Open>, full: Plan, a: Id)
    requires OncePerAccount(b) && IsPlan(b, full) && Sum(b) == 0.0
    ensures WithinDust(Owed(b, a) + Moved(Kept(full), a), Dropped(full, a))
  {
    PlanIsExact(b, full, a);
    FilterResidue(BalanceIn(b), full, a);
    SwitchSign(Moved(full, a) - Moved(Kept(full), a), Dropped(full, a));
    assert Owed(b, a) + Moved(Kept(full), a) == - (Moved(full, a) - Moved(Kept(full), a));
  }

  lemma SwitchSign(x: real, n: nat)
    requires WithinDust(x, n)
    ensures WithinDust(- x, n)
  {
  }

  lemma {:induction false} KeptIsProper(b: seq<Open>, sheet: Sheet, full: Plan)
    requires Lists(b, sheet) && IsPlan(b, full)
    ensures ProperItems(BalanceOf(sheet), Kept(full))
  {
    ProperForSheet(b, sheet, full);
    FilterResidue(BalanceOf(sheet), full, 0);
  }

  /** The whole run: balances, plan, transfers, balances again. */
  method SettleGroup(accounts: seq<Account>, ts: seq<Transaction>) returns (before: Sheet, plan: Plan, after: Sheet)
    requires NonZeroTotals(ShareMapOf(accounts)) && TargetsListed(accounts)
    requires WellFormedOver(ts, Ids(accounts))
    ensures before == FinalSheet(accounts, ts)
    ensures after == FinalSheet(accounts, ts + Transfers(plan))
    ensures forall a :: a in after ==> after[a].balance == 0.0
    ensures ProperItems(BalanceOf(before), plan) && NoPairTwice(plan)
  {
    before := ComputeAccountBalances(accounts, ts);
    var b := EntriesOf(before);
    ghost var matches;
    plan, matches := PlanPayments(b);
    after := ComputeAccountBalances(accounts, ts + Transfers(plan));
    BalancesAddUpToZero(accounts, ts);
    PlanSettlesTheGroup(accounts, ts, b, plan);
    ProperForSheet(b, before, plan);
  }

  /** The same run with the plan the planner returns: every account ends at most half a cent away
      from zero for each item that the filter dropped on it. */
  method SettleGroupToTheCent(accounts: seq<Account>, ts: seq<Transaction>)
    returns (before: Sheet, plan: Plan, after: Sheet, ghost full: Plan)
    requires NonZeroTotals(ShareMapOf(accounts)) && TargetsListed(accounts)
    requires WellFormedOver(ts, Ids(accounts))
    ensures before == FinalSheet(accounts, ts)
    ensures Filtered(full, plan) && ProperItems(BalanceOf(before), full) && NoPairTwice(full)
    ensures after == FinalSheet(accounts, ts + Transfers(plan))
    ensures SettledToTheCent(after, full)
  {
    before := ComputeAccountBalances(accounts, ts);
    var b := EntriesOf(before);
    plan, full := ComputeGroupSettlement(b);
    after := ComputeAccountBalances(accounts, ts + Transfers(plan));
    BalancesAddUpToZero(accounts, ts);
    FilteredPlanSettles(accounts, ts, b, full);
    ProperForSheet(b, before, full);
  }
}
