/** What the balance sheet promises: it follows the recursive definition, is linear in the
    transactions, conserves money and keeps the ledger identity. */
module BalanceLaws {
  import opened Sums
  import opened TransactionEffects
  import opened ClearingGraph
  import opened BalanceEngine

  lemma SplitAdd(x: real, y: real, shares: Shares, a: Id)
    ensures Split(x + y, shares, a) == Split(x, shares, a) + Split(y, shares, a)
  {
    if a in shares && Total(shares) != 0.0 {
      var w, t := shares[a], Total(shares);
      assert (x + y) * w == x * w + y * w;
      assert (x + y) * w / t == x * w / t + y * w / t;
    }
  }

  // ---------- linearity ----------

  lemma {:induction false} InflowAdd(sm: ShareMap, t1: Id -> real, t2: Id -> real, t: Id -> real, a: Id)
    requires forall x :: t(x) == t1(x) + t2(x)
    ensures Inflow(sm, t, a) == Inflow(sm, t1, a) + Inflow(sm, t2, a)
    decreases Ancestors(sm, a)
  {
    hide OnCycle, Reaches;
    var cs := SettledSharers(sm, a);
    forall c | c in cs
      ensures Contribution(sm, t, a)(c) == Contribution(sm, t1, a)(c) + Contribution(sm, t2, a)(c)
    {
      AncestorsShrink(sm, c, a);
      InflowAdd(sm, t1, t2, t, c);
      SplitAdd(Inflow(sm, t1, c), Inflow(sm, t2, c), sm[c], a);
    }
    SumSetAdd(cs, Contribution(sm, t1, a), Contribution(sm, t2, a), Contribution(sm, t, a));
    InflowEquation(sm, t, a, cs);
    InflowEquation(sm, t1, a, cs);
    InflowEquation(sm, t2, a, cs);
  }

  lemma {:induction false} InflowCongruent(sm: ShareMap, t1: Id -> real, t2: Id -> real, a: Id)
    requires forall x :: t1(x) == t2(x)
    ensures Inflow(sm, t1, a) == Inflow(sm, t2, a)
    decreases Ancestors(sm, a)
  {
    var cs := SettledSharers(sm, a);
    forall c | c in cs ensures Contribution(sm, t1, a)(c) == Contribution(sm, t2, a)(c) {
      AncestorsShrink(sm, c, a);
      InflowCongruent(sm, t1, t2, c);
    }
    SumSetCongruent(cs, Contribution(sm, t1, a), Contribution(sm, t2, a));
    InflowEquation(sm, t1, a, cs);
    InflowEquation(sm, t2, a, cs);
  }

  /** Balances are additive in the transaction list, through the redistribution. */
  lemma {:induction false} BalancesAreLinear(accounts: seq<Account>, ts1: seq<Transaction>, ts2: seq<Transaction>, a: Id)
    ensures FinalEntry(accounts, ts1 + ts2, a).balance ==
            FinalEntry(accounts, ts1, a).balance + FinalEntry(accounts, ts2, a).balance
  {
    var sm := ShareMapOf(accounts);
    forall x ensures NetTotal(ts1 + ts2)(x) == NetTotal(ts1)(x) + NetTotal(ts2)(x) {
      SumSeqConcat(ts1, ts2, NetAt(x));
    }
    InflowAdd(sm, NetTotal(ts1), NetTotal(ts2), NetTotal(ts1 + ts2), a);
  }

  /** Any permutation of the transactions gives the same balances. */
  lemma {:induction false} BalancesIgnoreTransactionOrder(accounts: seq<Account>, ts1: seq<Transaction>,
                                                          ts2: seq<Transaction>, a: Id)
    requires multiset(ts1) == multiset(ts2)
    ensures FinalEntry(accounts, ts1, a).balance == FinalEntry(accounts, ts2, a).balance
  {
    var sm := ShareMapOf(accounts);
    forall x ensures NetTotal(ts1)(x) == NetTotal(ts2)(x) {
      SumSeqPermutation(ts1, ts2, NetAt(x));
    }
    InflowCongruent(sm, NetTotal(ts1), NetTotal(ts2), a);
  }

  // ---------- the recursive definition ----------

  /** `f` solves the inflow equations: at every account its own total, plus what every clearing
      account that shares to it passes on. */
  ghost predicate SolvesInflow(sm: ShareMap, t: Id -> real, f: Id -> real) {
    forall a :: f(a) == t(a) + SumSet(sm.Keys, PassedOn(sm, f, a))
  }

  ghost function PassedOn(sm: ShareMap, f: Id -> real, a: Id): Id -> real {
    c => if c in sm then Split(f(c), sm[c], a) else 0.0
  }

  ghost function InflowOf(sm: ShareMap, t: Id -> real): Id -> real {
    a => Inflow(sm, t, a)
  }

  /** On an acyclic graph the inflow solves the equations over all clearing accounts ... */
  lemma {:induction false} InflowSolves(sm: ShareMap, t: Id -> real)
    requires Acyclic(sm)
    ensures SolvesInflow(sm, t, InflowOf(sm, t))
  {
    AcyclicIffAllSettled(sm);
    forall a ensures InflowOf(sm, t)(a) == t(a) + SumSet(sm.Keys, PassedOn(sm, InflowOf(sm, t), a)) {
      InflowEquation(sm, t, a, sm.Keys);
      forall c | c in sm.Keys ensures Contribution(sm, t, a)(c) == PassedOn(sm, InflowOf(sm, t), a)(c) {
        assert c in SettledAccounts(sm);
      }
      SumSetCongruent(sm.Keys, Contribution(sm, t, a), PassedOn(sm, InflowOf(sm, t), a));
    }
  }

  /** ... and is the only solution. */
  lemma {:induction false} InflowIsTheOnlySolution(sm: ShareMap, t: Id -> real, f: Id -> real, a: Id)
    requires Acyclic(sm) && SolvesInflow(sm, t, f)
    ensures f(a) == Inflow(sm, t, a)
    decreases Ancestors(sm, a)
  {
    AcyclicIffAllSettled(sm);
    InflowEquation(sm, t, a, sm.Keys);
    forall c | c in sm.Keys ensures Contribution(sm, t, a)(c) == PassedOn(sm, f, a)(c) {
      assert c in SettledAccounts(sm);
      if Edge(sm, c, a) {
        AncestorsShrink(sm, c, a);
        InflowIsTheOnlySolution(sm, t, f, c);
      }
    }
    SumSetCongruent(sm.Keys, Contribution(sm, t, a), PassedOn(sm, f, a));
  }

  /** For an acyclic share graph, any solution of the equations tells every final balance. */
  lemma {:induction false} AcyclicBalances(accounts: seq<Account>, ts: seq<Transaction>, f: Id -> real, a: Id)
    requires Acyclic(ShareMapOf(accounts))
    requires SolvesInflow(ShareMapOf(accounts), NetTotal(ts), f)
    ensures FinalEntry(accounts, ts, a).balance == if a in ShareMapOf(accounts) then 0.0 else f(a)
  {
    var sm := ShareMapOf(accounts);
    AcyclicIffAllSettled(sm);
    assert a in sm ==> a in SettledAccounts(sm);
    InflowIsTheOnlySolution(sm, NetTotal(ts), f, a);
  }

  /** An account behind no settled sharer keeps what it has: here, when nothing is left on them. */
  lemma {:induction false} InflowWithoutSharers(sm: ShareMap, t: Id -> real, a: Id)
    requires forall c :: c in SettledAccounts(sm) ==> t(c) == 0.0
    ensures Inflow(sm, t, a) == t(a)
    decreases Ancestors(sm, a)
  {
    var cs := SettledSharers(sm, a);
    forall c | c in cs ensures Contribution(sm, t, a)(c) == 0.0 {
      AncestorsShrink(sm, c, a);
      assert c in SettledAccounts(sm);
      InflowWithoutSharers(sm, t, c);
      SplitAdd(0.0, 0.0, sm[c], a);
    }
    SumSetZero(cs, Contribution(sm, t, a));
    InflowEquation(sm, t, a, cs);
  }

  // ---------- conservation ----------

  ghost function BalanceOf(sheet: Sheet): Id -> real {
    a => if a in sheet then sheet[a].balance else 0.0
  }

  ghost function BeforeClearingOf(sheet: Sheet): Id -> real {
    a => if a in sheet then sheet[a].beforeClearing else 0.0
  }

  /** What a redistributed account hands to accounts that are not listed. */
  ghost function Lost(ids: set<Id>, sm: ShareMap, t: Id -> real): Id -> real {
    c => if c in sm then SumSet(sm[c].Keys - ids, SplitOf(Inflow(sm, t, c), sm[c])) else 0.0
  }

  lemma {:induction false} ListedSplits(ids: set<Id>, amount: real, shares: Shares)
    requires Total(shares) != 0.0
    ensures SumSet(ids, SplitOf(amount, shares)) == amount - SumSet(shares.Keys - ids, SplitOf(amount, shares))
  {
    var f := SplitOf(amount, shares);
    SplitsAddUp(amount, shares);
    SumSetExtend(shares.Keys, ids + shares.Keys, f);
    SumSetUnion(ids, shares.Keys - ids, f);
    assert ids + (shares.Keys - ids) == ids + shares.Keys;
  }

  ghost function ContributionTable(sm: ShareMap, t: Id -> real): Id -> Id -> real {
    a => Contribution(sm, t, a)
  }

  ghost function Arriving(sm: ShareMap, t: Id -> real): Id -> real {
    a => SumSet(SettledAccounts(sm), Contribution(sm, t, a))
  }

  lemma {:induction false} PassedOnByOne(ids: set<Id>, sm: ShareMap, t: Id -> real, c: Id)
    requires c in SettledAccounts(sm) && Total(sm[c]) != 0.0
    ensures SumSet(ids, Row(ContributionTable(sm, t), c)) == Inflow(sm, t, c) - Lost(ids, sm, t)(c)
  {
    var split := SplitOf(Inflow(sm, t, c), sm[c]);
    forall a ensures Row(ContributionTable(sm, t), c)(a) == split(a) {
      assert ContributionTable(sm, t)(a) == Contribution(sm, t, a);
    }
    SumSetCongruent(ids, Row(ContributionTable(sm, t), c), split);
    ListedSplits(ids, Inflow(sm, t, c), sm[c]);
  }

  /** All that settled accounts pass on to listed accounts. */
  lemma {:induction false} ContributionsAddUp(ids: set<Id>, sm: ShareMap, t: Id -> real)
    requires NonZeroTotals(sm)
    ensures SumSet(ids, Arriving(sm, t)) ==
            SumSet(SettledAccounts(sm), InflowOf(sm, t)) - SumSet(SettledAccounts(sm), Lost(ids, sm, t))
  {
    var settled := SettledAccounts(sm);
    var rows := c => SumSet(ids, Row(ContributionTable(sm, t), c));
    forall c | c in settled ensures InflowOf(sm, t)(c) == rows(c) + Lost(ids, sm, t)(c) {
      PassedOnByOne(ids, sm, t, c);
    }
    SumSetAdd(settled, rows, Lost(ids, sm, t), InflowOf(sm, t));
    forall a | a in ids ensures Arriving(sm, t)(a) == SumSet(settled, ContributionTable(sm, t)(a)) {
      assert ContributionTable(sm, t)(a) == Contribution(sm, t, a);
    }
    SumExchangeSets(settled, ids, ContributionTable(sm, t), Arriving(sm, t), rows);
  }

  ghost function Leaving(sm: ShareMap, t: Id -> real): Id -> real {
    a => if a in SettledAccounts(sm) then Inflow(sm, t, a) else 0.0
  }

  lemma {:induction false} LeavingAddsUp(ids: set<Id>, sm: ShareMap, t: Id -> real)
    requires sm.Keys <= ids
    ensures SumSet(ids, Leaving(sm, t)) == SumSet(SettledAccounts(sm), InflowOf(sm, t))
  {
    SumSetExtend(SettledAccounts(sm), ids, Leaving(sm, t));
    SumSetCongruent(SettledAccounts(sm), Leaving(sm, t), InflowOf(sm, t));
  }

  lemma BalanceFlow(accounts: seq<Account>, ts: seq<Transaction>, a: Id)
    requires a in Ids(accounts)
    ensures var sheet, sm, t := FinalSheet(accounts, ts), ShareMapOf(accounts), NetTotal(ts);
            BalanceOf(sheet)(a) + Leaving(sm, t)(a) == BeforeClearingOf(sheet)(a) + Arriving(sm, t)(a)
  {
    InflowEquation(ShareMapOf(accounts), NetTotal(ts), a, SettledAccounts(ShareMapOf(accounts)));
  }

  /** The sum of all balances after clearing is the sum before, less what went to unlisted accounts. */
  lemma {:induction false} RedistributionBalance(accounts: seq<Account>, ts: seq<Transaction>)
    requires NonZeroTotals(ShareMapOf(accounts))
    ensures var sheet := FinalSheet(accounts, ts);
            var sm := ShareMapOf(accounts);
            SumSet(Ids(accounts), BalanceOf(sheet)) ==
            SumSet(Ids(accounts), BeforeClearingOf(sheet))
            - SumSet(SettledAccounts(sm), Lost(Ids(accounts), sm, NetTotal(ts)))
  {
    var sheet, sm, ids, t := FinalSheet(accounts, ts), ShareMapOf(accounts), Ids(accounts), NetTotal(ts);
    var flow := a => BalanceOf(sheet)(a) + Leaving(sm, t)(a);
    forall a | a in ids ensures flow(a) == BeforeClearingOf(sheet)(a) + Arriving(sm, t)(a) {
      BalanceFlow(accounts, ts, a);
    }
    SumSetAdd(ids, BalanceOf(sheet), Leaving(sm, t), flow);
    SumSetAdd(ids, BeforeClearingOf(sheet), Arriving(sm, t), flow);
    ContributionsAddUp(ids, sm, t);
    LeavingAddsUp(ids, sm, t);
  }

  /** Every share of a clearing account goes to a listed account. */
  ghost predicate TargetsListed(accounts: seq<Account>) {
    var sm := ShareMapOf(accounts);
    forall c :: c in sm ==> sm[c].Keys <= Ids(accounts)
  }

  lemma {:induction false} RedistributionConservesMoney(accounts: seq<Account>, ts: seq<Transaction>)
    requires NonZeroTotals(ShareMapOf(accounts)) && TargetsListed(accounts)
    ensures SumSet(Ids(accounts), BalanceOf(FinalSheet(accounts, ts))) ==
            SumSet(Ids(accounts), BeforeClearingOf(FinalSheet(accounts, ts)))
  {
    var sm := ShareMapOf(accounts);
    forall c | c in SettledAccounts(sm) ensures Lost(Ids(accounts), sm, NetTotal(ts))(c) == 0.0 {
      assert sm[c].Keys - Ids(accounts) == {};
    }
    SumSetZero(SettledAccounts(sm), Lost(Ids(accounts), sm, NetTotal(ts)));
    RedistributionBalance(accounts, ts);
  }

  ghost predicate WellFormedOver(ts: seq<Transaction>, ids: set<Id>) {
    forall t :: t in ts ==> WellFormed(t) && Involved(t) <= ids
  }

  ghost function NetTable(): Id -> Transaction -> real {
    a => NetAt(a)
  }

  /** Transactions over `ids` with positive creditor and debitor totals, positions aside. */
  ghost predicate SharedOver(ts: seq<Transaction>, ids: set<Id>) {
    forall t :: t in ts ==> Total(t.creditorShares) > 0.0 && Total(t.debitorShares) > 0.0 && Involved(t) <= ids
  }

  ghost function StrandedTotal(ts: seq<Transaction>): real {
    SumSeq(ts, StrandedValue)
  }

  lemma {:induction false} NetRow(t: Transaction, ids: set<Id>)
    requires Total(t.creditorShares) > 0.0 && Total(t.debitorShares) > 0.0 && Involved(t) <= ids
    ensures SumSet(ids, Row(NetTable(), t)) == StrandedValue(t)
  {
    NetAddsUp(t, ids);
    forall a ensures NetOf(t)(a) == Row(NetTable(), t)(a) {
      assert NetTable()(a) == NetAt(a);
    }
    SumSetCongruent(ids, NetOf(t), Row(NetTable(), t));
  }

  /** Such transactions move money between accounts, except for what is stranded on positions. */
  lemma {:induction false} TransactionsMoveMoney(ts: seq<Transaction>, ids: set<Id>)
    requires SharedOver(ts, ids)
    ensures SumSet(ids, NetTotal(ts)) == StrandedTotal(ts)
  {
    forall t | t in ts ensures StrandedValue(t) == SumSet(ids, Row(NetTable(), t)) {
      NetRow(t, ids);
    }
    SumExchange(ts, ids, NetTable(), NetTotal(ts), StrandedValue);
  }

  /** The balances of a group add up to what is stranded. */
  lemma {:induction false} BalancesAddUpToStranded(accounts: seq<Account>, ts: seq<Transaction>)
    requires NonZeroTotals(ShareMapOf(accounts)) && TargetsListed(accounts)
    requires SharedOver(ts, Ids(accounts))
    ensures SumSet(Ids(accounts), BalanceOf(FinalSheet(accounts, ts))) == StrandedTotal(ts)
  {
    RedistributionConservesMoney(accounts, ts);
    TransactionsMoveMoney(ts, Ids(accounts));
    SumSetCongruent(Ids(accounts), BeforeClearingOf(FinalSheet(accounts, ts)), NetTotal(ts));
  }

  /** With well-formed transactions over listed accounts the balances of a group add up to zero. */
  lemma {:induction false} BalancesAddUpToZero(accounts: seq<Account>, ts: seq<Transaction>)
    requires NonZeroTotals(ShareMapOf(accounts)) && TargetsListed(accounts)
    requires WellFormedOver(ts, Ids(accounts))
    ensures SumSet(Ids(accounts), BalanceOf(FinalSheet(accounts, ts))) == 0.0
  {
    BalancesAddUpToStranded(accounts, ts);
    forall t | t in ts ensures StrandedValue(t) == 0.0 {
      SumSeqZero(t.positions, Stranded);
    }
    SumSeqZero(ts, StrandedValue);
  }

  // ---------- the ledger identity ----------

  ghost predicate Ledger(b: AccountBalance) {
    b.balance == b.totalPaid - b.totalConsumed - Total(b.clearingResolution)
  }

  lemma BookingKeepsLedger(b: AccountBalance, t: Transaction, a: Id)
    requires Ledger(b)
    ensures Ledger(BookEffect(b, EffectOn(t, a)))
  {
  }

  lemma {:induction false} ResolvedTotal(resolution: map<Id, real>, split: Id -> real, keys: set<Id>)
    ensures Total(Resolved(resolution, split, keys)) == Total(resolution) + SumSet(keys, split)
  {
    var all := resolution.Keys + keys;
    var handed := (k: Id) => if k in keys then split(k) else 0.0;
    assert Resolved(resolution, split, keys).Keys == all;
    SumSetExtend(resolution.Keys, all, WeightOf(resolution));
    SumSetCongruent(keys, split, handed);
    SumSetExtend(keys, all, handed);
    SumSetAdd(all, WeightOf(resolution), handed, WeightOf(Resolved(resolution, split, keys)));
  }

  lemma {:induction false} HandingOutKeepsLedger(sheet: Sheet, c: Id, split: Id -> real, keys: set<Id>, a: Id)
    requires a in sheet && c in sheet && Ledger(sheet[a])
    requires SumSet(keys, split) == sheet[c].balance
    ensures Ledger(HandedOut(sheet, c, split, keys, a))
  {
    ResolvedTotal(sheet[c].clearingResolution, split, keys);
  }

  /** A completed redistribution of any account, in any sheet, keeps the identity everywhere. */
  lemma {:induction false} ClearingKeepsLedger(sheet: Sheet, c: Id, shares: Shares)
    requires Total(shares) != 0.0 && c in sheet
    requires forall a :: a in sheet ==> Ledger(sheet[a])
    ensures forall a :: a in sheet ==> Ledger(Cleared(sheet, c, shares)[a])
  {
    SplitsAddUp(sheet[c].balance, shares);
    forall a | a in sheet ensures Ledger(Cleared(sheet, c, shares)[a]) {
      HandingOutKeepsLedger(sheet, c, SplitOf(sheet[c].balance, shares), shares.Keys, a);
    }
  }

  /** At the end: paid minus consumed is what flowed in, for every account; a redistributed
      account has balance zero and has resolved exactly that amount, any other nothing. */
  lemma {:induction false} FinalLedger(accounts: seq<Account>, ts: seq<Transaction>, a: Id)
    requires NonZeroTotals(ShareMapOf(accounts))
    ensures var sm := ShareMapOf(accounts);
            var b := FinalEntry(accounts, ts, a);
            && Ledger(b)
            && b.totalPaid - b.totalConsumed == Inflow(sm, NetTotal(ts), a)
            && (Settled(sm, a) ==> b.balance == 0.0 && Total(b.clearingResolution) == b.totalPaid - b.totalConsumed)
            && (!Settled(sm, a) ==> b.clearingResolution == map[])
  {
    var sm, t := ShareMapOf(accounts), NetTotal(ts);
    var b := FinalEntry(accounts, ts, a);
    PaidMinusConsumed(sm, ts, a);
    if Settled(sm, a) {
      ResolutionTotal(sm, t, a);
    } else {
      assert Total(b.clearingResolution) == 0.0;
    }
  }

  lemma {:induction false} ResolutionTotal(sm: ShareMap, t: Id -> real, c: Id)
    requires c in sm && Total(sm[c]) != 0.0
    ensures Total(Resolution(sm, t, c)) == Inflow(sm, t, c)
  {
    var split := SplitOf(Inflow(sm, t, c), sm[c]);
    SplitsAddUp(Inflow(sm, t, c), sm[c]);
    SumSetCongruent(sm[c].Keys, split, WeightOf(Resolution(sm, t, c)));
    assert Resolution(sm, t, c).Keys == sm[c].Keys;
  }

  // ---------- the rules determine the sheet ----------

  lemma SettledIsListed(accounts: seq<Account>, c: Id)
    requires Settled(ShareMapOf(accounts), c)
    ensures c in ShareMapOf(accounts) && c in Ids(accounts) && c in SettledAccounts(ShareMapOf(accounts))
  {
  }

  /** What one account resolves to another is what it passes on, once its own inflow is known. */
  lemma {:induction false} ResolvesItsInflow(accounts: seq<Account>, ts: seq<Transaction>, sheet: Sheet, c: Id, a: Id)
    requires NonZeroTotals(ShareMapOf(accounts)) && ObeysRules(accounts, ts, sheet) && c in sheet
    requires Settled(ShareMapOf(accounts), c) && Edge(ShareMapOf(accounts), c, a) ==>
               sheet[c].totalPaid - sheet[c].totalConsumed == Inflow(ShareMapOf(accounts), NetTotal(ts), c)
    ensures ResolvedTo(sheet, a)(c) == Contribution(ShareMapOf(accounts), NetTotal(ts), a)(c)
  {
    hide OnCycle, Reaches, Inflow, Total, SumSet, SumSeq, ShareMapOf, DividesAll, Given, Taken;
    var sm := ShareMapOf(accounts);
    assert EntryObeys(sm, ts, sheet, c);
    if Settled(sm, c) {
      SettledIsListed(accounts, c);
      var inflow := Inflow(sm, NetTotal(ts), c);
      SplitDivides(inflow, sm[c]);
      if a in sm[c] {
        DivisionIsUnique(inflow, sm[c], SplitOf(inflow, sm[c]), WeightOf(sheet[c].clearingResolution), a);
      }
    }
  }

  lemma {:induction false} RulesGiveInflow(accounts: seq<Account>, ts: seq<Transaction>, sheet: Sheet, a: Id)
    requires NonZeroTotals(ShareMapOf(accounts)) && ObeysRules(accounts, ts, sheet) && a in sheet
    ensures sheet[a].totalPaid - sheet[a].totalConsumed == Inflow(ShareMapOf(accounts), NetTotal(ts), a)
    ensures forall c :: c in sheet ==>
                          ResolvedTo(sheet, a)(c) == Contribution(ShareMapOf(accounts), NetTotal(ts), a)(c)
    decreases Ancestors(ShareMapOf(accounts), a)
  {
    hide OnCycle, Reaches, Inflow, Total, SumSet, SumSeq, ShareMapOf, DividesAll;
    var sm := ShareMapOf(accounts);
    forall c | c in sheet ensures ResolvedTo(sheet, a)(c) == Contribution(sm, NetTotal(ts), a)(c) {
      if Settled(sm, c) && Edge(sm, c, a) {
        AncestorsShrink(sm, c, a);
        RulesGiveInflow(accounts, ts, sheet, c);
      }
      ResolvesItsInflow(accounts, ts, sheet, c, a);
    }
    assert EntryObeys(sm, ts, sheet, a);
    SheetSums(accounts, ts, sheet, a);
    PaidMinusConsumed(sm, ts, a);
  }

  lemma {:induction false} SheetSums(accounts: seq<Account>, ts: seq<Transaction>, sheet: Sheet, a: Id)
    requires sheet.Keys == Ids(accounts)
    requires forall c :: c in sheet ==>
                           ResolvedTo(sheet, a)(c) == Contribution(ShareMapOf(accounts), NetTotal(ts), a)(c)
    ensures var sm := ShareMapOf(accounts);
            && SumSet(sheet.Keys, Given(ResolvedTo(sheet, a))) ==
               SumSet(SettledAccounts(sm), Given(Contribution(sm, NetTotal(ts), a)))
            && SumSet(sheet.Keys, Taken(ResolvedTo(sheet, a))) ==
               SumSet(SettledAccounts(sm), Taken(Contribution(sm, NetTotal(ts), a)))
  {
    hide ResolvedTo, Split, Inflow, OnCycle, Reaches;
    var sm := ShareMapOf(accounts);
    var resolved, contributed := ResolvedTo(sheet, a), Contribution(sm, NetTotal(ts), a);
    forall c | c in sheet
      ensures Given(resolved)(c) == Given(contributed)(c) && Taken(resolved)(c) == Taken(contributed)(c)
      ensures c !in SettledAccounts(sm) ==> Given(contributed)(c) == 0.0 && Taken(contributed)(c) == 0.0
    {
      assert resolved(c) == contributed(c);
    }
    SumSetCongruent(sheet.Keys, Given(resolved), Given(contributed));
    SumSetCongruent(sheet.Keys, Taken(resolved), Taken(contributed));
    assert SettledAccounts(sm) <= sheet.Keys;
    SumSetExtend(SettledAccounts(sm), sheet.Keys, Given(contributed));
    SumSetExtend(SettledAccounts(sm), sheet.Keys, Taken(contributed));
  }

  lemma {:induction false} RulesDetermineResolution(accounts: seq<Account>, ts: seq<Transaction>, sheet: Sheet, a: Id)
    requires NonZeroTotals(ShareMapOf(accounts)) && ObeysRules(accounts, ts, sheet) && a in sheet
    requires Settled(ShareMapOf(accounts), a)
    ensures a in ShareMapOf(accounts)
    ensures sheet[a].clearingResolution == Resolution(ShareMapOf(accounts), NetTotal(ts), a)
  {
    hide OnCycle, Reaches, Inflow, Total, SumSet, SumSeq, ShareMapOf, ResolvedTo, DividesAll, Split;
    var sm := ShareMapOf(accounts);
    var inflow, resolution := Inflow(sm, NetTotal(ts), a), Resolution(sm, NetTotal(ts), a);
    assert EntryObeys(sm, ts, sheet, a);
    RulesGiveInflow(accounts, ts, sheet, a);
    SettledIsListed(accounts, a);
    ResolutionDivides(sm, NetTotal(ts), a);
    forall k | k in sm[a] ensures sheet[a].clearingResolution[k] == resolution[k] {
      DivisionIsUnique(inflow, sm[a], WeightOf(sheet[a].clearingResolution), WeightOf(resolution), k);
    }
  }

  lemma {:induction false} RulesDetermineEntry(accounts: seq<Account>, ts: seq<Transaction>, sheet: Sheet, a: Id)
    requires NonZeroTotals(ShareMapOf(accounts)) && ObeysRules(accounts, ts, sheet) && a in sheet
    ensures sheet[a] == FinalEntry(accounts, ts, a)
  {
    hide Settled, Inflow, Total, SumSet, SumSeq, ShareMapOf, ResolvedTo, DividesAll, Resolution;
    var sm := ShareMapOf(accounts);
    assert EntryObeys(sm, ts, sheet, a);
    RulesGiveInflow(accounts, ts, sheet, a);
    SheetSums(accounts, ts, sheet, a);
    if Settled(sm, a) {
      RulesDetermineResolution(accounts, ts, sheet, a);
    }
  }

  /** There is exactly one sheet that obeys the rules, on every share graph. */
  lemma {:induction false} RulesDetermineTheSheet(accounts: seq<Account>, ts: seq<Transaction>, sheet: Sheet)
    requires NonZeroTotals(ShareMapOf(accounts))
    ensures ObeysRules(accounts, ts, sheet) <==> sheet == FinalSheet(accounts, ts)
  {
    hide FinalEntry, EntryObeys, NonZeroTotals;
    FinalSheetObeys(accounts, ts);
    if ObeysRules(accounts, ts, sheet) {
      forall a | a in sheet ensures sheet[a] == FinalEntry(accounts, ts, a) {
        RulesDetermineEntry(accounts, ts, sheet, a);
      }
      assert sheet.Keys == FinalSheet(accounts, ts).Keys;
    }
  }
}
