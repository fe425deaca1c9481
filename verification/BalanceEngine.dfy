/** Account balances: the effects of all transactions, then the redistribution of the clearing
    accounts (frontend/libs/core/src/lib/accounts.ts, lines 53 to 178). */
module BalanceEngine {
  import opened Sums
  import opened TransactionEffects
  import opened ClearingGraph

  /** A clearing account without shares (null or empty in the source) has an empty map. */
  datatype Account =
    | Personal(id: Id)
    | Clearing(id: Id, clearingShares: Shares, dateInfo: int)

  datatype AccountBalance = AccountBalance(
    balance: real,
    beforeClearing: real,
    totalConsumed: real,
    totalPaid: real,
    clearingResolution: map<Id, real>)

  type Sheet = map<Id, AccountBalance>

  const UNTOUCHED := AccountBalance(0.0, 0.0, 0.0, 0.0, map[])

  ghost function Ids(accounts: seq<Account>): set<Id> {
    set i | 0 <= i < |accounts| :: accounts[i].id
  }

  predicate SharesOut(account: Account) {
    account.Clearing? && account.clearingShares != map[]
  }

  ghost function ShareMapOf(accounts: seq<Account>): (sm: ShareMap)
    ensures sm.Keys <= Ids(accounts)
    ensures forall c :: c in sm ==> sm[c] != map[]
  {
    if accounts == [] then map[]
    else
      var n := |accounts| - 1;
      var sm := ShareMapOf(accounts[..n]);
      assert Ids(accounts) == Ids(accounts[..n]) + {accounts[n].id};
      if SharesOut(accounts[n]) then sm[accounts[n].id := accounts[n].clearingShares] else sm
  }

  /** The total weight of every account that is redistributed is divided by. */
  ghost predicate NonZeroTotals(sm: ShareMap) {
    forall c :: c in SettledAccounts(sm) ==> Total(sm[c]) != 0.0
  }

  /** What `a` gets when `amount` is split by the given shares. */
  ghost function Split(amount: real, shares: Shares, a: Id): real {
    if a in shares && Total(shares) != 0.0 then amount * shares[a] / Total(shares) else 0.0
  }

  // ---------- totals over all transactions ----------

  ghost function NetAt(a: Id): Transaction -> real { t => Net(t, a) }
  ghost function PaidAt(a: Id): Transaction -> real { t => Credit(t, a) }
  ghost function ConsumedAt(a: Id): Transaction -> real { t => Debit(t, a) + Positions(t, a) }

  ghost function NetTotal(ts: seq<Transaction>): Id -> real { a => SumSeq(ts, NetAt(a)) }
  ghost function PaidTotal(ts: seq<Transaction>): Id -> real { a => SumSeq(ts, PaidAt(a)) }
  ghost function ConsumedTotal(ts: seq<Transaction>): Id -> real { a => SumSeq(ts, ConsumedAt(a)) }

  // ---------- the recursive definition over the share graph ----------

  ghost function Ancestors(sm: ShareMap, a: Id): set<Id> {
    set d | d in sm.Keys && Reaches(sm, d, a)
  }

  ghost function SettledSharers(sm: ShareMap, a: Id): set<Id> {
    set c | c in sm.Keys && Edge(sm, c, a) && Settled(sm, c)
  }

  lemma AncestorsShrink(sm: ShareMap, c: Id, a: Id)
    requires Edge(sm, c, a) && Settled(sm, c)
    ensures Ancestors(sm, c) < Ancestors(sm, a)
  {
    ReachesByEdge(sm, c, a);
    assert c in Ancestors(sm, a) && c !in Ancestors(sm, c);
    forall d | d in Ancestors(sm, c) ensures d in Ancestors(sm, a) {
      ReachesTransitively(sm, d, c, a);
    }
  }

  /** What arrives at `a`: its own total `t(a)`, and its share of what arrives at every clearing
      account that shares to it.  Clearing accounts on or behind a cycle pass nothing on. */
  ghost function Inflow(sm: ShareMap, t: Id -> real, a: Id): real
    decreases Ancestors(sm, a), 1
  {
    t(a) + InflowFrom(sm, t, SettledSharers(sm, a), a)
  }

  ghost function InflowFrom(sm: ShareMap, t: Id -> real, cs: set<Id>, a: Id): real
    requires cs <= SettledSharers(sm, a)
    decreases Ancestors(sm, a), 0, cs
  {
    if cs == {} then 0.0
    else
      var c := AnyOf(cs);
      AncestorsShrink(sm, c, a);
      Split(Inflow(sm, t, c), sm[c], a) + InflowFrom(sm, t, cs - {c}, a)
  }

  /** What the settled account `c` passes on to `a`. */
  ghost function Contribution(sm: ShareMap, t: Id -> real, a: Id): Id -> real {
    c => if Settled(sm, c) then Split(Inflow(sm, t, c), sm[c], a) else 0.0
  }

  lemma {:induction false} InflowFromIsSum(sm: ShareMap, t: Id -> real, cs: set<Id>, a: Id)
    requires cs <= SettledSharers(sm, a)
    ensures InflowFrom(sm, t, cs, a) == SumSet(cs, Contribution(sm, t, a))
    decreases cs
  {
    if cs != {} {
      var c := AnyOf(cs);
      SumSetPick(cs, c, Contribution(sm, t, a));
      InflowFromIsSum(sm, t, cs - {c}, a);
    }
  }

  /** The defining equation, as a sum over any set of settled accounts that holds all sharers. */
  lemma {:induction false} InflowEquation(sm: ShareMap, t: Id -> real, a: Id, cs: set<Id>)
    requires SettledSharers(sm, a) <= cs <= SettledAccounts(sm)
    ensures Inflow(sm, t, a) == t(a) + SumSet(cs, Contribution(sm, t, a))
  {
    InflowFromIsSum(sm, t, SettledSharers(sm, a), a);
    forall c | c in cs - SettledSharers(sm, a) ensures Contribution(sm, t, a)(c) == 0.0 {
    }
    SumSetExtend(SettledSharers(sm, a), cs, Contribution(sm, t, a));
  }

  // ---------- one clearing step ----------

  ghost function Positive(x: real): (r: real)
    ensures r >= 0.0 && r >= x && (r == 0.0 || r == x)
  {
    if x > 0.0 then x else 0.0
  }

  ghost function Negative(x: real): (r: real)
    ensures r >= 0.0 && r >= - x && (r == 0.0 || r == - x)
  {
    if x > 0.0 then 0.0 else - x
  }

  ghost function Credited(b: AccountBalance, share: real): AccountBalance {
    b.(balance := b.balance + share,
       totalPaid := b.totalPaid + Positive(share),
       totalConsumed := b.totalConsumed + Negative(share))
  }

  ghost function SplitOf(amount: real, shares: Shares): Id -> real {
    a => Split(amount, shares, a)
  }

  ghost function Resolved(resolution: map<Id, real>, split: Id -> real, keys: set<Id>): map<Id, real> {
    map k | k in resolution.Keys + keys :: Weight(resolution, k) + if k in keys then split(k) else 0.0
  }

  /** The entry of `a` once the clearing account `c` has handed its split to the accounts `done`. */
  ghost function HandedOut(sheet: Sheet, c: Id, split: Id -> real, done: set<Id>, a: Id): AccountBalance
    requires a in sheet
  {
    var own := if a == c
               then sheet[a].(balance := 0.0, clearingResolution := Resolved(sheet[a].clearingResolution, split, done))
               else sheet[a];
    if a in done then Credited(own, split(a)) else own
  }

  /** The whole sheet after clearing account `c` has been redistributed. */
  ghost function Cleared(sheet: Sheet, c: Id, shares: Shares): Sheet {
    if c !in sheet then sheet
    else map a | a in sheet :: HandedOut(sheet, c, SplitOf(sheet[c].balance, shares), shares.Keys, a)
  }

  // ---------- what one step does, in the sheet's own terms ----------

  lemma SplitsInProportion(amount: real, shares: Shares, a: Id, b: Id)
    requires a in shares && b in shares
    ensures InProportion(Split(amount, shares, a), shares[a], Split(amount, shares, b), shares[b])
  {
    var total := Total(shares);
    if total != 0.0 {
      var v, w := shares[a], shares[b];
      assert amount * v * w == amount * w * v;
      assert amount * v / total * w == amount * v * w / total;
      assert amount * w / total * v == amount * w * v / total;
    }
  }

  lemma {:induction false} SplitsAddUp(amount: real, shares: Shares)
    requires Total(shares) != 0.0
    ensures SumSet(shares.Keys, SplitOf(amount, shares)) == amount
  {
    var total := Total(shares);
    forall a | a in shares.Keys ensures Scaled(amount / total, WeightOf(shares)(a), SplitOf(amount, shares)(a)) {
      assert amount * shares[a] / total == amount / total * shares[a];
    }
    SumSetScale(shares.Keys, amount / total, WeightOf(shares), SplitOf(amount, shares));
    assert amount / total * total == amount;
  }

  /** A clearing balance is divided whole and in proportion to the weights. */
  lemma {:induction false} SplitDivides(amount: real, shares: Shares)
    requires Total(shares) != 0.0
    ensures DividesAll(amount, shares, SplitOf(amount, shares))
  {
    hide InProportion, SumSet;
    SplitsAddUp(amount, shares);
    forall a, b | a in shares && b in shares
      ensures InProportion(SplitOf(amount, shares)(a), shares[a], SplitOf(amount, shares)(b), shares[b])
    {
      SplitsInProportion(amount, shares, a, b);
    }
  }

  /** What account `c` has resolved to each account between the two sheets. */
  ghost function NewlyResolved(before: Sheet, after: Sheet, c: Id): Id -> real
    requires c in before && c in after
  {
    a => Weight(after[c].clearingResolution, a) - Weight(before[c].clearingResolution, a)
  }

  /** An account takes a share as paid when it is positive and as consumed otherwise. */
  ghost predicate TakesShare(before: AccountBalance, after: AccountBalance, share: real) {
    && after.beforeClearing == before.beforeClearing
    && after.totalPaid == before.totalPaid + (if share > 0.0 then share else 0.0)
    && after.totalConsumed == before.totalConsumed - (if share > 0.0 then 0.0 else share)
  }

  /** `c` is emptied, its balance is divided by the weights, and every listed account gets what `c`
      has resolved to it. */
  ghost predicate ClearsAccount(before: Sheet, c: Id, shares: Shares, after: Sheet)
    requires c in before
  {
    && after.Keys == before.Keys
    && after[c].clearingResolution.Keys == before[c].clearingResolution.Keys + shares.Keys
    && DividesAll(before[c].balance, shares, NewlyResolved(before, after, c))
    && (forall a :: a in before ==> TakesShare(before[a], after[a], NewlyResolved(before, after, c)(a)))
    && (forall a :: a in before ==>
                      after[a].balance == (if a == c then 0.0 else before[a].balance) + NewlyResolved(before, after, c)(a))
    && (forall a :: a in before && a != c ==> after[a].clearingResolution == before[a].clearingResolution)
  }

  lemma ClearedResolves(sheet: Sheet, c: Id, shares: Shares, a: Id)
    requires c in sheet
    ensures var split := SplitOf(sheet[c].balance, shares);
            NewlyResolved(sheet, Cleared(sheet, c, shares), c)(a) == split(a)
    ensures Cleared(sheet, c, shares)[c].clearingResolution.Keys == sheet[c].clearingResolution.Keys + shares.Keys
  {
    hide Total, Split;
    NothingBeyondShares(sheet[c].balance, shares, a);
  }

  lemma ClearedTakes(sheet: Sheet, c: Id, shares: Shares, a: Id)
    requires c in sheet && a in sheet
    ensures var after, share := Cleared(sheet, c, shares)[a], Split(sheet[c].balance, shares, a);
            && TakesShare(sheet[a], after, share)
            && after.balance == (if a == c then 0.0 else sheet[a].balance) + share
            && (a != c ==> after.clearingResolution == sheet[a].clearingResolution)
  {
    hide Total, Resolved, Split;
    NothingBeyondShares(sheet[c].balance, shares, a);
  }

  lemma {:induction false} ClearedClears(sheet: Sheet, c: Id, shares: Shares)
    requires Total(shares) != 0.0 && c in sheet
    ensures ClearsAccount(sheet, c, shares, Cleared(sheet, c, shares))
  {
    hide DividesAll, Split, TakesShare, NewlyResolved, HandedOut, Total;
    var after, split := Cleared(sheet, c, shares), SplitOf(sheet[c].balance, shares);
    SplitDivides(sheet[c].balance, shares);
    forall a ensures NewlyResolved(sheet, after, c)(a) == split(a) {
      ClearedResolves(sheet, c, shares, a);
    }
    ClearedResolves(sheet, c, shares, c);
    SamePartsDivideAll(sheet[c].balance, shares, split, NewlyResolved(sheet, after, c));
    forall a | a in sheet
      ensures TakesShare(sheet[a], after[a], split(a))
      ensures after[a].balance == (if a == c then 0.0 else sheet[a].balance) + split(a)
      ensures a != c ==> after[a].clearingResolution == sheet[a].clearingResolution
    {
      ClearedTakes(sheet, c, shares, a);
    }
  }

  lemma NothingBeyondShares(amount: real, shares: Shares, a: Id)
    ensures a !in shares ==> Split(amount, shares, a) == 0.0
  {
  }

  method ClearAccount(sheet: Sheet, c: Id, shares: Shares) returns (r: Sheet)
    requires Total(shares) != 0.0
    ensures r == Cleared(sheet, c, shares)
    ensures if c in sheet then ClearsAccount(sheet, c, shares, r) else r == sheet
  {
    hide ClearsAccount;
    if c in sheet {
      ClearedClears(sheet, c, shares);
    }
    if c !in sheet {
      return sheet;
    }
    var toSplit := sheet[c].balance;
    r := sheet[c := sheet[c].(balance := 0.0)];
    var totalShares := SumValues(shares);
    r := HandOutShares(r, c, toSplit, totalShares, shares, sheet, SplitOf(toSplit, shares));
  }

  method HandOutShares(start: Sheet, c: Id, toSplit: real, totalShares: real, shares: Shares,
                       ghost before: Sheet, ghost split: Id -> real) returns (r: Sheet)
    requires c in before && start == before[c := before[c].(balance := 0.0)]
    requires totalShares == Total(shares) != 0.0
    requires split == SplitOf(toSplit, shares)
    ensures r.Keys == before.Keys
    ensures forall a :: a in before ==> r[a] == HandedOut(before, c, split, shares.Keys, a)
  {
    r := start;
    var todo := shares.Keys;
    assert Resolved(before[c].clearingResolution, split, {}) == before[c].clearingResolution;
    assert shares.Keys - todo == {};
    while todo != {}
      invariant todo <= shares.Keys && r.Keys == before.Keys
      invariant forall a :: a in before ==> r[a] == HandedOut(before, c, split, shares.Keys - todo, a)
      decreases todo
    {
      var k := NextKey(todo);
      var accShare := toSplit * shares[k] / totalShares;
      r := HandOut(r, c, k, accShare, before, split, shares.Keys - todo);
      assert shares.Keys - (todo - {k}) == shares.Keys - todo + {k};
      todo := todo - {k};
    }
    assert shares.Keys - todo == shares.Keys;
  }

  method RecordShare(resolution: map<Id, real>, k: Id, accShare: real) returns (r: map<Id, real>)
    ensures r == resolution[k := Weight(resolution, k) + accShare]
  {
    if k in resolution && resolution[k] != 0.0 {
      r := resolution[k := resolution[k] + accShare];
    } else {
      r := resolution[k := accShare];
    }
  }

  method GiveShare(sheet: Sheet, k: Id, accShare: real) returns (r: Sheet)
    ensures r == if k in sheet then sheet[k := Credited(sheet[k], accShare)] else sheet
    ensures forall a :: a in sheet ==>
                          && r[a].balance == sheet[a].balance + (if a == k then accShare else 0.0)
                          && TakesShare(sheet[a], r[a], if a == k then accShare else 0.0)
  {
    r := sheet;
    if k in r {
      r := r[k := r[k].(balance := r[k].balance + accShare)];
      if accShare > 0.0 {
        r := r[k := r[k].(totalPaid := r[k].totalPaid + accShare)];
      } else {
        r := r[k := r[k].(totalConsumed := r[k].totalConsumed - accShare)];
      }
    }
  }

  lemma HandedOutPush(before: Sheet, c: Id, split: Id -> real, done: set<Id>, k: Id, a: Id)
    requires a in before && k !in done
    ensures HandedOut(before, c, split, done + {k}, a) ==
            var b := HandedOut(before, c, split, done, a);
            var own := if a == c
                       then b.(clearingResolution := Resolved(before[c].clearingResolution, split, done + {k}))
                       else b;
            if a == k then Credited(own, split(k)) else own
  {
  }

  method HandOut(sheet: Sheet, c: Id, k: Id, accShare: real,
                 ghost before: Sheet, ghost split: Id -> real, ghost done: set<Id>) returns (r: Sheet)
    requires c in sheet && sheet.Keys == before.Keys && k !in done && accShare == split(k)
    requires forall a :: a in before ==> sheet[a] == HandedOut(before, c, split, done, a)
    ensures r.Keys == before.Keys
    ensures forall a :: a in before ==> r[a] == HandedOut(before, c, split, done + {k}, a)
  {
    var resolution := RecordShare(sheet[c].clearingResolution, k, accShare);
    assert resolution == Resolved(before[c].clearingResolution, split, done + {k});
    r := sheet[c := sheet[c].(clearingResolution := resolution)];
    r := GiveShare(r, k, accShare);
    forall a | a in before ensures r[a] == HandedOut(before, c, split, done + {k}, a) {
      HandedOutPush(before, c, split, done, k, a);
    }
  }

  // ---------- the balance sheet, order-free ----------

  ghost function Given(f: Id -> real): Id -> real { c => Positive(f(c)) }

  ghost function Taken(f: Id -> real): Id -> real { c => Negative(f(c)) }

  /** An entry after every clearing account `c` of `done` has passed `f(c)` on to it. */
  ghost function CreditedAll(b: AccountBalance, f: Id -> real, done: set<Id>): AccountBalance {
    b.(balance := b.balance + SumSet(done, f),
       totalPaid := b.totalPaid + SumSet(done, Given(f)),
       totalConsumed := b.totalConsumed + SumSet(done, Taken(f)))
  }

  lemma {:induction false} CreditedAllPush(b: AccountBalance, f: Id -> real, done: set<Id>, c: Id)
    requires c !in done
    ensures CreditedAll(b, f, done + {c}) == Credited(CreditedAll(b, f, done), f(c))
  {
    SumSetInsert(done, c, f);
    SumSetInsert(done, c, Given(f));
    SumSetInsert(done, c, Taken(f));
  }

  /** The entry of `a` after the transactions `ts` and before any clearing. */
  ghost function Booked(ts: seq<Transaction>, a: Id): AccountBalance {
    AccountBalance(NetTotal(ts)(a), NetTotal(ts)(a), ConsumedTotal(ts)(a), PaidTotal(ts)(a), map[])
  }

  ghost function Resolution(sm: ShareMap, t: Id -> real, c: Id): map<Id, real>
    requires c in sm
  {
    map k | k in sm[c] :: Split(Inflow(sm, t, c), sm[c], k)
  }

  ghost function Emptied(b: AccountBalance, resolution: map<Id, real>): AccountBalance {
    b.(balance := 0.0, clearingResolution := resolution)
  }

  /** The entry of `a` when exactly the clearing accounts `done` have been redistributed. */
  ghost function EntryAfter(sm: ShareMap, ts: seq<Transaction>, done: set<Id>, a: Id): AccountBalance {
    var t := NetTotal(ts);
    var b := CreditedAll(Booked(ts, a), Contribution(sm, t, a), done);
    if a in done && a in sm then Emptied(b, Resolution(sm, t, a)) else b
  }

  ghost predicate SheetAfter(sheet: Sheet, ids: set<Id>, sm: ShareMap, ts: seq<Transaction>, done: set<Id>) {
    && sheet.Keys == ids
    && forall a :: a in ids ==> HasEntryAfter(sheet, sm, ts, done, a)
  }

  ghost predicate HasEntryAfter(sheet: Sheet, sm: ShareMap, ts: seq<Transaction>, done: set<Id>, a: Id) {
    a in sheet && sheet[a] == EntryAfter(sm, ts, done, a)
  }

  /** Accounts `done` have been redistributed, `c` is next: all its sharers, and all sharers of
      accounts already redistributed, are among them. */
  ghost predicate IsNext(sm: ShareMap, done: set<Id>, c: Id) {
    && done + {c} <= SettledAccounts(sm) && c !in done
    && forall a, d :: a in done + {c} && Edge(sm, d, a) ==> d in done
  }

  lemma NothingReturns(sm: ShareMap, t: Id -> real, done: set<Id>, c: Id, a: Id)
    requires IsNext(sm, done, c) && a in done + {c}
    ensures Contribution(sm, t, a)(c) == 0.0
  {
    assert !Edge(sm, c, a);
  }

  /** The entry of `a` after `c` has passed on all that flowed into it, given the one before. */
  ghost function NextEntry(sm: ShareMap, t: Id -> real, c: Id, a: Id, b: AccountBalance): AccountBalance
    requires c in sm
  {
    Credited(if a == c then Emptied(b, Resolution(sm, t, c)) else b, Contribution(sm, t, a)(c))
  }

  lemma {:induction false} ClearingStepAt(sm: ShareMap, ts: seq<Transaction>, done: set<Id>, c: Id, a: Id)
    requires c !in done && c in sm
    requires a in done + {c} ==> Contribution(sm, NetTotal(ts), a)(c) == 0.0
    ensures EntryAfter(sm, ts, done + {c}, a) == NextEntry(sm, NetTotal(ts), c, a, EntryAfter(sm, ts, done, a))
  {
    CreditedAllPush(Booked(ts, a), Contribution(sm, NetTotal(ts), a), done, c);
  }

  lemma HandsOutInflow(sheet: Sheet, sm: ShareMap, t: Id -> real, c: Id, a: Id)
    requires a in sheet && c in sheet && Settled(sm, c)
    requires sheet[c].balance == Inflow(sm, t, c) && sheet[c].clearingResolution == map[]
    ensures HandedOut(sheet, c, SplitOf(sheet[c].balance, sm[c]), sm[c].Keys, a) == NextEntry(sm, t, c, a, sheet[a])
  {
    var split := SplitOf(sheet[c].balance, sm[c]);
    assert split(a) == Contribution(sm, t, a)(c);
    assert Resolved(map[], split, sm[c].Keys) == Resolution(sm, t, c);
  }

  /** When its turn comes, a clearing account holds all that will ever flow into it. */
  lemma {:induction false} ToSplit(sheet: Sheet, ids: set<Id>, sm: ShareMap, ts: seq<Transaction>,
                                   done: set<Id>, c: Id)
    requires sm.Keys <= ids && IsNext(sm, done, c)
    requires SheetAfter(sheet, ids, sm, ts, done)
    ensures c in sheet && sheet[c].balance == Inflow(sm, NetTotal(ts), c) && sheet[c].clearingResolution == map[]
  {
    InflowEquation(sm, NetTotal(ts), c, done);
    assert c in SettledAccounts(sm);
    assert HasEntryAfter(sheet, sm, ts, done, c);
  }

  lemma {:induction false} ClearedEntry(sheet: Sheet, ids: set<Id>, sm: ShareMap, ts: seq<Transaction>,
                                        done: set<Id>, c: Id, a: Id)
    requires sm.Keys <= ids && IsNext(sm, done, c)
    requires SheetAfter(sheet, ids, sm, ts, done) && a in ids
    ensures c in sm && HasEntryAfter(Cleared(sheet, c, sm[c]), sm, ts, done + {c}, a)
  {
    ToSplit(sheet, ids, sm, ts, done, c);
    assert HasEntryAfter(sheet, sm, ts, done, a);
    HandsOutInflow(sheet, sm, NetTotal(ts), c, a);
    if a in done + {c} {
      NothingReturns(sm, NetTotal(ts), done, c, a);
    }
    ClearingStepAt(sm, ts, done, c, a);
  }

  /** One step of the redistribution brings the sheet from `done` to `done + {c}`. */
  lemma {:induction false} ClearingStep(sheet: Sheet, ids: set<Id>, sm: ShareMap, ts: seq<Transaction>,
                                        done: set<Id>, c: Id)
    requires sm.Keys <= ids && IsNext(sm, done, c)
    requires SheetAfter(sheet, ids, sm, ts, done)
    ensures SheetAfter(Cleared(sheet, c, sm[c]), ids, sm, ts, done + {c})
  {
    var after := Cleared(sheet, c, sm[c]);
    assert after.Keys == ids;
    forall a | a in ids ensures HasEntryAfter(after, sm, ts, done + {c}, a) {
      ClearedEntry(sheet, ids, sm, ts, done, c, a);
    }
  }

  // ---------- the loops ----------

  method InitialSheet(accounts: seq<Account>) returns (sheet: Sheet)
    ensures sheet.Keys == Ids(accounts)
    ensures forall a :: a in sheet ==> sheet[a] == UNTOUCHED
  {
    sheet := map[];
    for i := 0 to |accounts|
      invariant sheet.Keys == Ids(accounts[..i])
      invariant forall a :: a in sheet ==> sheet[a] == UNTOUCHED
    {
      IdsPush(accounts, i);
      sheet := sheet[accounts[i].id := UNTOUCHED];
    }
    assert accounts[..|accounts|] == accounts;
  }

  lemma IdsPush(accounts: seq<Account>, i: nat)
    requires i < |accounts|
    ensures Ids(accounts[..i + 1]) == Ids(accounts[..i]) + {accounts[i].id}
  {
    var longer := accounts[..i + 1];
    assert longer[i] == accounts[i];
    forall a | a in Ids(accounts[..i]) ensures a in Ids(longer) {
      var j :| 0 <= j < i && accounts[j].id == a;
      assert longer[j] == accounts[j];
    }
  }

  /** Account `i` is the last clearing account with its id that has shares. */
  ghost predicate LastSharing(accounts: seq<Account>, i: nat, c: Id) {
    && i < |accounts| && accounts[i].id == c
    && accounts[i].Clearing? && accounts[i].clearingShares != map[]
    && forall j :: i < j < |accounts| && accounts[j].id == c ==>
                     accounts[j].Personal? || accounts[j].clearingShares == map[]
  }

  lemma ShareMapPush(accounts: seq<Account>, c: Id)
    requires accounts != []
    ensures var n := |accounts| - 1;
            if SharesOut(accounts[n]) && accounts[n].id == c
            then c in ShareMapOf(accounts) && ShareMapOf(accounts)[c] == accounts[n].clearingShares
            else (c in ShareMapOf(accounts) <==> c in ShareMapOf(accounts[..n])) &&
                 (c in ShareMapOf(accounts) ==> ShareMapOf(accounts)[c] == ShareMapOf(accounts[..n])[c])
  {
  }

  lemma LastSharingPush(accounts: seq<Account>, i: nat, c: Id)
    requires accounts != [] && i < |accounts| - 1
    ensures LastSharing(accounts, i, c) <==>
            LastSharing(accounts[..|accounts| - 1], i, c) &&
            !(SharesOut(accounts[|accounts| - 1]) && accounts[|accounts| - 1].id == c)
  {
    var init := accounts[..|accounts| - 1];
    assert forall j :: 0 <= j < |init| ==> init[j] == accounts[j];
  }

  lemma {:induction false} ShareMapEntry(accounts: seq<Account>, c: Id)
    ensures c in ShareMapOf(accounts) ==>
              exists i: nat :: LastSharing(accounts, i, c) && ShareMapOf(accounts)[c] == accounts[i].clearingShares
  {
    hide ShareMapOf;
    if accounts == [] {
      NoShareMap();
    } else {
      var n := |accounts| - 1;
      ShareMapPush(accounts, c);
      if SharesOut(accounts[n]) && accounts[n].id == c {
        assert LastSharing(accounts, n, c);
      } else {
        ShareMapEntry(accounts[..n], c);
        if c in ShareMapOf(accounts) {
          var i: nat :| LastSharing(accounts[..n], i, c) && ShareMapOf(accounts[..n])[c] == accounts[..n][i].clearingShares;
          LastSharingPush(accounts, i, c);
        }
      }
    }
  }

  lemma NoShareMap()
    ensures ShareMapOf([]) == map[]
  {
  }

  lemma {:induction false} SharingIsMapped(accounts: seq<Account>, i: nat, c: Id)
    requires LastSharing(accounts, i, c)
    ensures c in ShareMapOf(accounts) && ShareMapOf(accounts)[c] == accounts[i].clearingShares
  {
    hide ShareMapOf;
    var n := |accounts| - 1;
    ShareMapPush(accounts, c);
    if i < n {
      LastSharingPush(accounts, i, c);
      SharingIsMapped(accounts[..n], i, c);
    }
  }

  method BuildShareMap(accounts: seq<Account>) returns (sm: ShareMap)
    ensures sm == ShareMapOf(accounts)
    ensures forall c :: c in sm <==> exists i: nat :: LastSharing(accounts, i, c)
    ensures forall c, i: nat :: LastSharing(accounts, i, c) ==> sm[c] == accounts[i].clearingShares
  {
    forall c ensures c in ShareMapOf(accounts) <==> exists i: nat :: LastSharing(accounts, i, c) {
      ShareMapEntry(accounts, c);
      if i: nat :| LastSharing(accounts, i, c) {
        SharingIsMapped(accounts, i, c);
      }
    }
    forall c, i: nat | LastSharing(accounts, i, c) ensures ShareMapOf(accounts)[c] == accounts[i].clearingShares {
      SharingIsMapped(accounts, i, c);
    }
    sm := map[];
    for i := 0 to |accounts|
      invariant sm == ShareMapOf(accounts[..i])
    {
      assert accounts[..i + 1][..i] == accounts[..i];
      if accounts[i].Clearing? && accounts[i].clearingShares != map[] {
        sm := sm[accounts[i].id := accounts[i].clearingShares];
      }
    }
    assert accounts[..|accounts|] == accounts;
  }

  ghost function BookEffect(b: AccountBalance, e: Effect): AccountBalance {
    b.(balance := b.balance + e.total,
       totalConsumed := b.totalConsumed + (e.commonDebitors + e.positions),
       totalPaid := b.totalPaid + e.commonCreditors,
       beforeClearing := b.balance + e.total)
  }

  method ApplyEffect(sheet: Sheet, effect: map<Id, Effect>) returns (r: Sheet)
    requires forall a :: a in sheet ==> sheet[a].beforeClearing == sheet[a].balance
    ensures r.Keys == sheet.Keys
    ensures forall a :: a in sheet ==> r[a] == BookEffect(sheet[a], Entry(effect, a))
    ensures forall a :: a in sheet ==>
                          && r[a].balance == r[a].beforeClearing == sheet[a].balance + Entry(effect, a).total
                          && r[a].totalPaid == sheet[a].totalPaid + Entry(effect, a).commonCreditors
                          && r[a].totalConsumed ==
                             sheet[a].totalConsumed + Entry(effect, a).commonDebitors + Entry(effect, a).positions
                          && r[a].clearingResolution == sheet[a].clearingResolution
  {
    r := sheet;
    var todo := effect.Keys;
    while todo != {}
      invariant todo <= effect.Keys && r.Keys == sheet.Keys
      invariant forall a :: a in sheet ==>
                              r[a] == if a in todo then sheet[a] else BookEffect(sheet[a], Entry(effect, a))
      decreases todo
    {
      var k := NextKey(todo);
      if k in r {
        var b := r[k];
        b := b.(balance := b.balance + effect[k].total);
        b := b.(totalConsumed := b.totalConsumed + (effect[k].commonDebitors + effect[k].positions));
        b := b.(totalPaid := b.totalPaid + effect[k].commonCreditors);
        b := b.(beforeClearing := b.balance);
        r := r[k := b];
      }
      todo := todo - {k};
    }
  }

  lemma TotalsPush(ts: seq<Transaction>, t: Transaction, a: Id)
    ensures NetTotal(ts + [t])(a) == NetTotal(ts)(a) + Net(t, a)
    ensures PaidTotal(ts + [t])(a) == PaidTotal(ts)(a) + Credit(t, a)
    ensures ConsumedTotal(ts + [t])(a) == ConsumedTotal(ts)(a) + (Debit(t, a) + Positions(t, a))
  {
    hide Net, Credit, Debit, Positions;
    SumSeqPush(ts, t, NetAt(a));
    SumSeqPush(ts, t, PaidAt(a));
    SumSeqPush(ts, t, ConsumedAt(a));
  }

  lemma BookedPush(ts: seq<Transaction>, t: Transaction, a: Id)
    ensures Booked(ts + [t], a) == BookEffect(Booked(ts, a), EffectOn(t, a))
  {
    hide Net, Credit, Debit, Positions, SumSeq;
    TotalsPush(ts, t, a);
  }

  ghost predicate AllBooked(sheet: Sheet, ts: seq<Transaction>) {
    forall a :: a in sheet ==> sheet[a] == Booked(ts, a)
  }

  lemma BookNext(before: Sheet, after: Sheet, ts: seq<Transaction>, t: Transaction, effect: map<Id, Effect>)
    requires AllBooked(before, ts) && after.Keys == before.Keys
    requires effect.Keys == Involved(t) && forall a :: a in effect ==> effect[a] == EffectOn(t, a)
    requires forall a :: a in before ==> after[a] == BookEffect(before[a], Entry(effect, a))
    ensures AllBooked(after, ts + [t])
  {
    forall a | a in after ensures after[a] == Booked(ts + [t], a) {
      BookedPush(ts, t, a);
      if a !in effect {
        NotInvolved(t, a);
      }
    }
  }

  method ApplyTransactions(initial: Sheet, ts: seq<Transaction>) returns (sheet: Sheet)
    requires forall a :: a in initial ==> initial[a] == UNTOUCHED
    ensures sheet.Keys == initial.Keys
    ensures AllBooked(sheet, ts)
  {
    hide BookEffect, Divides, EffectOn, Involved;
    sheet := initial;
    for i := 0 to |ts|
      invariant sheet.Keys == initial.Keys
      invariant AllBooked(sheet, ts[..i])
    {
      var effect := ComputeTransactionBalanceEffect(ts[i]);
      ghost var before := sheet;
      sheet := ApplyEffect(sheet, effect);
      assert ts[..i + 1] == ts[..i] + [ts[i]];
      BookNext(before, sheet, ts[..i], ts[i], effect);
    }
    assert ts[..|ts|] == ts;
  }

  /** The final entry of `a` by the recursive definition alone: no order of redistribution, of
      transactions or of object keys appears in it. */
  ghost function FinalEntry(accounts: seq<Account>, ts: seq<Transaction>, a: Id): AccountBalance {
    var sm, t := ShareMapOf(accounts), NetTotal(ts);
    AccountBalance(
      if Settled(sm, a) then 0.0 else Inflow(sm, t, a),
      t(a),
      ConsumedTotal(ts)(a) + SumSet(SettledAccounts(sm), Taken(Contribution(sm, t, a))),
      PaidTotal(ts)(a) + SumSet(SettledAccounts(sm), Given(Contribution(sm, t, a))),
      if Settled(sm, a) then Resolution(sm, t, a) else map[])
  }

  ghost function FinalSheet(accounts: seq<Account>, ts: seq<Transaction>): Sheet {
    map a | a in Ids(accounts) :: FinalEntry(accounts, ts, a)
  }

  /** Every account of the order shares its balance, by weights that do not add up to zero. */
  ghost predicate Divisible(sm: ShareMap, order: seq<Id>) {
    forall i :: 0 <= i < |order| ==> order[i] in sm && Total(sm[order[i]]) != 0.0
  }

  /** The sheet after the first `n` accounts of the order have been redistributed. */
  ghost function ClearedInTurn(start: Sheet, sm: ShareMap, order: seq<Id>, n: nat): Sheet
    requires n <= |order| && Divisible(sm, order)
  {
    if n == 0 then start
    else Cleared(ClearedInTurn(start, sm, order, n - 1), order[n - 1], sm[order[n - 1]])
  }

  method Redistribute(start: Sheet, sm: ShareMap, sorting: seq<Id>) returns (sheet: Sheet)
    requires Divisible(sm, sorting)
    ensures sheet == ClearedInTurn(start, sm, sorting, |sorting|)
  {
    sheet := start;
    for i := 0 to |sorting|
      invariant sheet == ClearedInTurn(start, sm, sorting, i)
    {
      var clearing := sorting[i];
      sheet := ClearAccount(sheet, clearing, sm[clearing]);
    }
  }

  /** Whatever clearing order the worklist yields, the sheet follows the recursive definition. */
  lemma {:induction false} ClearedInAnyOrder(start: Sheet, ids: set<Id>, sm: ShareMap, ts: seq<Transaction>,
                                             order: seq<Id>, n: nat)
    requires IsClearingOrder(sm, order) && Divisible(sm, order) && n <= |order| && sm.Keys <= ids
    requires SheetAfter(start, ids, sm, ts, {})
    ensures SheetAfter(ClearedInTurn(start, sm, order, n), ids, sm, ts, Elements(order[..n]))
  {
    hide SheetAfter;
    if n == 0 {
      assert order[..0] == [] && Elements([]) == {};
    } else {
      ClearedInAnyOrder(start, ids, sm, ts, order, n - 1);
      ClearingStepInOrder(start, ids, sm, ts, order, n);
    }
  }

  lemma ClearingStepInOrder(start: Sheet, ids: set<Id>, sm: ShareMap, ts: seq<Transaction>, order: seq<Id>, n: nat)
    requires IsClearingOrder(sm, order) && Divisible(sm, order) && 0 < n <= |order| && sm.Keys <= ids
    requires SheetAfter(ClearedInTurn(start, sm, order, n - 1), ids, sm, ts, Elements(order[..n - 1]))
    ensures SheetAfter(ClearedInTurn(start, sm, order, n), ids, sm, ts, Elements(order[..n]))
  {
    hide Cleared, SheetAfter, IsClearingOrder, IsNext;
    NextInOrder(sm, order, n - 1);
    ClearingStep(ClearedInTurn(start, sm, order, n - 1), ids, sm, ts, Elements(order[..n - 1]), order[n - 1]);
  }

  lemma NextInOrder(sm: ShareMap, order: seq<Id>, i: nat)
    requires IsClearingOrder(sm, order) && i < |order|
    ensures order[i] in sm && IsNext(sm, Elements(order[..i]), order[i])
    ensures Elements(order[..i + 1]) == Elements(order[..i]) + {order[i]}
  {
    assert order[i] in Elements(order);
    SettledElements(sm, order);
    assert order[..i + 1] == order[..i] + [order[i]];
    forall a, d | a in Elements(order[..i + 1]) && Edge(sm, d, a) ensures d in Elements(order[..i]) {
      var j :| 0 <= j < i + 1 && order[j] == a;
      assert d in order[..j];
    }
  }

  lemma OrderIsDivisible(sm: ShareMap, order: seq<Id>)
    requires IsClearingOrder(sm, order) && NonZeroTotals(sm)
    ensures Divisible(sm, order)
  {
    SettledElements(sm, order);
    forall i | 0 <= i < |order| ensures order[i] in sm && Total(sm[order[i]]) != 0.0 {
      assert order[i] in Elements(order);
    }
  }

  lemma BookedIsStart(sheet: Sheet, ts: seq<Transaction>, sm: ShareMap)
    requires AllBooked(sheet, ts)
    ensures SheetAfter(sheet, sheet.Keys, sm, ts, {})
  {
    forall a | a in sheet ensures HasEntryAfter(sheet, sm, ts, {}, a) {
      assert sheet[a] == Booked(ts, a);
    }
  }

  /** Along the whole order every settled account is redistributed. */
  lemma {:induction false} ClearedAlong(start: Sheet, ids: set<Id>, sm: ShareMap, ts: seq<Transaction>, order: seq<Id>)
    requires IsClearingOrder(sm, order) && Divisible(sm, order) && sm.Keys <= ids
    requires SheetAfter(start, ids, sm, ts, {})
    ensures SheetAfter(ClearedInTurn(start, sm, order, |order|), ids, sm, ts, SettledAccounts(sm))
  {
    hide SheetAfter;
    ClearedInAnyOrder(start, ids, sm, ts, order, |order|);
    SettledElements(sm, order);
    assert order[..|order|] == order;
  }

  lemma InflowFromSettled(sm: ShareMap, t: Id -> real, a: Id)
    ensures Inflow(sm, t, a) == t(a) + SumSet(SettledAccounts(sm), Contribution(sm, t, a))
    ensures a in SettledAccounts(sm) <==> a in sm && Settled(sm, a)
    ensures Settled(sm, a) ==> a in sm
  {
    InflowEquation(sm, t, a, SettledAccounts(sm));
  }

  lemma EntryIsFinal(accounts: seq<Account>, ts: seq<Transaction>, a: Id)
    ensures EntryAfter(ShareMapOf(accounts), ts, SettledAccounts(ShareMapOf(accounts)), a) == FinalEntry(accounts, ts, a)
  {
    hide Settled, SettledAccounts, SettledSharers, ShareMapOf, Inflow;
    var sm := ShareMapOf(accounts);
    InflowFromSettled(sm, NetTotal(ts), a);
  }

  lemma SheetIsFinal(sheet: Sheet, accounts: seq<Account>, ts: seq<Transaction>)
    requires SheetAfter(sheet, Ids(accounts), ShareMapOf(accounts), ts, SettledAccounts(ShareMapOf(accounts)))
    ensures sheet == FinalSheet(accounts, ts)
  {
    forall a | a in sheet ensures sheet[a] == FinalEntry(accounts, ts, a) {
      EntryIsFinal(accounts, ts, a);
    }
    assert sheet.Keys == FinalSheet(accounts, ts).Keys;
  }

  // ---------- the rules of the sheet, in its own terms ----------

  /** What each account has resolved to `a`. */
  ghost function ResolvedTo(sheet: Sheet, a: Id): Id -> real {
    c => if c in sheet then Weight(sheet[c].clearingResolution, a) else 0.0
  }

  /** An account starts with what the transactions book on it and takes what others resolve to it.  A
      settled account divides what it has by its weights; any other keeps it. */
  ghost predicate EntryObeys(sm: ShareMap, ts: seq<Transaction>, sheet: Sheet, a: Id)
    requires a in sheet
  {
    var b := sheet[a];
    && b.beforeClearing == SumSeq(ts, NetAt(a))
    && b.totalPaid == SumSeq(ts, PaidAt(a)) + SumSet(sheet.Keys, Given(ResolvedTo(sheet, a)))
    && b.totalConsumed == SumSeq(ts, ConsumedAt(a)) + SumSet(sheet.Keys, Taken(ResolvedTo(sheet, a)))
    && (if Settled(sm, a) then
          && b.balance == 0.0
          && b.clearingResolution.Keys == sm[a].Keys
          && DividesAll(b.totalPaid - b.totalConsumed, sm[a], WeightOf(b.clearingResolution))
        else b.balance == b.totalPaid - b.totalConsumed && b.clearingResolution == map[])
  }

  ghost predicate ObeysRules(accounts: seq<Account>, ts: seq<Transaction>, sheet: Sheet) {
    && sheet.Keys == Ids(accounts)
    && forall a :: a in sheet ==> EntryObeys(ShareMapOf(accounts), ts, sheet, a)
  }

  lemma {:induction false} PaidMinusConsumed(sm: ShareMap, ts: seq<Transaction>, a: Id)
    ensures var t := NetTotal(ts);
            var settled := SettledAccounts(sm);
            PaidTotal(ts)(a) + SumSet(settled, Given(Contribution(sm, t, a)))
            - (ConsumedTotal(ts)(a) + SumSet(settled, Taken(Contribution(sm, t, a)))) == Inflow(sm, t, a)
  {
    var t := NetTotal(ts);
    var settled := SettledAccounts(sm);
    SumSetAdd(settled, Contribution(sm, t, a), Taken(Contribution(sm, t, a)), Given(Contribution(sm, t, a)));
    SumSeqAdd(ts, NetAt(a), ConsumedAt(a), PaidAt(a));
    InflowEquation(sm, t, a, settled);
  }

  lemma ResolvedIsContributed(accounts: seq<Account>, ts: seq<Transaction>, a: Id, c: Id)
    ensures var sm := ShareMapOf(accounts);
            ResolvedTo(FinalSheet(accounts, ts), a)(c) == Contribution(sm, NetTotal(ts), a)(c)
    ensures !Settled(ShareMapOf(accounts), c) ==> ResolvedTo(FinalSheet(accounts, ts), a)(c) == 0.0
  {
    hide OnCycle, Reaches, Inflow, Total;
    assert Settled(ShareMapOf(accounts), c) ==> c in Ids(accounts);
  }

  lemma {:induction false} ResolvedSums(accounts: seq<Account>, ts: seq<Transaction>, a: Id)
    ensures var sm, sheet := ShareMapOf(accounts), FinalSheet(accounts, ts);
            && SumSet(sheet.Keys, Given(ResolvedTo(sheet, a))) ==
               SumSet(SettledAccounts(sm), Given(Contribution(sm, NetTotal(ts), a)))
            && SumSet(sheet.Keys, Taken(ResolvedTo(sheet, a))) ==
               SumSet(SettledAccounts(sm), Taken(Contribution(sm, NetTotal(ts), a)))
  {
    var sm, sheet := ShareMapOf(accounts), FinalSheet(accounts, ts);
    var resolved, contributed := ResolvedTo(sheet, a), Contribution(sm, NetTotal(ts), a);
    forall c ensures Given(resolved)(c) == Given(contributed)(c) && Taken(resolved)(c) == Taken(contributed)(c)
             ensures c !in SettledAccounts(sm) ==> Given(resolved)(c) == 0.0 && Taken(resolved)(c) == 0.0 {
      hide *;
      ResolvedIsContributed(accounts, ts, a, c);
    }
    SumSetCongruent(SettledAccounts(sm), Given(resolved), Given(contributed));
    SumSetCongruent(SettledAccounts(sm), Taken(resolved), Taken(contributed));
    assert SettledAccounts(sm) <= sheet.Keys;
    SumSetExtend(SettledAccounts(sm), sheet.Keys, Given(resolved));
    SumSetExtend(SettledAccounts(sm), sheet.Keys, Taken(resolved));
  }

  lemma {:induction false} ResolutionDivides(sm: ShareMap, t: Id -> real, c: Id)
    requires c in sm && Total(sm[c]) != 0.0
    ensures DividesAll(Inflow(sm, t, c), sm[c], WeightOf(Resolution(sm, t, c)))
  {
    hide DividesAll, Total, Inflow;
    SplitDivides(Inflow(sm, t, c), sm[c]);
    forall a ensures WeightOf(Resolution(sm, t, c))(a) == SplitOf(Inflow(sm, t, c), sm[c])(a) {
      NothingBeyondShares(Inflow(sm, t, c), sm[c], a);
    }
    SamePartsDivideAll(Inflow(sm, t, c), sm[c], SplitOf(Inflow(sm, t, c), sm[c]), WeightOf(Resolution(sm, t, c)));
  }

  /** The sheet obeys the rules. */
  lemma {:induction false} FinalSheetObeys(accounts: seq<Account>, ts: seq<Transaction>)
    requires NonZeroTotals(ShareMapOf(accounts))
    ensures ObeysRules(accounts, ts, FinalSheet(accounts, ts))
  {
    var sm, sheet := ShareMapOf(accounts), FinalSheet(accounts, ts);
    forall a | a in sheet ensures EntryObeys(sm, ts, sheet, a) {
      FinalEntryObeys(accounts, ts, a);
    }
  }

  lemma {:induction false} FinalEntryObeys(accounts: seq<Account>, ts: seq<Transaction>, a: Id)
    requires NonZeroTotals(ShareMapOf(accounts)) && a in Ids(accounts)
    ensures EntryObeys(ShareMapOf(accounts), ts, FinalSheet(accounts, ts), a)
  {
    hide DividesAll, Settled, Inflow, ResolvedTo, Contribution, SumSet, SumSeq, ShareMapOf;
    var sm := ShareMapOf(accounts);
    ResolvedSums(accounts, ts, a);
    PaidMinusConsumed(sm, ts, a);
    InflowFromSettled(sm, NetTotal(ts), a);
    if Settled(sm, a) {
      ResolutionDivides(sm, NetTotal(ts), a);
    }
  }

  method ComputeAccountBalances(accounts: seq<Account>, ts: seq<Transaction>) returns (sheet: Sheet)
    requires NonZeroTotals(ShareMapOf(accounts))
    ensures sheet == FinalSheet(accounts, ts)
    ensures ObeysRules(accounts, ts, sheet)
  {
    hide ObeysRules;
    FinalSheetObeys(accounts, ts);
    sheet := InitialSheet(accounts);
    sheet := ApplyTransactions(sheet, ts);
    var sm := BuildShareMap(accounts);
    var sorting := LinearizeClearing(sheet.Keys, sm);
    BookedIsStart(sheet, ts, sm);
    OrderIsDivisible(sm, sorting);
    ClearedAlong(sheet, sheet.Keys, sm, ts, sorting);
    sheet := Redistribute(sheet, sm, sorting);
    SheetIsFinal(sheet, accounts, ts);
  }
}
