/** The settlement planner (frontend/libs/core/src/lib/accounts.ts, lines 246 to 322). */
module Settlement {
  import opened Sums
  import opened Sorting
  import opened TransactionEffects

  /** An account with what is still open on it. */
  datatype Open = Open(id: Id, amount: real)

  /** `creditorId` is the account with the negative balance: it pays, and is credited for it. */
  datatype PlanItem = PlanItem(creditorId: Id, debitorId: Id, paymentAmount: real)

  type Plan = seq<PlanItem>

  function Abs(x: real): real { if x < 0.0 then - x else x }

  function Magnitude(o: Open): real { Abs(o.amount) }

  // ---------- what is open, what a plan moves ----------

  ghost function AmountAt(a: Id): Open -> real { (o: Open) => if o.id == a then o.amount else 0.0 }
  ghost function CountAt(a: Id): Open -> real { (o: Open) => if o.id == a then 1.0 else 0.0 }
  ghost function AmountOf(o: Open): real { o.amount }

  ghost function Owed(s: seq<Open>, a: Id): real { SumSeq(s, AmountAt(a)) }
  ghost function Occurs(s: seq<Open>, a: Id): real { SumSeq(s, CountAt(a)) }
  ghost function Sum(s: seq<Open>): real { SumSeq(s, AmountOf) }

  ghost function PaymentOf(p: PlanItem): real { p.paymentAmount }
  ghost function Outgoing(a: Id): PlanItem -> real { (p: PlanItem) => if p.creditorId == a then p.paymentAmount else 0.0 }
  ghost function Incoming(a: Id): PlanItem -> real { (p: PlanItem) => if p.debitorId == a then p.paymentAmount else 0.0 }

  ghost function Paid(plan: Plan, a: Id): real { SumSeq(plan, Outgoing(a)) }
  ghost function Received(plan: Plan, a: Id): real { SumSeq(plan, Incoming(a)) }

  /** What is left on `a` once the plan is paid: paying raises a balance, receiving lowers it. */
  ghost function Remaining(b: Id -> real, plan: Plan, a: Id): real {
    b(a) + Paid(plan, a) - Received(plan, a)
  }

  ghost predicate SamePair(p: PlanItem, q: PlanItem) {
    p.creditorId == q.creditorId && p.debitorId == q.debitorId
  }

  ghost predicate NoPairTwice(plan: Plan) {
    forall i, j :: 0 <= i < j < |plan| ==> !SamePair(plan[i], plan[j])
  }

  /** Every item pays a positive amount from an account in debt to one in credit. */
  ghost predicate ProperItem(b: Id -> real, p: PlanItem) {
    p.paymentAmount > 0.0 && b(p.creditorId) < 0.0 && b(p.debitorId) > 0.0
  }

  ghost predicate ProperItems(b: Id -> real, plan: Plan) {
    forall p :: p in plan ==> ProperItem(b, p)
  }

  /** How many items settle both of their accounts at once. */
  ghost function BothSettled(b: Id -> real, plan: Plan): nat {
    if plan == [] then 0
    else
      var p := plan[|plan| - 1];
      BothSettled(b, plan[..|plan| - 1]) +
      if Remaining(b, plan, p.creditorId) == 0.0 && Remaining(b, plan, p.debitorId) == 0.0 then 1 else 0
  }

  // ---------- the planner's state ----------

  ghost predicate InCredit(b: Id -> real, s: seq<Open>) {
    forall o :: o in s ==> o.amount > 0.0 && b(o.id) > 0.0
  }

  ghost predicate InDebt(b: Id -> real, s: seq<Open>) {
    forall o :: o in s ==> o.amount < 0.0 && b(o.id) < 0.0
  }

  ghost predicate OncePerAccount(s: seq<Open>) {
    forall a :: Occurs(s, a) <= 1.0
  }

  ghost predicate Accounted(b: Id -> real, creditors: seq<Open>, debitors: seq<Open>, plan: Plan) {
    forall a :: Remaining(b, plan, a) == Owed(creditors, a) + Owed(debitors, a)
  }

  /** No item joins two accounts that are both still open. */
  ghost predicate PairsClosed(creditors: seq<Open>, debitors: seq<Open>, plan: Plan) {
    forall p :: p in plan ==> Occurs(debitors, p.creditorId) <= 0.0 || Occurs(creditors, p.debitorId) <= 0.0
  }

  ghost predicate PlanState(b: Id -> real, creditors: seq<Open>, debitors: seq<Open>, plan: Plan) {
    && InCredit(b, creditors) && InDebt(b, debitors)
    && OncePerAccount(creditors) && OncePerAccount(debitors)
    && Accounted(b, creditors, debitors, plan)
    && ProperItems(b, plan)
    && NoPairTwice(plan)
    && PairsClosed(creditors, debitors, plan)
  }

  // ---------- one payment ----------

  /** The list after the open amount at index `i` has become `amount`. */
  function Reduce(s: seq<Open>, i: nat, amount: real): seq<Open>
    requires i < |s|
  {
    if amount == 0.0 then s[..i] + s[i + 1..] else s[i := Open(s[i].id, amount)]
  }

  lemma {:induction false} ReduceSum(s: seq<Open>, i: nat, amount: real, f: Open -> real)
    requires i < |s|
    ensures SumSeq(Reduce(s, i, amount), f) ==
            SumSeq(s, f) - f(s[i]) + if amount == 0.0 then 0.0 else f(Open(s[i].id, amount))
  {
    SumSeqRemove(s, i, f);
    if amount != 0.0 {
      var r := s[i := Open(s[i].id, amount)];
      SumSeqRemove(r, i, f);
      assert r[..i] + r[i + 1..] == s[..i] + s[i + 1..];
    }
  }

  lemma ReduceMembers(s: seq<Open>, i: nat, amount: real)
    requires i < |s|
    ensures forall o :: o in Reduce(s, i, amount) ==> o in s || (amount != 0.0 && o == Open(s[i].id, amount))
    ensures |Reduce(s, i, amount)| == if amount == 0.0 then |s| - 1 else |s|
  {
  }

  lemma {:induction false} OccursAsMember(s: seq<Open>, i: nat)
    requires i < |s|
    ensures Occurs(s, s[i].id) >= 1.0
  {
    SumSeqRemove(s, i, CountAt(s[i].id));
    OccursNonNegative(s[..i] + s[i + 1..], s[i].id);
  }

  lemma {:induction false} OccursNonNegative(s: seq<Open>, a: Id)
    ensures Occurs(s, a) >= 0.0
    ensures Occurs(s, a) == 0.0 ==> Owed(s, a) == 0.0 && forall o :: o in s ==> o.id != a
    decreases |s|
  {
    if s != [] {
      OccursNonNegative(s[..|s| - 1], a);
      assert s == s[..|s| - 1] + [s[|s| - 1]];
    }
  }

  lemma {:induction false} NotOccurring(s: seq<Open>, a: Id)
    requires forall o :: o in s ==> o.id != a
    ensures Occurs(s, a) == 0.0 && Owed(s, a) == 0.0
    decreases |s|
  {
    if s != [] {
      NotOccurring(s[..|s| - 1], a);
    }
  }

  /** Creditor `i` and debitor `j` settle `amount` between them, which closes at least one. */
  ghost predicate Payable(creditors: seq<Open>, i: nat, debitors: seq<Open>, j: nat, amount: real) {
    && i < |creditors| && j < |debitors|
    && 0.0 < amount <= creditors[i].amount && amount <= - debitors[j].amount
    && (amount == creditors[i].amount || amount == - debitors[j].amount)
  }

  ghost function Payment(creditors: seq<Open>, i: nat, debitors: seq<Open>, j: nat, amount: real): PlanItem
    requires i < |creditors| && j < |debitors|
  {
    PlanItem(debitors[j].id, creditors[i].id, amount)
  }

  lemma {:induction false} PayRemaining(b: Id -> real, creditors: seq<Open>, i: nat, debitors: seq<Open>, j: nat,
                                        amount: real, plan: Plan, a: Id)
    requires i < |creditors| && j < |debitors|
    requires Remaining(b, plan, a) == Owed(creditors, a) + Owed(debitors, a)
    ensures Remaining(b, plan + [Payment(creditors, i, debitors, j, amount)], a) ==
            Owed(Reduce(creditors, i, creditors[i].amount - amount), a)
            + Owed(Reduce(debitors, j, debitors[j].amount + amount), a)
  {
    hide SumSeq, Reduce;
    ReduceSum(creditors, i, creditors[i].amount - amount, AmountAt(a));
    ReduceSum(debitors, j, debitors[j].amount + amount, AmountAt(a));
    SumSeqPush(plan, Payment(creditors, i, debitors, j, amount), Outgoing(a));
    SumSeqPush(plan, Payment(creditors, i, debitors, j, amount), Incoming(a));
  }

  lemma {:induction false} PayAccounted(b: Id -> real, creditors: seq<Open>, i: nat, debitors: seq<Open>, j: nat,
                                        amount: real, plan: Plan)
    requires Payable(creditors, i, debitors, j, amount)
    requires Accounted(b, creditors, debitors, plan)
    ensures Accounted(b, Reduce(creditors, i, creditors[i].amount - amount),
                      Reduce(debitors, j, debitors[j].amount + amount),
                      plan + [Payment(creditors, i, debitors, j, amount)])
  {
    forall a ensures Remaining(b, plan + [Payment(creditors, i, debitors, j, amount)], a) ==
                     Owed(Reduce(creditors, i, creditors[i].amount - amount), a)
                     + Owed(Reduce(debitors, j, debitors[j].amount + amount), a)
    {
      PayRemaining(b, creditors, i, debitors, j, amount, plan, a);
    }
  }

  lemma {:induction false} ReduceOccurs(s: seq<Open>, i: nat, amount: real)
    requires i < |s| && OncePerAccount(s)
    ensures OncePerAccount(Reduce(s, i, amount))
    ensures forall a :: Occurs(Reduce(s, i, amount), a) <= Occurs(s, a)
    ensures amount == 0.0 ==> Occurs(Reduce(s, i, amount), s[i].id) <= 0.0
  {
    forall a ensures Occurs(Reduce(s, i, amount), a) <= Occurs(s, a)
             ensures amount == 0.0 && a == s[i].id ==> Occurs(Reduce(s, i, amount), a) <= 0.0 {
      ReduceSum(s, i, amount, CountAt(a));
      assert Occurs(s, a) <= 1.0;
    }
  }

  lemma {:induction false} NewPair(creditors: seq<Open>, i: nat, debitors: seq<Open>, j: nat, amount: real, plan: Plan)
    requires i < |creditors| && j < |debitors|
    requires NoPairTwice(plan) && PairsClosed(creditors, debitors, plan)
    ensures NoPairTwice(plan + [Payment(creditors, i, debitors, j, amount)])
  {
    OccursAsMember(creditors, i);
    OccursAsMember(debitors, j);
    forall p | p in plan ensures !SamePair(p, Payment(creditors, i, debitors, j, amount)) {
    }
  }

  lemma {:induction false} ClosesPair(creditors: seq<Open>, i: nat, debitors: seq<Open>, j: nat, amount: real, plan: Plan)
    requires Payable(creditors, i, debitors, j, amount)
    requires OncePerAccount(creditors) && OncePerAccount(debitors)
    requires PairsClosed(creditors, debitors, plan)
    ensures PairsClosed(Reduce(creditors, i, creditors[i].amount - amount),
                        Reduce(debitors, j, debitors[j].amount + amount),
                        plan + [Payment(creditors, i, debitors, j, amount)])
  {
    ReduceOccurs(creditors, i, creditors[i].amount - amount);
    ReduceOccurs(debitors, j, debitors[j].amount + amount);
  }

  datatype Planner = Planner(creditors: seq<Open>, debitors: seq<Open>, plan: Plan)

  ghost function AfterPayment(s: Planner, i: nat, j: nat, amount: real): Planner
    requires i < |s.creditors| && j < |s.debitors|
  {
    Planner(Reduce(s.creditors, i, s.creditors[i].amount - amount),
            Reduce(s.debitors, j, s.debitors[j].amount + amount),
            s.plan + [Payment(s.creditors, i, s.debitors, j, amount)])
  }

  lemma {:induction false} PaySigns(b: Id -> real, creditors: seq<Open>, i: nat, debitors: seq<Open>, j: nat,
                                    amount: real)
    requires Payable(creditors, i, debitors, j, amount)
    requires InCredit(b, creditors) && InDebt(b, debitors)
    ensures InCredit(b, Reduce(creditors, i, creditors[i].amount - amount))
    ensures InDebt(b, Reduce(debitors, j, debitors[j].amount + amount))
    ensures ProperItem(b, Payment(creditors, i, debitors, j, amount))
  {
    assert creditors[i] in creditors && debitors[j] in debitors;
    ReduceMembers(creditors, i, creditors[i].amount - amount);
    ReduceMembers(debitors, j, debitors[j].amount + amount);
  }

  /** A payment keeps the planner's invariant. */
  lemma {:induction false} Pay(b: Id -> real, s: Planner, i: nat, j: nat, amount: real)
    requires Payable(s.creditors, i, s.debitors, j, amount)
    requires PlanState(b, s.creditors, s.debitors, s.plan)
    ensures var r := AfterPayment(s, i, j, amount); PlanState(b, r.creditors, r.debitors, r.plan)
  {
    hide Reduce, SumSeq, InCredit, InDebt, Accounted, PairsClosed, NoPairTwice;
    PaySigns(b, s.creditors, i, s.debitors, j, amount);
    ReduceOccurs(s.creditors, i, s.creditors[i].amount - amount);
    ReduceOccurs(s.debitors, j, s.debitors[j].amount + amount);
    PayAccounted(b, s.creditors, i, s.debitors, j, amount, s.plan);
    NewPair(s.creditors, i, s.debitors, j, amount, s.plan);
    ClosesPair(s.creditors, i, s.debitors, j, amount, s.plan);
  }

  lemma {:induction false} OwedByMember(s: seq<Open>, i: nat)
    requires i < |s| && OncePerAccount(s)
    ensures Owed(s, s[i].id) == s[i].amount
  {
    var a := s[i].id;
    SumSeqRemove(s, i, CountAt(a));
    SumSeqRemove(s, i, AmountAt(a));
    OccursNonNegative(s[..i] + s[i + 1..], a);
    assert Occurs(s, a) <= 1.0;
  }

  /** After a payment both accounts are settled exactly when both amounts have become zero. */
  lemma {:induction false} PaySettles(b: Id -> real, creditors: seq<Open>, i: nat, debitors: seq<Open>, j: nat,
                                      amount: real, plan: Plan)
    requires Payable(creditors, i, debitors, j, amount)
    requires PlanState(b, creditors, debitors, plan)
    ensures BothSettled(b, plan + [Payment(creditors, i, debitors, j, amount)]) ==
            BothSettled(b, plan) + if creditors[i].amount + debitors[j].amount == 0.0 then 1 else 0
  {
    var p := Payment(creditors, i, debitors, j, amount);
    var cid, did := creditors[i].id, debitors[j].id;
    assert creditors[i] in creditors && debitors[j] in debitors;
    assert Remaining(b, plan, cid) == creditors[i].amount by {
      OwedByMember(creditors, i);
      NotOccurring(debitors, cid);
    }
    assert Remaining(b, plan, did) == debitors[j].amount by {
      OwedByMember(debitors, j);
      NotOccurring(creditors, did);
    }
    assert cid != did;
    SumSeqPush(plan, p, Outgoing(cid));
    SumSeqPush(plan, p, Incoming(cid));
    SumSeqPush(plan, p, Outgoing(did));
    SumSeqPush(plan, p, Incoming(did));
    assert (plan + [p])[..|plan|] == plan;
  }

  /** Items, open accounts and double settlements always add up to the same number. */
  ghost function Tally(b: Id -> real, s: Planner): nat {
    |s.plan| + |s.creditors| + |s.debitors| + BothSettled(b, s.plan)
  }

  lemma {:induction false} PayTally(b: Id -> real, s: Planner, i: nat, j: nat, amount: real)
    requires Payable(s.creditors, i, s.debitors, j, amount)
    requires PlanState(b, s.creditors, s.debitors, s.plan)
    ensures Tally(b, AfterPayment(s, i, j, amount)) == Tally(b, s)
  {
    PaySettles(b, s.creditors, i, s.debitors, j, amount, s.plan);
    ReduceMembers(s.creditors, i, s.creditors[i].amount - amount);
    ReduceMembers(s.debitors, j, s.debitors[j].amount + amount);
  }

  /** What is paid is taken from the credits and from the debts. */
  ghost predicate SameMoney(s: Planner, r: Planner) {
    && Sum(s.creditors) + SumSeq(s.plan, PaymentOf) == Sum(r.creditors) + SumSeq(r.plan, PaymentOf)
    && Sum(s.debitors) - SumSeq(s.plan, PaymentOf) == Sum(r.debitors) - SumSeq(r.plan, PaymentOf)
  }

  lemma {:induction false} PayCredits(s: Planner, i: nat, j: nat, amount: real)
    requires Payable(s.creditors, i, s.debitors, j, amount)
    ensures Sum(AfterPayment(s, i, j, amount).creditors) == Sum(s.creditors) - amount
  {
    ReduceSum(s.creditors, i, s.creditors[i].amount - amount, AmountOf);
  }

  lemma {:induction false} PayDebts(s: Planner, i: nat, j: nat, amount: real)
    requires Payable(s.creditors, i, s.debitors, j, amount)
    ensures Sum(AfterPayment(s, i, j, amount).debitors) == Sum(s.debitors) + amount
  {
    ReduceSum(s.debitors, j, s.debitors[j].amount + amount, AmountOf);
  }

  lemma {:induction false} PayMoney(s: Planner, i: nat, j: nat, amount: real)
    requires Payable(s.creditors, i, s.debitors, j, amount)
    ensures SameMoney(AfterPayment(s, i, j, amount), s)
  {
    var r := AfterPayment(s, i, j, amount);
    PayCredits(s, i, j, amount);
    PayDebts(s, i, j, amount);
    assert SumSeq(r.plan, PaymentOf) == SumSeq(s.plan, PaymentOf) + amount by {
      SumSeqPush(s.plan, Payment(s.creditors, i, s.debitors, j, amount), PaymentOf);
    }
  }

  /** `s` is a state of the planner in which the tally and the money are those of `start`. */
  ghost predicate Keeps(b: Id -> real, start: Planner, s: Planner) {
    && PlanState(b, s.creditors, s.debitors, s.plan)
    && Tally(b, s) == Tally(b, start)
    && SameMoney(s, start)
  }

  lemma PayKeeps(b: Id -> real, s: Planner, i: nat, j: nat, amount: real)
    requires Payable(s.creditors, i, s.debitors, j, amount)
    requires PlanState(b, s.creditors, s.debitors, s.plan)
    ensures Keeps(b, s, AfterPayment(s, i, j, amount))
  {
    Pay(b, s, i, j, amount);
    PayTally(b, s, i, j, amount);
    PayMoney(s, i, j, amount);
  }

  // ---------- extracting the one-to-one settlements ----------

  ghost function Magnitudes(s: seq<Open>): multiset<real> {
    if s == [] then multiset{} else Magnitudes(s[..|s| - 1]) + multiset{Magnitude(s[|s| - 1])}
  }

  lemma {:induction false} MagnitudesConcat(s: seq<Open>, t: seq<Open>)
    ensures Magnitudes(s + t) == Magnitudes(s) + Magnitudes(t)
    decreases |t|
  {
    if t == [] {
      assert s + t == s;
    } else {
      assert (s + t)[..|s + t| - 1] == s + t[..|t| - 1];
      MagnitudesConcat(s, t[..|t| - 1]);
    }
  }

  function Splice(s: seq<Open>, i: nat): seq<Open>
    requires i < |s|
  {
    s[..i] + s[i + 1..]
  }

  lemma {:induction false} MagnitudesSplice(s: seq<Open>, i: nat)
    requires i < |s|
    ensures Magnitudes(s) == Magnitudes(Splice(s, i)) + multiset{Magnitude(s[i])}
  {
    assert s == s[..i] + ([s[i]] + s[i + 1..]);
    MagnitudesConcat(s[..i], [s[i]] + s[i + 1..]);
    MagnitudesConcat([s[i]], s[i + 1..]);
    MagnitudesConcat(s[..i], s[i + 1..]);
    assert Magnitudes([s[i]]) == multiset{Magnitude(s[i])};
  }

  lemma {:induction false} MagnitudeIndex(s: seq<Open>, v: real) returns (i: nat)
    requires v in Magnitudes(s)
    ensures i < |s| && Magnitude(s[i]) == v
    decreases |s|
  {
    i := |s| - 1;
    if Magnitude(s[i]) != v {
      i := MagnitudeIndex(s[..i], v);
    }
  }

  /** The creditors before `credI` match no debitor, the debitors before `debI` no creditor. */
  ghost predicate Checked(creditors: seq<Open>, credI: nat, debitors: seq<Open>, debI: nat) {
    && credI <= |creditors| && debI <= |debitors|
    && (forall i, j :: 0 <= i < credI && 0 <= j < |debitors| ==> Magnitude(creditors[i]) != Magnitude(debitors[j]))
    && (forall i, j :: 0 <= i < |creditors| && 0 <= j < debI ==> Magnitude(creditors[i]) != Magnitude(debitors[j]))
  }

  lemma CheckedAfterSplice(creditors: seq<Open>, credI: nat, debitors: seq<Open>, debI: nat)
    requires Checked(creditors, credI, debitors, debI) && credI < |creditors| && debI < |debitors|
    requires SortedBy(creditors, Magnitude) && SortedBy(debitors, Magnitude)
    ensures Checked(Splice(creditors, credI), credI, Splice(debitors, debI), debI)
    ensures SortedBy(Splice(creditors, credI), Magnitude) && SortedBy(Splice(debitors, debI), Magnitude)
  {
  }

  /** The creditor under the pointer has no match left: at the last debitor because it differs from
      this one, before it because all further debitors are larger. */
  lemma AdvanceCreditor(creditors: seq<Open>, credI: nat, debitors: seq<Open>, debI: nat)
    requires Checked(creditors, credI, debitors, debI) && credI < |creditors| && debI < |debitors|
    requires SortedBy(debitors, Magnitude)
    requires Magnitude(creditors[credI]) != Magnitude(debitors[debI])
    requires debI == |debitors| - 1 || Magnitude(creditors[credI]) < Magnitude(debitors[debI])
    ensures Checked(creditors, credI + 1, debitors, debI)
  {
  }

  lemma AdvanceDebitor(creditors: seq<Open>, credI: nat, debitors: seq<Open>, debI: nat)
    requires Checked(creditors, credI, debitors, debI) && credI < |creditors| && debI < |debitors|
    requires SortedBy(creditors, Magnitude)
    requires Magnitude(creditors[credI]) != Magnitude(debitors[debI])
    requires credI == |creditors| - 1 || Magnitude(debitors[debI]) < Magnitude(creditors[credI])
    ensures Checked(creditors, credI, debitors, debI + 1)
  {
  }

  ghost predicate NoneEqual(creditors: seq<Open>, debitors: seq<Open>) {
    forall i, j :: 0 <= i < |creditors| && 0 <= j < |debitors| ==> Magnitude(creditors[i]) != Magnitude(debitors[j])
  }

  lemma {:induction false} MatchedIsCommon(c0: multiset<real>, d0: multiset<real>, creditors: seq<Open>,
                                           debitors: seq<Open>, matched: multiset<real>)
    requires NoneEqual(creditors, debitors)
    requires Magnitudes(creditors) + matched == c0 && Magnitudes(debitors) + matched == d0
    ensures matched == c0 * d0
    ensures Magnitudes(creditors) == c0 - d0 && Magnitudes(debitors) == d0 - c0
  {
    forall v ensures Magnitudes(creditors)[v] == 0 || Magnitudes(debitors)[v] == 0 {
      if v in Magnitudes(creditors) && v in Magnitudes(debitors) {
        var i := MagnitudeIndex(creditors, v);
        var j := MagnitudeIndex(debitors, v);
      }
    }
    CommonPart(Magnitudes(creditors), Magnitudes(debitors), matched);
  }

  lemma CommonPart(c: multiset<real>, d: multiset<real>, m: multiset<real>)
    requires forall v :: c[v] == 0 || d[v] == 0
    ensures (c + m) * (d + m) == m
    ensures (c + m) - (d + m) == c && (d + m) - (c + m) == d
  {
    forall v ensures ((c + m) * (d + m))[v] == m[v]
             ensures ((c + m) - (d + m))[v] == c[v] && ((d + m) - (c + m))[v] == d[v] {
      assert c[v] == 0 || d[v] == 0;
    }
  }

  ghost predicate Equal(s: Planner, i: nat, j: nat) {
    && i < |s.creditors| && j < |s.debitors|
    && Magnitude(s.creditors[i]) == Magnitude(s.debitors[j])
  }

  ghost function Match(s: Planner, i: nat, j: nat): Planner
    requires Equal(s, i, j)
  {
    Planner(Splice(s.creditors, i), Splice(s.debitors, j),
            s.plan + [PlanItem(s.debitors[j].id, s.creditors[i].id, s.creditors[i].amount)])
  }

  /** `s` comes from `start` by matching `k` times a creditor and a debitor of equal magnitude. */
  ghost predicate ByMatches(start: Planner, s: Planner, k: nat)
    decreases k
  {
    if k == 0 then s == start
    else exists t, i: nat, j: nat :: ByMatches(start, t, k - 1) && Equal(t, i, j) && s == Match(t, i, j)
  }

  /** A match is a payment that closes both sides. */
  lemma {:induction false} MatchKeeps(b: Id -> real, s: Planner, i: nat, j: nat)
    requires PlanState(b, s.creditors, s.debitors, s.plan) && Equal(s, i, j)
    ensures Keeps(b, s, Match(s, i, j))
  {
    assert s.creditors[i] in s.creditors && s.debitors[j] in s.debitors;
    PayKeeps(b, s, i, j, s.creditors[i].amount);
    assert Match(s, i, j) == AfterPayment(s, i, j, s.creditors[i].amount);
  }

  lemma KeepsTransitively(b: Id -> real, r: Planner, s: Planner, t: Planner)
    requires Keeps(b, r, s) && Keeps(b, s, t)
    ensures Keeps(b, r, t)
  {
    hide PlanState, Tally;
  }

  lemma {:induction false} MatchesKeep(b: Id -> real, start: Planner, s: Planner, k: nat)
    requires PlanState(b, start.creditors, start.debitors, start.plan)
    requires ByMatches(start, s, k)
    ensures Keeps(b, start, s)
    decreases k
  {
    hide PlanState, Tally;
    if k > 0 {
      var t, i: nat, j: nat :| ByMatches(start, t, k - 1) && Equal(t, i, j) && s == Match(t, i, j);
      MatchesKeep(b, start, t, k - 1);
      MatchKeeps(b, t, i, j);
      KeepsTransitively(b, start, t, s);
    }
  }

  lemma MoveOne(before: multiset<real>, after: multiset<real>, matched: multiset<real>, v: real)
    requires before == after + multiset{v}
    ensures after + (matched + multiset{v}) == before + matched
  {
  }

  lemma {:induction false} MatchesCount(start: Planner, s: Planner, k: nat) returns (matched: multiset<real>)
    requires ByMatches(start, s, k)
    ensures |matched| == k && |s.plan| == |start.plan| + k
    ensures |s.creditors| + k == |start.creditors| && |s.debitors| + k == |start.debitors|
    ensures Magnitudes(s.creditors) + matched == Magnitudes(start.creditors)
    ensures Magnitudes(s.debitors) + matched == Magnitudes(start.debitors)
    decreases k
  {
    matched := multiset{};
    if k > 0 {
      var t, i: nat, j: nat :| ByMatches(start, t, k - 1) && Equal(t, i, j) && s == Match(t, i, j);
      var earlier := MatchesCount(start, t, k - 1);
      var v := Magnitude(t.creditors[i]);
      MagnitudesSplice(t.creditors, i);
      MagnitudesSplice(t.debitors, j);
      matched := earlier + multiset{v};
      MoveOne(Magnitudes(t.creditors), Magnitudes(s.creditors), earlier, v);
      MoveOne(Magnitudes(t.debitors), Magnitudes(s.debitors), earlier, v);
    }
  }

  /** Matches until nothing equal is left make, for every magnitude, as many matches as both lists
      can supply, and leave the rest. */
  lemma {:induction false} MatchesAreComplete(start: Planner, s: Planner, k: nat)
    requires ByMatches(start, s, k) && NoneEqual(s.creditors, s.debitors)
    ensures Magnitudes(s.creditors) == Magnitudes(start.creditors) - Magnitudes(start.debitors)
    ensures Magnitudes(s.debitors) == Magnitudes(start.debitors) - Magnitudes(start.creditors)
    ensures k == |CommonMagnitudes(start.creditors, start.debitors)|
  {
    var matched := MatchesCount(start, s, k);
    MatchedIsCommon(Magnitudes(start.creditors), Magnitudes(start.debitors), s.creditors, s.debitors, matched);
  }

  ghost function CommonMagnitudes(creditors: seq<Open>, debitors: seq<Open>): multiset<real> {
    Magnitudes(creditors) * Magnitudes(debitors)
  }

  lemma ByMatchesPush(start: Planner, s: Planner, k: nat, i: nat, j: nat)
    requires ByMatches(start, s, k) && Equal(s, i, j)
    ensures ByMatches(start, Match(s, i, j), k + 1)
  {
    assert k + 1 - 1 == k;
  }

  lemma NoMatches(start: Planner)
    ensures ByMatches(start, start, 0)
  {
  }

  /** The two-pointer scan: matches and nothing else, until no equal magnitudes are left. */
  method ExtractOneToOneSettlements(creditors0: seq<Open>, debitors0: seq<Open>, result0: Plan)
    returns (creditors: seq<Open>, debitors: seq<Open>, result: Plan)
    requires SortedBy(creditors0, Magnitude) && SortedBy(debitors0, Magnitude)
    ensures SortedBy(creditors, Magnitude) && SortedBy(debitors, Magnitude)
    ensures NoneEqual(creditors, debitors)
    ensures ByMatches(Planner(creditors0, debitors0, result0), Planner(creditors, debitors, result),
                      |CommonMagnitudes(creditors0, debitors0)|)
    ensures Magnitudes(creditors) == Magnitudes(creditors0) - Magnitudes(debitors0)
    ensures Magnitudes(debitors) == Magnitudes(debitors0) - Magnitudes(creditors0)
  {
    hide ByMatches;
    creditors, debitors, result := creditors0, debitors0, result0;
    ghost var matches := 0;
    ghost var start := Planner(creditors0, debitors0, result0);
    NoMatches(start);
    var credI, debI := 0, 0;
    while credI < |creditors| && debI < |debitors|
      invariant SortedBy(creditors, Magnitude) && SortedBy(debitors, Magnitude)
      invariant Checked(creditors, credI, debitors, debI)
      invariant ByMatches(start, Planner(creditors, debitors, result), matches)
      decreases |creditors| + |debitors| - credI - debI
    {
      var creditor, debitor := creditors[credI], debitors[debI];
      if Abs(creditor.amount) == Abs(debitor.amount) {
        ghost var before := Planner(creditors, debitors, result);
        CheckedAfterSplice(creditors, credI, debitors, debI);
        creditors := Splice(creditors, credI);
        debitors := Splice(debitors, debI);
        result := result + [PlanItem(debitor.id, creditor.id, creditor.amount)];
        assert Planner(creditors, debitors, result) == Match(before, credI, debI);
        ByMatchesPush(start, before, matches, credI, debI);
        matches := matches + 1;
      } else if debI == |debitors| - 1 {
        AdvanceCreditor(creditors, credI, debitors, debI);
        credI := credI + 1;
      } else if credI == |creditors| - 1 {
        AdvanceDebitor(creditors, credI, debitors, debI);
        debI := debI + 1;
      } else if Abs(creditor.amount) < Abs(debitor.amount) {
        AdvanceCreditor(creditors, credI, debitors, debI);
        credI := credI + 1;
      } else {
        AdvanceDebitor(creditors, credI, debitors, debI);
        debI := debI + 1;
      }
    }
    MatchesAreComplete(start, Planner(creditors, debitors, result), matches);
  }

  // ---------- the planning loop ----------

  function Creditors(b: seq<Open>): seq<Open> {
    if b == [] then []
    else Creditors(b[..|b| - 1]) + if b[|b| - 1].amount > 0.0 then [b[|b| - 1]] else []
  }

  function Debitors(b: seq<Open>): seq<Open> {
    if b == [] then []
    else Debitors(b[..|b| - 1]) + if b[|b| - 1].amount < 0.0 then [b[|b| - 1]] else []
  }

  ghost function BalanceIn(b: seq<Open>): Id -> real {
    a => Owed(b, a)
  }

  lemma FilterPush(init: seq<Open>, o: Open)
    ensures Creditors(init + [o]) == if o.amount > 0.0 then Creditors(init) + [o] else Creditors(init)
    ensures Debitors(init + [o]) == if o.amount < 0.0 then Debitors(init) + [o] else Debitors(init)
  {
    assert (init + [o])[..|init|] == init;
    assert Creditors(init) + [] == Creditors(init) && Debitors(init) + [] == Debitors(init);
  }

  lemma FilterSumsPush(init: seq<Open>, o: Open, f: Open -> real)
    requires o.amount == 0.0 ==> f(o) == 0.0
    ensures SumSeq(Creditors(init + [o]), f) + SumSeq(Debitors(init + [o]), f) ==
            SumSeq(Creditors(init), f) + SumSeq(Debitors(init), f) + f(o)
  {
    FilterPush(init, o);
    SumSeqPush(Creditors(init), o, f);
    SumSeqPush(Debitors(init), o, f);
  }

  /** Sums that ignore zero balances are split by the two filters. */
  lemma {:induction false} FilterSums(b: seq<Open>, f: Open -> real)
    requires forall i :: 0 <= i < |b| && b[i].amount == 0.0 ==> f(b[i]) == 0.0
    ensures SumSeq(b, f) == SumSeq(Creditors(b), f) + SumSeq(Debitors(b), f)
    decreases |b|
  {
    if b != [] {
      var init, o := b[..|b| - 1], b[|b| - 1];
      assert b == init + [o];
      FilterSums(init, f);
      FilterSumsPush(init, o, f);
    }
  }

  lemma {:induction false} FilterOccurs(b: seq<Open>, a: Id)
    ensures Occurs(Creditors(b), a) <= Occurs(b, a) && Occurs(Debitors(b), a) <= Occurs(b, a)
    decreases |b|
  {
    if b != [] {
      var init, o := b[..|b| - 1], b[|b| - 1];
      assert b == init + [o];
      FilterOccurs(init, a);
      FilterPush(init, o);
      SumSeqPush(Creditors(init), o, CountAt(a));
      SumSeqPush(Debitors(init), o, CountAt(a));
    }
  }

  /** The filters keep exactly the positive and the negative balances ... */
  lemma {:induction false} FilterCounts(b: seq<Open>, o: Open)
    ensures multiset(Creditors(b))[o] == if o.amount > 0.0 then multiset(b)[o] else 0
    ensures multiset(Debitors(b))[o] == if o.amount < 0.0 then multiset(b)[o] else 0
    decreases |b|
  {
    if b != [] {
      var init, last := b[..|b| - 1], b[|b| - 1];
      assert b == init + [last];
      FilterCounts(init, o);
      FilterPush(init, last);
    }
  }

  /** ... in their order. */
  lemma {:induction false} FilterConcat(b: seq<Open>, more: seq<Open>)
    ensures Creditors(b + more) == Creditors(b) + Creditors(more)
    ensures Debitors(b + more) == Debitors(b) + Debitors(more)
    decreases |more|
  {
    if more == [] {
      assert b + more == b;
    } else {
      var init, last := more[..|more| - 1], more[|more| - 1];
      assert b + more == b + init + [last] && more == init + [last];
      FilterConcat(b, init);
      FilterPush(b + init, last);
      FilterPush(init, last);
    }
  }

  lemma {:induction false} FilterMembers(b: seq<Open>)
    ensures forall o :: o in Creditors(b) <==> o in b && o.amount > 0.0
    ensures forall o :: o in Debitors(b) <==> o in b && o.amount < 0.0
    decreases |b|
  {
    if b != [] {
      FilterMembers(b[..|b| - 1]);
      assert b == b[..|b| - 1] + [b[|b| - 1]];
    }
  }

  lemma {:induction false} InitialState(b: seq<Open>)
    requires OncePerAccount(b)
    ensures PlanState(BalanceIn(b), Creditors(b), Debitors(b), [])
    ensures Sum(b) == Sum(Creditors(b)) + Sum(Debitors(b))
  {
    FilterMembers(b);
    forall o | o in b ensures BalanceIn(b)(o.id) == o.amount {
      var i :| 0 <= i < |b| && b[i] == o;
      OwedByMember(b, i);
    }
    forall a ensures Occurs(Creditors(b), a) <= 1.0 && Occurs(Debitors(b), a) <= 1.0 {
      FilterOccurs(b, a);
      assert Occurs(b, a) <= 1.0;
    }
    forall a ensures Remaining(BalanceIn(b), [], a) == Owed(Creditors(b), a) + Owed(Debitors(b), a) {
      FilterSums(b, AmountAt(a));
    }
    FilterSums(b, AmountOf);
  }

  lemma {:induction false} ReorderSums(s: seq<Open>, t: seq<Open>)
    requires multiset(s) == multiset(t)
    ensures forall a :: Occurs(s, a) == Occurs(t, a) && Owed(s, a) == Owed(t, a)
    ensures Sum(s) == Sum(t) && |s| == |t|
    ensures forall o :: o in s <==> o in t
  {
    forall a ensures Occurs(s, a) == Occurs(t, a) && Owed(s, a) == Owed(t, a) {
      SumSeqPermutation(s, t, CountAt(a));
      SumSeqPermutation(s, t, AmountAt(a));
    }
    SumSeqPermutation(s, t, AmountOf);
    PermutationLength(s, t);
    forall o ensures o in s <==> o in t {
      assert o in s <==> o in multiset(s);
      assert o in t <==> o in multiset(t);
    }
  }

  lemma {:induction false} ReorderState(b: Id -> real, s: Planner, creditors: seq<Open>, debitors: seq<Open>)
    requires PlanState(b, s.creditors, s.debitors, s.plan)
    requires multiset(creditors) == multiset(s.creditors) && multiset(debitors) == multiset(s.debitors)
    ensures Keeps(b, s, Planner(creditors, debitors, s.plan))
    ensures |creditors| == |s.creditors| && |debitors| == |s.debitors|
  {
    ReorderSums(creditors, s.creditors);
    ReorderSums(debitors, s.debitors);
  }

  lemma {:induction false} StrictSign(s: seq<Open>)
    ensures (forall o :: o in s ==> o.amount > 0.0) ==> Sum(s) >= 0.0 && (s != [] ==> Sum(s) > 0.0)
    ensures (forall o :: o in s ==> o.amount < 0.0) ==> Sum(s) <= 0.0 && (s != [] ==> Sum(s) < 0.0)
    decreases |s|
  {
    if s != [] {
      StrictSign(s[..|s| - 1]);
      assert s == s[..|s| - 1] + [s[|s| - 1]];
    }
  }

  /** With balances that add up to zero, one side is exhausted exactly when the other is. */
  lemma BothOrNeither(b: Id -> real, s: Planner)
    requires InCredit(b, s.creditors) && InDebt(b, s.debitors)
    requires Sum(s.creditors) + Sum(s.debitors) == 0.0
    ensures s.creditors == [] <==> s.debitors == []
  {
    StrictSign(s.creditors);
    StrictSign(s.debitors);
  }

  ghost predicate LastPayable(s: Planner) {
    && s.creditors != [] && s.debitors != []
    && s.creditors[|s.creditors| - 1].amount > 0.0 > s.debitors[|s.debitors| - 1].amount
  }

  ghost function LastAmount(s: Planner): real
    requires LastPayable(s)
  {
    var c, d := s.creditors[|s.creditors| - 1], s.debitors[|s.debitors| - 1];
    if - d.amount > c.amount then c.amount else - d.amount
  }

  /** The settlement step: the last creditor and the last debitor settle the smaller amount. */
  ghost function SettledOnce(s: Planner): Planner
    requires LastPayable(s)
  {
    AfterPayment(s, |s.creditors| - 1, |s.debitors| - 1, LastAmount(s))
  }

  lemma SettledKeeps(b: Id -> real, s: Planner)
    requires PlanState(b, s.creditors, s.debitors, s.plan)
    requires LastPayable(s)
    ensures Keeps(b, s, SettledOnce(s))
  {
    PayKeeps(b, s, |s.creditors| - 1, |s.debitors| - 1, LastAmount(s));
  }

  /** With nothing equal left, it never settles both accounts. */
  lemma {:induction false} SettlesOneSide(b: Id -> real, s: Planner)
    requires PlanState(b, s.creditors, s.debitors, s.plan)
    requires LastPayable(s) && NoneEqual(s.creditors, s.debitors)
    ensures BothSettled(b, SettledOnce(s).plan) == BothSettled(b, s.plan)
  {
    var i, j := |s.creditors| - 1, |s.debitors| - 1;
    assert Magnitude(s.creditors[i]) != Magnitude(s.debitors[j]);
    PaySettles(b, s.creditors, i, s.debitors, j, LastAmount(s), s.plan);
  }

  /** The popped pair has different magnitudes, so exactly one side is pushed back. */
  lemma SettledShrinks(s: Planner)
    requires LastPayable(s) && NoneEqual(s.creditors, s.debitors)
    ensures |SettledOnce(s).creditors| + |SettledOnce(s).debitors| == |s.creditors| + |s.debitors| - 1
    ensures |SettledOnce(s).plan| == |s.plan| + 1
  {
    var i, j, amount := |s.creditors| - 1, |s.debitors| - 1, LastAmount(s);
    assert Magnitude(s.creditors[i]) != Magnitude(s.debitors[j]);
    ReduceMembers(s.creditors, i, s.creditors[i].amount - amount);
    ReduceMembers(s.debitors, j, s.debitors[j].amount + amount);
  }

  lemma ReduceLast(s: seq<Open>, amount: real)
    requires s != []
    ensures var n := |s| - 1;
            Reduce(s, n, amount) == if amount == 0.0 then s[..n] else s[..n] + [Open(s[n].id, amount)]
  {
  }

  method SettleLast(creditors0: seq<Open>, debitors0: seq<Open>, result0: Plan)
    returns (creditors: seq<Open>, debitors: seq<Open>, result: Plan)
    requires LastPayable(Planner(creditors0, debitors0, result0))
    ensures Planner(creditors, debitors, result) == SettledOnce(Planner(creditors0, debitors0, result0))
    ensures var c, d := creditors0[|creditors0| - 1], debitors0[|debitors0| - 1];
            && (c.amount < - d.amount ==>
                  && result == result0 + [PlanItem(d.id, c.id, c.amount)]
                  && creditors == creditors0[..|creditors0| - 1]
                  && debitors == debitors0[..|debitors0| - 1] + [Open(d.id, d.amount + c.amount)])
            && (c.amount > - d.amount ==>
                  && result == result0 + [PlanItem(d.id, c.id, - d.amount)]
                  && creditors == creditors0[..|creditors0| - 1] + [Open(c.id, c.amount + d.amount)]
                  && debitors == debitors0[..|debitors0| - 1])
            && (c.amount == - d.amount ==>
                  && result == result0 + [PlanItem(d.id, c.id, c.amount)]
                  && creditors == creditors0[..|creditors0| - 1] && debitors == debitors0[..|debitors0| - 1])
  {
    var debitor := debitors0[|debitors0| - 1];
    var creditor := creditors0[|creditors0| - 1];
    debitors := debitors0[..|debitors0| - 1];
    creditors := creditors0[..|creditors0| - 1];
    var amount;
    if Abs(debitor.amount) > Abs(creditor.amount) {
      amount := Abs(creditor.amount);
    } else {
      amount := Abs(debitor.amount);
    }
    result := result0 + [PlanItem(debitor.id, creditor.id, amount)];
    var newDebitorBalance := debitor.amount + amount;
    if newDebitorBalance < 0.0 {
      debitors := debitors + [Open(debitor.id, newDebitorBalance)];
    }
    var newCreditorBalance := creditor.amount - amount;
    if newCreditorBalance > 0.0 {
      creditors := creditors + [Open(creditor.id, newCreditorBalance)];
    }
    ReduceLast(debitors0, newDebitorBalance);
    ReduceLast(creditors0, newCreditorBalance);
  }

  // ---------- whole runs of the planning loop ----------

  /** Both lists in ascending order of magnitude, equal magnitudes in their old order. */
  ghost predicate Sorted(s: Planner, creditors: seq<Open>, debitors: seq<Open>) {
    && multiset(creditors) == multiset(s.creditors) && multiset(debitors) == multiset(s.debitors)
    && SortedBy(creditors, Magnitude) && SortedBy(debitors, Magnitude)
    && SameOrder(creditors, s.creditors) && SameOrder(debitors, s.debitors)
  }

  ghost predicate SameOrder(s: seq<Open>, t: seq<Open>) {
    forall v :: WithKey(s, Magnitude, v) == WithKey(t, Magnitude, v)
  }

  /** Sorting both lists, and then `k` matches, after which nothing equal is left. */
  ghost predicate Matched(s: Planner, r: Planner, k: nat) {
    && NoneEqual(r.creditors, r.debitors)
    && exists creditors, debitors ::
         Sorted(s, creditors, debitors) && ByMatches(Planner(creditors, debitors, s.plan), r, k)
  }

  /** The rest of a round: a settlement, unless a list is empty and the loop is left. */
  ghost predicate SettledIfOpen(s: Planner, r: Planner) {
    r == if LastPayable(s) then SettledOnce(s) else s
  }

  ghost predicate BothOpen(s: Planner) {
    s.creditors != [] && s.debitors != []
  }

  /** A whole round, which the loop makes as long as both lists are open. */
  ghost predicate Round(s: Planner, r: Planner, k: nat) {
    BothOpen(s) && exists u :: Matched(s, u, k) && SettledIfOpen(u, r)
  }

  /** `r` comes from `s` by rounds of the planning loop with `matches` matches in all. */
  ghost predicate ByRounds(s: Planner, r: Planner, matches: nat, rounds: nat)
    decreases rounds
  {
    if rounds == 0 then r == s && matches == 0
    else exists t, k: nat :: k <= matches && ByRounds(s, t, matches - k, rounds - 1) && Round(t, r, k)
  }

  lemma {:induction false} MatchedKeeps(b: Id -> real, s: Planner, r: Planner, k: nat)
    requires PlanState(b, s.creditors, s.debitors, s.plan) && Matched(s, r, k)
    ensures Keeps(b, s, r)
    ensures |r.creditors| + k == |s.creditors| && |r.debitors| + k == |s.debitors|
    ensures BothSettled(b, r.plan) == BothSettled(b, s.plan) + k
  {
    var creditors, debitors :| Sorted(s, creditors, debitors) && ByMatches(Planner(creditors, debitors, s.plan), r, k);
    var sorted := Planner(creditors, debitors, s.plan);
    ReorderState(b, s, creditors, debitors);
    MatchesKeep(b, sorted, r, k);
    KeepsTransitively(b, s, sorted, r);
    var _ := MatchesCount(sorted, r, k);
  }

  lemma {:induction false} RoundKeeps(b: Id -> real, s: Planner, r: Planner, k: nat)
    requires PlanState(b, s.creditors, s.debitors, s.plan) && Round(s, r, k)
    ensures Keeps(b, s, r) && BothSettled(b, r.plan) == BothSettled(b, s.plan) + k
    ensures |r.creditors| + |r.debitors| < |s.creditors| + |s.debitors|
  {
    hide Matched, PlanState, SameMoney, Tally;
    var u :| Matched(s, u, k) && SettledIfOpen(u, r);
    MatchedKeeps(b, s, u, k);
    OpenIsPayable(b, u);
    if LastPayable(u) {
      MatchedLeavesNoneEqual(s, u, k);
      SettledKeeps(b, u);
      SettlesOneSide(b, u);
      SettledShrinks(u);
      KeepsTransitively(b, s, u, r);
    }
  }

  lemma MatchedLeavesNoneEqual(s: Planner, r: Planner, k: nat)
    requires Matched(s, r, k)
    ensures NoneEqual(r.creditors, r.debitors)
  {
  }

  lemma OpenIsPayable(b: Id -> real, s: Planner)
    requires PlanState(b, s.creditors, s.debitors, s.plan)
    ensures LastPayable(s) <==> BothOpen(s)
  {
    if BothOpen(s) {
      assert s.creditors[|s.creditors| - 1] in s.creditors && s.debitors[|s.debitors| - 1] in s.debitors;
    }
  }

  /** A run settles both accounts of an item exactly as often as it matches. */
  lemma {:induction false} MatchesAreDoubleSettlements(b: Id -> real, s: Planner, r: Planner, matches: nat, rounds: nat)
    requires PlanState(b, s.creditors, s.debitors, s.plan) && ByRounds(s, r, matches, rounds)
    ensures Keeps(b, s, r) && BothSettled(b, r.plan) == BothSettled(b, s.plan) + matches
    decreases rounds
  {
    hide Round, PlanState, BothSettled;
    if rounds > 0 {
      var t, k: nat :| k <= matches && ByRounds(s, t, matches - k, rounds - 1) && Round(t, r, k);
      MatchesAreDoubleSettlements(b, s, t, matches - k, rounds - 1);
      RoundKeeps(b, t, r, k);
      KeepsTransitively(b, s, t, r);
    }
  }

  /** What is settled after the matches of a round is the largest credit against the largest debt, and
      the payment is the smaller of the two. */
  lemma {:induction false} SettlesTheLargest(b: Id -> real, s: Planner, u: Planner, k: nat)
    requires PlanState(b, s.creditors, s.debitors, s.plan) && Matched(s, u, k) && BothOpen(u)
    ensures LastPayable(u)
    ensures var c, d := u.creditors[|u.creditors| - 1], u.debitors[|u.debitors| - 1];
            && (forall o :: o in u.creditors ==> o.amount <= c.amount)
            && (forall o :: o in u.debitors ==> o.amount >= d.amount)
            && SettledOnce(u).plan == u.plan + [PlanItem(d.id, c.id, if c.amount <= - d.amount then c.amount else - d.amount)]
  {
    hide Matched, PlanState, Tally, SameMoney, Reduce, InCredit, InDebt, SortedBy;
    MatchedKeeps(b, s, u, k);
    OpenIsPayable(b, u);
    MatchedIsSorted(s, u, k);
    StateHasSigns(b, u);
    LastIsLargest(b, u);
  }

  lemma StateHasSigns(b: Id -> real, u: Planner)
    requires PlanState(b, u.creditors, u.debitors, u.plan)
    ensures InCredit(b, u.creditors) && InDebt(b, u.debitors)
  {
  }

  lemma MatchedIsSorted(s: Planner, u: Planner, k: nat)
    requires Matched(s, u, k)
    ensures SortedBy(u.creditors, Magnitude) && SortedBy(u.debitors, Magnitude)
  {
    hide SameOrder, ByMatches, SortedBy;
    var creditors, debitors :| Sorted(s, creditors, debitors) && ByMatches(Planner(creditors, debitors, s.plan), u, k);
    MatchesKeepSorted(Planner(creditors, debitors, s.plan), u, k);
  }

  lemma SpliceKeepsSorted(s: seq<Open>, i: nat)
    requires i < |s| && SortedBy(s, Magnitude)
    ensures SortedBy(Splice(s, i), Magnitude)
  {
  }

  lemma {:induction false} MatchesKeepSorted(start: Planner, s: Planner, k: nat)
    requires ByMatches(start, s, k) && SortedBy(start.creditors, Magnitude) && SortedBy(start.debitors, Magnitude)
    ensures SortedBy(s.creditors, Magnitude) && SortedBy(s.debitors, Magnitude)
    decreases k
  {
    hide SortedBy, Splice;
    if k > 0 {
      var t, i: nat, j: nat :| ByMatches(start, t, k - 1) && Equal(t, i, j) && s == Match(t, i, j);
      MatchesKeepSorted(start, t, k - 1);
      SpliceKeepsSorted(t.creditors, i);
      SpliceKeepsSorted(t.debitors, j);
    }
  }

  lemma LastIsLargest(b: Id -> real, u: Planner)
    requires InCredit(b, u.creditors) && InDebt(b, u.debitors) && BothOpen(u)
    requires SortedBy(u.creditors, Magnitude) && SortedBy(u.debitors, Magnitude)
    ensures forall o :: o in u.creditors ==> o.amount <= u.creditors[|u.creditors| - 1].amount
    ensures forall o :: o in u.debitors ==> o.amount >= u.debitors[|u.debitors| - 1].amount
  {
    forall o | o in u.creditors ensures o.amount <= u.creditors[|u.creditors| - 1].amount {
      var i :| 0 <= i < |u.creditors| && u.creditors[i] == o;
      assert Magnitude(u.creditors[i]) <= Magnitude(u.creditors[|u.creditors| - 1]);
    }
    forall o | o in u.debitors ensures o.amount >= u.debitors[|u.debitors| - 1].amount {
      var i :| 0 <= i < |u.debitors| && u.debitors[i] == o;
      assert Magnitude(u.debitors[i]) <= Magnitude(u.debitors[|u.debitors| - 1]);
      assert u.debitors[|u.debitors| - 1] in u.debitors;
    }
  }

  ghost function Start(b: seq<Open>): Planner {
    Planner(Creditors(b), Debitors(b), [])
  }

  /** What the planning loop ends with: the unfiltered plan and what it could not settle. */
  ghost predicate PlanOutcome(b: seq<Open>, s: Planner) {
    && Keeps(BalanceIn(b), Start(b), s)
    && (s.creditors == [] || s.debitors == [])
    && (Sum(b) == 0.0 && |Creditors(b)| + |Debitors(b)| > 0 ==> BothSettled(BalanceIn(b), s.plan) >= 1)
  }

  ghost predicate IsPlan(b: seq<Open>, plan: Plan) {
    exists creditors: seq<Open>, debitors: seq<Open> :: PlanOutcome(b, Planner(creditors, debitors, plan))
  }

  /** The plan comes from a finished run of the planning loop with `matches` one-to-one matches in all. */
  ghost predicate PlannedWith(b: seq<Open>, plan: Plan, matches: nat) {
    exists s, rounds: nat :: ByRounds(Start(b), s, matches, rounds) && !BothOpen(s) && s.plan == plan
  }

  /** Sorting both lists and extracting the one-to-one settlements. */
  method MatchRound(creditors0: seq<Open>, debitors0: seq<Open>, result0: Plan)
    returns (creditors: seq<Open>, debitors: seq<Open>, result: Plan, ghost k: nat)
    ensures Matched(Planner(creditors0, debitors0, result0), Planner(creditors, debitors, result), k)
    ensures NoneEqual(creditors, debitors)
    ensures SortedBy(creditors, Magnitude) && SortedBy(debitors, Magnitude)
  {
    forall v ensures WithKey(SortBy(creditors0, Magnitude), Magnitude, v) == WithKey(creditors0, Magnitude, v)
             ensures WithKey(SortBy(debitors0, Magnitude), Magnitude, v) == WithKey(debitors0, Magnitude, v) {
      SortByIsStable(creditors0, Magnitude, v);
      SortByIsStable(debitors0, Magnitude, v);
    }
    SortByIsPermutation(creditors0, Magnitude);
    SortByIsPermutation(debitors0, Magnitude);
    SortByIsSorted(creditors0, Magnitude);
    SortByIsSorted(debitors0, Magnitude);
    creditors := SortBy(creditors0, Magnitude);
    debitors := SortBy(debitors0, Magnitude);
    assert Sorted(Planner(creditors0, debitors0, result0), creditors, debitors);
    k := |CommonMagnitudes(creditors, debitors)|;
    creditors, debitors, result := ExtractOneToOneSettlements(creditors, debitors, result0);
  }

  /** One round of the loop; it is left before the settlement when matching has emptied a list. */
  method PlanRound(creditors0: seq<Open>, debitors0: seq<Open>, result0: Plan, ghost due: Id -> real)
    returns (creditors: seq<Open>, debitors: seq<Open>, result: Plan, ghost k: nat)
    requires PlanState(due, creditors0, debitors0, result0) && creditors0 != [] && debitors0 != []
    ensures Round(Planner(creditors0, debitors0, result0), Planner(creditors, debitors, result), k)
    ensures PlanState(due, creditors, debitors, result)
    ensures |creditors| + |debitors| < |creditors0| + |debitors0|
  {
    hide PlanState, Matched;
    ghost var s := Planner(creditors0, debitors0, result0);
    creditors, debitors, result, k := MatchRound(creditors0, debitors0, result0);
    ghost var u := Planner(creditors, debitors, result);
    MatchedKeeps(due, s, u, k);
    OpenIsPayable(due, u);
    if |debitors| == 0 || |creditors| == 0 {
      RoundKeeps(due, s, u, k);
      return;
    }
    creditors, debitors, result := SettleLast(creditors, debitors, result);
    RoundKeeps(due, s, Planner(creditors, debitors, result), k);
  }

  /** Balances that add up to zero end with a round that empties both lists by matches alone. */
  lemma {:induction false} LastRoundMatches(b: Id -> real, t: Planner, s: Planner, k: nat)
    requires PlanState(b, t.creditors, t.debitors, t.plan)
    requires Round(t, s, k) && s.creditors == [] && s.debitors == []
    ensures k >= 1
  {
    hide PlanState, Matched;
    var u :| Matched(t, u, k) && SettledIfOpen(u, s);
    MatchedKeeps(b, t, u, k);
    MatchedLeavesNoneEqual(t, u, k);
    if LastPayable(u) {
      SettledShrinks(u);
    }
  }

  /** A run that starts with something open and ends with nothing has made a match. */
  lemma {:induction false} RunMatches(due: Id -> real, start: Planner, s: Planner, matches: nat, rounds: nat)
    requires PlanState(due, start.creditors, start.debitors, start.plan) && start.creditors != []
    requires ByRounds(start, s, matches, rounds) && s.creditors == [] && s.debitors == []
    ensures matches >= 1
  {
    hide PlanState, Round, BothSettled;
    var t, k: nat :| k <= matches && ByRounds(start, t, matches - k, rounds - 1) && Round(t, s, k);
    MatchesAreDoubleSettlements(due, start, t, matches - k, rounds - 1);
    LastRoundMatches(due, t, s, k);
  }

  lemma {:induction false} RunEnds(b: seq<Open>, s: Planner, matches: nat, rounds: nat)
    requires OncePerAccount(b) && ByRounds(Start(b), s, matches, rounds) && !BothOpen(s)
    ensures PlanOutcome(b, s)
  {
    hide ByRounds, Creditors, Debitors, SumSeq;
    var due := BalanceIn(b);
    InitialState(b);
    MatchesAreDoubleSettlements(due, Start(b), s, matches, rounds);
    if Sum(b) == 0.0 && |Creditors(b)| + |Debitors(b)| > 0 {
      BothOrNeither(due, s);
      BothOrNeither(due, Start(b));
      RunMatches(due, Start(b), s, matches, rounds);
    }
  }

  lemma RoundsPush(s: Planner, t: Planner, r: Planner, matches: nat, k: nat, rounds: nat)
    requires ByRounds(s, t, matches, rounds) && Round(t, r, k)
    ensures ByRounds(s, r, matches + k, rounds + 1)
  {
    hide Round;
    assert matches + k - k == matches && rounds + 1 - 1 == rounds;
  }

  method PlanPayments(b: seq<Open>) returns (result: Plan, ghost matches: nat)
    requires OncePerAccount(b)
    ensures IsPlan(b, result) && PlannedWith(b, result, matches)
  {
    hide PlanState, Round, PlanOutcome;
    var creditors, debitors := Creditors(b), Debitors(b);
    result, matches := [], 0;
    ghost var due, start, rounds := BalanceIn(b), Start(b), 0;
    InitialState(b);
    while |creditors| > 0 && |debitors| > 0
      invariant ByRounds(start, Planner(creditors, debitors, result), matches, rounds)
      invariant PlanState(due, creditors, debitors, result)
      decreases |creditors| + |debitors|
    {
      ghost var s := Planner(creditors, debitors, result);
      ghost var k;
      creditors, debitors, result, k := PlanRound(creditors, debitors, result, due);
      RoundsPush(start, s, Planner(creditors, debitors, result), matches, k, rounds);
      matches, rounds := matches + k, rounds + 1;
    }
    RunEnds(b, Planner(creditors, debitors, result), matches, rounds);
  }
}
