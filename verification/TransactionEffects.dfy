/** How one transaction changes the balance of every account it touches
    (frontend/libs/core/src/lib/transactions.ts). */
module TransactionEffects {
  import opened Sums

  type Id = int

  /** A JavaScript object from account ids to share weights.  Its keys are enumerated in some
      order, which the methods leave open by taking any remaining key. */
  type Shares = map<Id, real>

  datatype Position = Position(price: real, communistShares: real, usages: Shares, deleted: bool)

  /** `positions` holds the positions in the order of `position_ids`; dates are ordinals. */
  datatype Transaction = Transaction(
    id: Id,
    value: real,
    billedAt: int,
    positions: seq<Position>,
    creditorShares: Shares,
    debitorShares: Shares)

  datatype Effect = Effect(positions: real, commonCreditors: real, commonDebitors: real, total: real)

  const NO_EFFECT := Effect(0.0, 0.0, 0.0, 0.0)

  // ---------- closed form ----------

  function Weight(shares: Shares, a: Id): real {
    if a in shares then shares[a] else 0.0
  }

  ghost function WeightOf(shares: Shares): Id -> real {
    a => Weight(shares, a)
  }

  ghost function Total(shares: Shares): real {
    SumSet(shares.Keys, WeightOf(shares))
  }

  /** What a share of `weight` out of `total` gets of `amount`; nothing unless `total` is positive. */
  function Portion(amount: real, total: real, weight: real): real {
    if total > 0.0 then amount / total * weight else 0.0
  }

  ghost function Usages(p: Position): real {
    p.communistShares + Total(p.usages)
  }

  /** What account `a` is billed for position `p`. */
  ghost function Bill(p: Position, a: Id): real {
    if p.deleted then 0.0 else Portion(p.price, Usages(p), Weight(p.usages, a))
  }

  ghost function BillTo(a: Id): Position -> real {
    p => Bill(p, a)
  }

  /** The part of a position that does not go to the debitors of the whole transaction. */
  ghost function PrivatePart(p: Position): real {
    if p.deleted then 0.0 else p.price - Portion(p.price, Usages(p), p.communistShares)
  }

  ghost function Remainder(t: Transaction): real {
    t.value - SumSeq(t.positions, PrivatePart)
  }

  ghost function Positions(t: Transaction, a: Id): real {
    SumSeq(t.positions, BillTo(a))
  }

  ghost function Debit(t: Transaction, a: Id): real {
    Portion(Remainder(t), Total(t.debitorShares), Weight(t.debitorShares, a))
  }

  ghost function Credit(t: Transaction, a: Id): real {
    Portion(t.value, Total(t.creditorShares), Weight(t.creditorShares, a))
  }

  ghost function Net(t: Transaction, a: Id): real {
    Credit(t, a) - Positions(t, a) - Debit(t, a)
  }

  /** The effect of `t` on account `a`, independent of any enumeration order. */
  ghost function EffectOn(t: Transaction, a: Id): Effect {
    Effect(Positions(t, a), Credit(t, a), Debit(t, a), Net(t, a))
  }

  ghost function UsageKeys(ps: seq<Position>): set<Id> {
    set i, a | 0 <= i < |ps| && !ps[i].deleted && a in ps[i].usages :: a
  }

  ghost function Involved(t: Transaction): set<Id> {
    UsageKeys(t.positions) + t.debitorShares.Keys + t.creditorShares.Keys
  }

  /** An account is involved as a creditor, as a debitor or as a user of a live position. */
  lemma {:induction false} InvolvedAs(t: Transaction, a: Id)
    ensures a in Involved(t) <==>
            || a in t.creditorShares || a in t.debitorShares
            || exists p :: p in t.positions && !p.deleted && a in p.usages
  {
    if p :| p in t.positions && !p.deleted && a in p.usages {
      var i :| 0 <= i < |t.positions| && t.positions[i] == p;
      assert a in UsageKeys(t.positions);
    }
  }

  lemma {:induction false} NotInvolved(t: Transaction, a: Id)
    requires a !in Involved(t)
    ensures EffectOn(t, a) == NO_EFFECT
  {
    NotBilled(t.positions, a);
  }

  lemma {:induction false} NotBilled(ps: seq<Position>, a: Id)
    requires a !in UsageKeys(ps)
    ensures SumSeq(ps, BillTo(a)) == 0.0
  {
    forall p | p in ps ensures BillTo(a)(p) == 0.0 {
      var i :| 0 <= i < |ps| && ps[i] == p;
      assert !p.deleted ==> a !in ps[i].usages;
    }
    SumSeqCongruent(ps, BillTo(a), (p: Position) => 0.0);
    SumSeqZero(ps, (p: Position) => 0.0);
  }

  lemma {:induction false} SumSeqZero<T>(s: seq<T>, f: T -> real)
    requires forall x :: x in s ==> f(x) == 0.0
    ensures SumSeq(s, f) == 0.0
    decreases |s|
  {
    if s != [] {
      SumSeqZero(s[..|s| - 1], f);
    }
  }

  // ---------- how an amount is divided ----------

  /** `x` is to `y` as the weight `v` is to the weight `w`. */
  ghost predicate InProportion(x: real, v: real, y: real, w: real) {
    x * w == y * v
  }

  /** `part` divides the whole amount over the accounts of `shares`, in proportion to their weights. */
  ghost predicate DividesAll(amount: real, shares: Shares, part: Id -> real) {
    && (forall a, b :: a in shares && b in shares ==> InProportion(part(a), shares[a], part(b), shares[b]))
    && (forall a :: a !in shares ==> part(a) == 0.0)
    && SumSet(shares.Keys, part) == amount
  }

  /** As above, where nothing is divided unless the total weight is positive. */
  ghost predicate Divides(amount: real, shares: Shares, part: Id -> real) {
    if Total(shares) > 0.0 then DividesAll(amount, shares, part) else forall a :: part(a) == 0.0
  }

  /** There is only one way to divide an amount in proportion. */
  lemma {:induction false} DivisionIsUnique(amount: real, shares: Shares, f: Id -> real, g: Id -> real, a: Id)
    requires Total(shares) != 0.0
    requires DividesAll(amount, shares, f) && DividesAll(amount, shares, g)
    ensures f(a) == g(a)
  {
    hide Times, SumSet, InProportion;
    if a in shares {
      DividedPart(amount, shares, f, a);
      DividedPart(amount, shares, g, a);
      SameQuotient(f(a), g(a), Total(shares), Times(amount, shares[a]));
    }
  }

  ghost function Times(x: real, y: real): real { x * y }

  lemma CrossMultiplied(x: real, v: real, y: real, w: real)
    requires InProportion(x, v, y, w)
    ensures Scaled(x, w, Times(x, w)) && Scaled(v, y, Times(x, w))
  {
  }

  lemma {:induction false} DividedPart(amount: real, shares: Shares, part: Id -> real, a: Id)
    requires DividesAll(amount, shares, part) && a in shares
    ensures Times(part(a), Total(shares)) == Times(amount, shares[a])
  {
    hide Times, InProportion, SumSet, Scaled;
    var crossed := (b: Id) => Times(part(a), Weight(shares, b));
    forall b | b in shares.Keys
      ensures Scaled(part(a), WeightOf(shares)(b), crossed(b)) && Scaled(shares[a], part(b), crossed(b))
    {
      CrossMultiplied(part(a), shares[a], part(b), shares[b]);
    }
    SumSetScale(shares.Keys, part(a), WeightOf(shares), crossed);
    SumSetScale(shares.Keys, shares[a], part, crossed);
    SameProduct(part(a), Total(shares), shares[a], amount, SumSet(shares.Keys, crossed));
  }

  lemma SameProduct(x: real, y: real, v: real, w: real, z: real)
    requires Scaled(x, y, z) && Scaled(v, w, z)
    ensures Times(x, y) == Times(w, v)
  {
  }

  lemma SameQuotient(x: real, y: real, total: real, z: real)
    requires total != 0.0 && Times(x, total) == z && Times(y, total) == z
    ensures x == y
  {
    assert (x - y) * total == 0.0;
  }

  lemma PortionsInProportion(amount: real, total: real, v: real, w: real)
    ensures InProportion(Portion(amount, total, v), v, Portion(amount, total, w), w)
  {
    if total > 0.0 {
      var k := amount / total;
      assert k * v * w == k * w * v;
    }
  }

  lemma {:induction false} PortionsDivide(amount: real, shares: Shares, part: Id -> real)
    requires forall a :: part(a) == Portion(amount, Total(shares), Weight(shares, a))
    ensures Divides(amount, shares, part)
  {
    hide Portion, Total, InProportion;
    var total := Total(shares);
    PortionsAddUp(amount, shares, shares.Keys, part);
    forall a, b | a in shares && b in shares ensures InProportion(part(a), shares[a], part(b), shares[b]) {
      PortionsInProportion(amount, total, shares[a], shares[b]);
    }
    forall a ensures total <= 0.0 || a !in shares ==> part(a) == 0.0 {
      NoPortion(amount, total, Weight(shares, a));
    }
  }

  lemma NoPortion(amount: real, total: real, weight: real)
    ensures total <= 0.0 || weight == 0.0 ==> Portion(amount, total, weight) == 0.0
  {
    if total > 0.0 && weight == 0.0 {
      assert amount / total * weight == amount / total * 0.0 == 0.0;
    }
  }

  /** The debitors divide the remainder and the creditors the value, by their weights. */
  lemma {:induction false} SharesDivide(t: Transaction)
    ensures Divides(Remainder(t), t.debitorShares, DebitOf(t))
    ensures Divides(t.value, t.creditorShares, CreditOf(t))
  {
    hide Divides, Remainder, Total, Portion;
    PortionsDivide(Remainder(t), t.debitorShares, DebitOf(t));
    PortionsDivide(t.value, t.creditorShares, CreditOf(t));
  }

  /** The part of a position that goes to the debitors of the whole transaction. */
  ghost function CommonPart(p: Position): real {
    if p.deleted then 0.0 else p.price - PrivatePart(p)
  }

  /** The price of a live position with positive usage is divided among its users and the common part,
      in proportion to the usages and the common shares.  Nobody is billed for any other position. */
  ghost predicate DividesPosition(p: Position, part: Id -> real, common: real) {
    && (forall a, b :: InProportion(part(a), Weight(p.usages, a), part(b), Weight(p.usages, b)))
    && (forall a :: InProportion(part(a), Weight(p.usages, a), common, p.communistShares))
    && (if p.deleted || p.communistShares + Total(p.usages) <= 0.0 then (forall a :: part(a) == 0.0) && common == 0.0
        else SumSet(p.usages.Keys, part) + common == p.price)
  }

  lemma {:induction false} BillsDivide(p: Position)
    ensures DividesPosition(p, BillOf(p), CommonPart(p))
    ensures PrivatePart(p) == if p.deleted then 0.0 else p.price - CommonPart(p)
  {
    hide SumSet, InProportion, Total;
    forall a, b ensures InProportion(Bill(p, a), Weight(p.usages, a), Bill(p, b), Weight(p.usages, b)) {
      PortionsInProportion(p.price, Usages(p), Weight(p.usages, a), Weight(p.usages, b));
      ZeroInProportion(Weight(p.usages, a), Weight(p.usages, b));
    }
    forall a ensures InProportion(Bill(p, a), Weight(p.usages, a), CommonPart(p), p.communistShares) {
      PortionsInProportion(p.price, Usages(p), Weight(p.usages, a), p.communistShares);
      ZeroInProportion(Weight(p.usages, a), p.communistShares);
    }
    BillsAddUp(p, p.usages.Keys);
  }

  lemma ZeroInProportion(v: real, w: real)
    ensures InProportion(0.0, v, 0.0, w)
  {
  }

  // ---------- the loops ----------

  method SumValues(shares: Shares) returns (sum: real)
    ensures sum == Total(shares)
  {
    sum := 0.0;
    var todo := shares.Keys;
    while todo != {}
      invariant todo <= shares.Keys
      invariant sum == SumSet(shares.Keys - todo, WeightOf(shares))
      decreases todo
    {
      var k := NextKey(todo);
      SumSetInsert(shares.Keys - todo, k, WeightOf(shares));
      assert shares.Keys - (todo - {k}) == shares.Keys - todo + {k};
      sum := sum + shares[k];
      todo := todo - {k};
    }
    assert shares.Keys - todo == shares.Keys;
  }

  /** The entry of `a`, where an account without an entry counts as untouched. */
  function Entry(effect: map<Id, Effect>, a: Id): Effect {
    if a in effect then effect[a] else NO_EFFECT
  }

  /** What the debitor column of each account gains, and the creditor column. */
  ghost function DebitorGain(before: map<Id, Effect>, after: map<Id, Effect>): Id -> real {
    a => Entry(after, a).commonDebitors - Entry(before, a).commonDebitors
  }

  ghost function CreditorGain(before: map<Id, Effect>, after: map<Id, Effect>): Id -> real {
    a => Entry(after, a).commonCreditors - Entry(before, a).commonCreditors
  }

  ghost function PositionGain(before: map<Id, Effect>, after: map<Id, Effect>): Id -> real {
    a => Entry(after, a).positions - Entry(before, a).positions
  }

  lemma {:induction false} SamePartsDivideAll(amount: real, shares: Shares, f: Id -> real, g: Id -> real)
    requires DividesAll(amount, shares, f) && forall a :: f(a) == g(a)
    ensures DividesAll(amount, shares, g)
  {
    hide InProportion;
    forall a | a in shares.Keys ensures f(a) == g(a) {
    }
    SumSetCongruent(shares.Keys, f, g);
    forall a, b | a in shares && b in shares ensures InProportion(g(a), shares[a], g(b), shares[b]) {
      assert InProportion(f(a), shares[a], f(b), shares[b]);
    }
  }

  lemma {:induction false} SamePartsDivide(amount: real, shares: Shares, f: Id -> real, g: Id -> real)
    requires Divides(amount, shares, f) && forall a :: f(a) == g(a)
    ensures Divides(amount, shares, g)
  {
    hide Total, DividesAll;
    if Total(shares) > 0.0 {
      SamePartsDivideAll(amount, shares, f, g);
    }
  }

  method BillUsages(effect: map<Id, Effect>, position: Position, totalUsages: real)
    returns (r: map<Id, Effect>)
    requires !position.deleted && totalUsages == Usages(position)
    ensures r.Keys == effect.Keys + position.usages.Keys
    ensures forall a :: Entry(r, a) ==
                        Entry(effect, a).(positions := Entry(effect, a).positions + Bill(position, a))
    ensures DividesPosition(position, PositionGain(effect, r), CommonPart(position))
  {
    hide DividesPosition, CommonPart;
    r := effect;
    var todo := position.usages.Keys;
    while todo != {}
      invariant todo <= position.usages.Keys
      invariant r.Keys == effect.Keys + (position.usages.Keys - todo)
      invariant forall a :: Entry(r, a) == if a in todo then Entry(effect, a) else
                              Entry(effect, a).(positions := Entry(effect, a).positions + Bill(position, a))
      decreases todo
    {
      var k := NextKey(todo);
      var part := if totalUsages > 0.0 then position.price / totalUsages * position.usages[k] else 0.0;
      if k in r {
        r := r[k := r[k].(positions := r[k].positions + part)];
      } else {
        r := r[k := Effect(part, 0.0, 0.0, 0.0)];
      }
      todo := todo - {k};
    }
    GainsDivide(position, effect, r);
  }

  lemma {:induction false} DebitorsDivide(before: map<Id, Effect>, after: map<Id, Effect>, t: Transaction)
    requires forall a :: Entry(after, a) ==
                         Entry(before, a).(commonDebitors := Entry(before, a).commonDebitors + Debit(t, a))
    ensures Divides(Remainder(t), t.debitorShares, DebitorGain(before, after))
  {
    hide Divides, Debit;
    SharesDivide(t);
    SamePartsDivide(Remainder(t), t.debitorShares, DebitOf(t), DebitorGain(before, after));
  }

  lemma {:induction false} CreditorsDivide(before: map<Id, Effect>, after: map<Id, Effect>, t: Transaction)
    requires forall a :: Entry(after, a) ==
                         Entry(before, a).(commonCreditors := Entry(before, a).commonCreditors + Credit(t, a))
    ensures Divides(t.value, t.creditorShares, CreditorGain(before, after))
  {
    hide Divides, Credit;
    SharesDivide(t);
    SamePartsDivide(t.value, t.creditorShares, CreditOf(t), CreditorGain(before, after));
  }

  method ShareDebit(effect: map<Id, Effect>, t: Transaction, remaining: real) returns (r: map<Id, Effect>)
    requires remaining == Remainder(t)
    ensures r.Keys == effect.Keys + t.debitorShares.Keys
    ensures forall a :: Entry(r, a) ==
                        Entry(effect, a).(commonDebitors := Entry(effect, a).commonDebitors + Debit(t, a))
    ensures Divides(remaining, t.debitorShares, DebitorGain(effect, r))
  {
    hide Divides;
    r := effect;
    var totalShares := SumValues(t.debitorShares);
    var todo := t.debitorShares.Keys;
    while todo != {}
      invariant todo <= t.debitorShares.Keys
      invariant r.Keys == effect.Keys + (t.debitorShares.Keys - todo)
      invariant forall a :: Entry(r, a) == if a in todo then Entry(effect, a) else
                              Entry(effect, a).(commonDebitors := Entry(effect, a).commonDebitors + Debit(t, a))
      decreases todo
    {
      var k := NextKey(todo);
      var part := if totalShares > 0.0 then remaining / totalShares * t.debitorShares[k] else 0.0;
      if k in r {
        r := r[k := r[k].(commonDebitors := r[k].commonDebitors + part)];
      } else {
        r := r[k := Effect(0.0, 0.0, part, 0.0)];
      }
      todo := todo - {k};
    }
    DebitorsDivide(effect, r, t);
  }

  method ShareCredit(effect: map<Id, Effect>, t: Transaction) returns (r: map<Id, Effect>)
    ensures r.Keys == effect.Keys + t.creditorShares.Keys
    ensures forall a :: Entry(r, a) ==
                        Entry(effect, a).(commonCreditors := Entry(effect, a).commonCreditors + Credit(t, a))
    ensures Divides(t.value, t.creditorShares, CreditorGain(effect, r))
  {
    hide Divides;
    r := effect;
    var totalShares := SumValues(t.creditorShares);
    var todo := t.creditorShares.Keys;
    while todo != {}
      invariant todo <= t.creditorShares.Keys
      invariant r.Keys == effect.Keys + (t.creditorShares.Keys - todo)
      invariant forall a :: Entry(r, a) == if a in todo then Entry(effect, a) else
                              Entry(effect, a).(commonCreditors := Entry(effect, a).commonCreditors + Credit(t, a))
      decreases todo
    {
      var k := NextKey(todo);
      var part := if totalShares > 0.0 then t.value / totalShares * t.creditorShares[k] else 0.0;
      if k in r {
        r := r[k := r[k].(commonCreditors := r[k].commonCreditors + part)];
      } else {
        r := r[k := Effect(0.0, part, 0.0, 0.0)];
      }
      todo := todo - {k};
    }
    CreditorsDivide(effect, r, t);
  }

  lemma {:induction false} GainsDivide(p: Position, before: map<Id, Effect>, after: map<Id, Effect>)
    requires forall a :: Entry(after, a) ==
                         Entry(before, a).(positions := Entry(before, a).positions + Bill(p, a))
    ensures DividesPosition(p, PositionGain(before, after), CommonPart(p))
  {
    hide Bill, InProportion, Total;
    BillsDivide(p);
    forall a ensures BillOf(p)(a) == PositionGain(before, after)(a) {
    }
    SumSetCongruent(p.usages.Keys, BillOf(p), PositionGain(before, after));
    forall a, b ensures InProportion(PositionGain(before, after)(a), Weight(p.usages, a),
                                     PositionGain(before, after)(b), Weight(p.usages, b)) {
      assert InProportion(BillOf(p)(a), Weight(p.usages, a), BillOf(p)(b), Weight(p.usages, b));
    }
    forall a ensures InProportion(PositionGain(before, after)(a), Weight(p.usages, a), CommonPart(p), p.communistShares) {
      assert InProportion(BillOf(p)(a), Weight(p.usages, a), CommonPart(p), p.communistShares);
    }
  }

  method BillPosition(effect: map<Id, Effect>, remaining: real, position: Position)
    returns (r: map<Id, Effect>, rest: real)
    ensures rest == remaining - PrivatePart(position)
    ensures position.deleted ==> r == effect && rest == remaining
    ensures DividesPosition(position, PositionGain(effect, r),
                            if position.deleted then 0.0 else position.price - (remaining - rest))
    ensures r.Keys == effect.Keys + if position.deleted then {} else position.usages.Keys
    ensures forall a :: Entry(r, a) ==
                        Entry(effect, a).(positions := Entry(effect, a).positions + Bill(position, a))
  {
    if position.deleted {
      GainsDivide(position, effect, effect);
      return effect, remaining;
    }
    var usages := SumValues(position.usages);
    var totalUsages := position.communistShares + usages;
    r := BillUsages(effect, position, totalUsages);
    var commonRemainder := if totalUsages > 0.0 then position.price / totalUsages * position.communistShares else 0.0;
    rest := remaining - position.price + commonRemainder;
    GainsDivide(position, effect, r);
  }

  method BillPositions(t: Transaction) returns (effect: map<Id, Effect>, remaining: real)
    ensures remaining == Remainder(t)
    ensures effect.Keys == UsageKeys(t.positions)
    ensures forall a :: Entry(effect, a) == NO_EFFECT.(positions := Positions(t, a))
  {
    effect := map[];
    remaining := t.value;
    for i := 0 to |t.positions|
      invariant remaining == t.value - SumSeq(t.positions[..i], PrivatePart)
      invariant effect.Keys == UsageKeys(t.positions[..i])
      invariant forall a :: Entry(effect, a) == NO_EFFECT.(positions := SumSeq(t.positions[..i], BillTo(a)))
    {
      assert t.positions[..i + 1] == t.positions[..i] + [t.positions[i]];
      PositionPush(t.positions[..i], t.positions[i]);
      UsageKeysPush(t.positions[..i], t.positions[i]);
      effect, remaining := BillPosition(effect, remaining, t.positions[i]);
    }
    assert t.positions[..|t.positions|] == t.positions;
  }

  lemma PositionPush(ps: seq<Position>, p: Position)
    ensures SumSeq(ps + [p], PrivatePart) == SumSeq(ps, PrivatePart) + PrivatePart(p)
    ensures forall a :: SumSeq(ps + [p], BillTo(a)) == SumSeq(ps, BillTo(a)) + Bill(p, a)
  {
    SumSeqPush(ps, p, PrivatePart);
    forall a ensures SumSeq(ps + [p], BillTo(a)) == SumSeq(ps, BillTo(a)) + Bill(p, a) {
      SumSeqPush(ps, p, BillTo(a));
    }
  }

  lemma UsageKeysPush(ps: seq<Position>, p: Position)
    ensures UsageKeys(ps + [p]) == UsageKeys(ps) + if p.deleted then {} else p.usages.Keys
  {
    var qs := ps + [p];
    forall a | a in UsageKeys(ps) + if p.deleted then {} else p.usages.Keys ensures a in UsageKeys(qs) {
      if a in UsageKeys(ps) {
        var i :| 0 <= i < |ps| && !ps[i].deleted && a in ps[i].usages;
        assert qs[i] == ps[i];
      } else {
        assert qs[|ps|] == p;
      }
    }
    forall a | a in UsageKeys(qs) ensures a in UsageKeys(ps) + if p.deleted then {} else p.usages.Keys {
      var i :| 0 <= i < |qs| && !qs[i].deleted && a in qs[i].usages;
      assert i < |ps| ==> qs[i] == ps[i];
    }
  }

  ghost function Totalled(b: Effect): Effect {
    b.(total := b.commonCreditors - b.positions - b.commonDebitors)
  }

  method FillTotals(effect: map<Id, Effect>) returns (r: map<Id, Effect>)
    ensures r.Keys == effect.Keys
    ensures forall a :: a in effect ==> r[a] == Totalled(effect[a])
  {
    r := effect;
    var todo := effect.Keys;
    while todo != {}
      invariant todo <= effect.Keys == r.Keys
      invariant forall a :: a in todo ==> r[a] == effect[a]
      invariant forall a :: a in effect.Keys - todo ==> r[a] == Totalled(effect[a])
      decreases todo
    {
      var k := NextKey(todo);
      var b := r[k];
      r := r[k := b.(total := b.commonCreditors - b.positions - b.commonDebitors)];
      todo := todo - {k};
    }
  }

  /** The columns of the effects divide the remainder and the value. */
  lemma {:induction false} ColumnsDivide(t: Transaction, effect: map<Id, Effect>)
    requires effect.Keys == Involved(t)
    requires forall a :: a in effect ==> effect[a] == EffectOn(t, a)
    ensures Divides(Remainder(t), t.debitorShares, DebitorGain(map[], effect))
    ensures Divides(t.value, t.creditorShares, CreditorGain(map[], effect))
  {
    hide Divides, Debit, Credit, Positions, Net, Involved;
    SharesDivide(t);
    forall a ensures DebitOf(t)(a) == DebitorGain(map[], effect)(a) && CreditOf(t)(a) == CreditorGain(map[], effect)(a) {
      if a !in effect {
        NotInvolved(t, a);
      }
    }
    SamePartsDivide(Remainder(t), t.debitorShares, DebitOf(t), DebitorGain(map[], effect));
    SamePartsDivide(t.value, t.creditorShares, CreditOf(t), CreditorGain(map[], effect));
  }

  /** The accumulating loops compute the closed form, for every enumeration order of the keys. */
  method ComputeTransactionBalanceEffect(t: Transaction) returns (effect: map<Id, Effect>)
    ensures effect.Keys == Involved(t)
    ensures forall a :: a in effect ==> effect[a] == EffectOn(t, a)
    ensures Divides(Remainder(t), t.debitorShares, DebitorGain(map[], effect))
    ensures Divides(t.value, t.creditorShares, CreditorGain(map[], effect))
    ensures forall a :: a in effect ==>
                          && effect[a].positions == SumSeq(t.positions, BillTo(a))
                          && effect[a].total == effect[a].commonCreditors - effect[a].positions - effect[a].commonDebitors
  {
    hide Divides, SumSeq, Debit, Credit, Portion;
    var billed, remaining := BillPositions(t);
    var debited := ShareDebit(billed, t, remaining);
    var credited := ShareCredit(debited, t);
    effect := FillTotals(credited);
    forall a | a in effect ensures effect[a] == EffectOn(t, a) {
      assert Entry(billed, a) == Effect(Positions(t, a), 0.0, 0.0, 0.0);
      assert Entry(debited, a) == Effect(Positions(t, a), 0.0, Debit(t, a), 0.0);
      assert Entry(credited, a) == Effect(Positions(t, a), Credit(t, a), Debit(t, a), 0.0);
    }
    ColumnsDivide(t, effect);
  }

  // ---------- what the closed form adds up to ----------

  ghost function CreditOf(t: Transaction): Id -> real { a => Credit(t, a) }
  ghost function DebitOf(t: Transaction): Id -> real { a => Debit(t, a) }
  ghost function PositionsOf(t: Transaction): Id -> real { a => Positions(t, a) }
  ghost function NetOf(t: Transaction): Id -> real { a => Net(t, a) }
  ghost function BillOf(p: Position): Id -> real { a => Bill(p, a) }

  /** The price of a live position that nobody is billed for, because its shares do not add up
      to a positive number. */
  ghost function Stranded(p: Position): real {
    if !p.deleted && Usages(p) <= 0.0 then p.price else 0.0
  }

  ghost function StrandedValue(t: Transaction): real {
    SumSeq(t.positions, Stranded)
  }

  ghost predicate WellFormed(t: Transaction) {
    && Total(t.creditorShares) > 0.0
    && Total(t.debitorShares) > 0.0
    && forall p :: p in t.positions && !p.deleted ==> Usages(p) > 0.0
  }

  lemma {:induction false} PortionsAddUp(amount: real, shares: Shares, ids: set<Id>, part: Id -> real)
    requires shares.Keys <= ids
    requires forall a :: part(a) == Portion(amount, Total(shares), Weight(shares, a))
    ensures SumSet(ids, part) == if Total(shares) > 0.0 then amount else 0.0
  {
    if Total(shares) > 0.0 {
      var total := Total(shares);
      forall a | a in ids ensures Scaled(amount / total, WeightOf(shares)(a), part(a)) {
      }
      SumSetScale(ids, amount / total, WeightOf(shares), part);
      SumSetExtend(shares.Keys, ids, WeightOf(shares));
      WholeOf(amount, total);
    } else {
      assert forall a :: part(a) == 0.0;
      SumSetZero(ids, part);
    }
  }

  lemma {:induction false} BillsAddUp(p: Position, ids: set<Id>)
    requires !p.deleted ==> p.usages.Keys <= ids
    ensures SumSet(ids, BillOf(p)) == PrivatePart(p) - Stranded(p)
  {
    if p.deleted {
      SumSetZero(ids, BillOf(p));
    } else if Usages(p) <= 0.0 {
      SumSetZero(ids, BillOf(p));
    } else {
      LiveBillsAddUp(p, ids);
      SplitPrice(p.price, Usages(p), p.communistShares, Total(p.usages));
    }
  }

  lemma {:induction false} LiveBillsAddUp(p: Position, ids: set<Id>)
    requires !p.deleted && Usages(p) > 0.0 && p.usages.Keys <= ids
    ensures SumSet(ids, BillOf(p)) == p.price / Usages(p) * Total(p.usages)
  {
    hide SumSet;
    var k := p.price / Usages(p);
    forall a | a in ids ensures Scaled(k, WeightOf(p.usages)(a), BillOf(p)(a)) {
    }
    SumSetScale(ids, k, WeightOf(p.usages), BillOf(p));
    SumSetExtend(p.usages.Keys, ids, WeightOf(p.usages));
  }

  lemma WholeOf(amount: real, total: real)
    requires total > 0.0
    ensures amount / total * total == amount
  {
  }

  lemma SplitPrice(price: real, usages: real, common: real, private: real)
    requires usages > 0.0 && usages == common + private
    ensures price / usages * private == price - price / usages * common
  {
    var k := price / usages;
    assert k * usages == price;
    assert k * (common + private) == k * common + k * private;
  }

  ghost function BillTable(): Id -> Position -> real {
    a => BillTo(a)
  }

  /** Over any set of accounts that covers those involved, the positions add up to the value
      minus the remainder (minus what is stranded), the debitors to the remainder and the
      creditors to the value. */
  lemma {:induction false} ColumnsAddUp(t: Transaction, ids: set<Id>)
    requires Involved(t) <= ids
    ensures SumSet(ids, PositionsOf(t)) == t.value - Remainder(t) - StrandedValue(t)
    ensures SumSet(ids, DebitOf(t)) == if Total(t.debitorShares) > 0.0 then Remainder(t) else 0.0
    ensures SumSet(ids, CreditOf(t)) == if Total(t.creditorShares) > 0.0 then t.value else 0.0
  {
    PortionsAddUp(t.value, t.creditorShares, ids, CreditOf(t));
    PortionsAddUp(Remainder(t), t.debitorShares, ids, DebitOf(t));
    var billed := (p: Position) => SumSet(ids, BillOf(p));
    forall p | p in t.positions
      ensures billed(p) == SumSet(ids, Row(BillTable(), p))
      ensures PrivatePart(p) == billed(p) + Stranded(p)
    {
      var i :| 0 <= i < |t.positions| && t.positions[i] == p;
      forall a | !p.deleted && a in p.usages ensures a in UsageKeys(t.positions) {
        assert a in t.positions[i].usages;
      }
      forall a ensures BillOf(p)(a) == Row(BillTable(), p)(a) {
        assert BillTable()(a) == BillTo(a);
      }
      SumSetCongruent(ids, BillOf(p), Row(BillTable(), p));
      BillsAddUp(p, ids);
    }
    SumExchange(t.positions, ids, BillTable(), PositionsOf(t), billed);
    SumSeqAdd(t.positions, billed, Stranded, PrivatePart);
  }

  /** What a transaction adds to the sum of all balances, whatever its shares are. */
  lemma {:induction false} NetAddsUp(t: Transaction, ids: set<Id>)
    requires Involved(t) <= ids
    ensures SumSet(ids, NetOf(t)) ==
            (if Total(t.creditorShares) > 0.0 then 0.0 else - t.value)
            + (if Total(t.debitorShares) > 0.0 then 0.0 else Remainder(t))
            + StrandedValue(t)
  {
    ColumnsAddUp(t, ids);
    var charged := (a: Id) => Positions(t, a) + Debit(t, a);
    SumSetAdd(ids, PositionsOf(t), DebitOf(t), charged);
    SumSetAdd(ids, NetOf(t), charged, CreditOf(t));
  }

  /** With positive creditor and debitor totals a transaction moves money and creates none exactly
      when no money is stranded on positions without positive usage; being well-formed is enough. */
  lemma {:induction false} ZeroSumIffNothingStranded(t: Transaction, ids: set<Id>)
    requires Involved(t) <= ids
    requires Total(t.creditorShares) > 0.0 && Total(t.debitorShares) > 0.0
    ensures SumSet(ids, NetOf(t)) == 0.0 <==> StrandedValue(t) == 0.0
    ensures WellFormed(t) ==> SumSet(ids, NetOf(t)) == 0.0
  {
    NetAddsUp(t, ids);
    if WellFormed(t) {
      SumSeqZero(t.positions, Stranded);
    }
  }

  /** A purchase of 10 with one position of 4 that nobody uses and that has no common share. */
  const UNASSIGNED_PURCHASE :=
    Transaction(1, 10.0, 0, [Position(4.0, 0.0, map[], false)], map[1 := 1.0], map[2 := 1.0])

  lemma SingleShare(k: Id)
    ensures Total(map[k := 1.0]) == 1.0
  {
    var shares: Shares := map[k := 1.0];
    assert shares.Keys == {k};
    SumSetPick({k}, k, WeightOf(shares));
    assert {k} - {k} == {};
  }

  /** It creates money: the creditor gets 10 and the debitor pays 6. */
  lemma {:induction false} UnassignedPositionStrands()
    ensures Involved(UNASSIGNED_PURCHASE) == {1, 2}
    ensures Total(UNASSIGNED_PURCHASE.creditorShares) == Total(UNASSIGNED_PURCHASE.debitorShares) == 1.0
    ensures StrandedValue(UNASSIGNED_PURCHASE) == 4.0
    ensures SumSet({1, 2}, NetOf(UNASSIGNED_PURCHASE)) == 4.0
  {
    var t := UNASSIGNED_PURCHASE;
    var p := t.positions[0];
    SingleShare(1);
    SingleShare(2);
    assert p.usages.Keys == {};
    assert t.positions == [] + [p];
    SumSeqPush([], p, Stranded);
    assert UsageKeys(t.positions) == {};
    NetAddsUp(t, {1, 2});
  }
}
