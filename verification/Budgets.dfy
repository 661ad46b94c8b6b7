/** Integer budgets shared by recommendations: what one reservation engine pays for another. */
module Budgets {
  import opened IntMath

  /** A budget a recommendation may draw on: reserved units pay for nodes recommended nodes. */
  datatype Offer<K> = Offer(key: K, nodes: nat, reserved: nat)

  /** What one offer contributed. */
  datatype Credit<K> = Credit(offer: Offer<K>, covered: nat, spent: nat)

  predicate ValidOffer<K>(o: Offer<K>) {
    0 < o.nodes && 0 < o.reserved
  }

  /** Nodes covered round down, reserved units spent round up. */
  function Consume(available: nat, want: nat, nodes: nat, reserved: nat): (r: (nat, nat))
    requires 0 < nodes && 0 < reserved
  {
    var full := Div(Mul(available, nodes), reserved);
    var covered := if full <= want then full else want;
    (covered, Div(Mul(covered, reserved) + nodes - 1, nodes))
  }

  /** Both roundings favour buying: the nodes covered are worth at most what is spent, what is spent
      is the least that pays for them and is available, and no further node could be covered. */
  lemma ConsumeRounds(available: nat, want: nat, nodes: nat, reserved: nat)
    requires 0 < nodes && 0 < reserved
    ensures var (covered, spent) := Consume(available, want, nodes, reserved);
      && covered <= want
      && spent <= available
      && Mul(covered, reserved) <= Mul(spent, nodes) < Mul(covered, reserved) + nodes
      && (covered < want ==> Mul(available, nodes) < Mul(covered + 1, reserved))
      && (covered < want ==> Mul(available - spent, nodes) < reserved)
  {
    var total := Mul(available, nodes);
    var (covered, spent) := Consume(available, want, nodes, reserved);
    var cost := Mul(covered, reserved);
    DivFits(total, reserved);
    MulMonotone(covered, Div(total, reserved), reserved);
    MulNonNegative(covered, reserved);
    DivFits(cost + nodes - 1, nodes);
    MulAdd(spent, 1, nodes);
    MulUnit(nodes);
    if available < spent {
      MulMonotone(available + 1, spent, nodes);
      MulAdd(available, 1, nodes);
      assert false;
    }
    MulSub(available, spent, nodes);
    MulAdd(covered, 1, reserved);
    MulUnit(reserved);
  }

  /** One for one, nothing is lost to rounding; reserved units per node are spent exactly. */
  lemma WholeNodesAreExact(available: nat, want: nat, reserved: nat)
    requires 0 < reserved
    ensures var (covered, spent) := Consume(available, want, 1, reserved); spent == Mul(covered, reserved)
  {
    ConsumeRounds(available, want, 1, reserved);
    MulUnit(Consume(available, want, 1, reserved).1);
  }

  // ---- Several offers in order ------------------------------------------------------------

  function At<K>(left: map<K, int>, key: K): int {
    if key in left then left[key] else 0
  }

  function CreditOf<K>(left: map<K, int>, o: Offer<K>, want: nat): (c: Credit<K>)
    requires ValidOffer(o)
  {
    if At(left, o.key) <= 0 then Credit(o, 0, 0)
    else
      var (covered, spent) := Consume(At(left, o.key), want, o.nodes, o.reserved);
      Credit(o, covered, spent)
  }

  function Spent<K>(left: map<K, int>, c: Credit<K>): map<K, int> {
    if At(left, c.offer.key) <= 0 then left else left[c.offer.key := At(left, c.offer.key) - c.spent]
  }

  /** Budgets, nodes still wanted, and one credit per offer after drawing on the offers in order. */
  datatype Charged<K> = Charged(left: map<K, int>, remaining: int, credits: seq<Credit<K>>)

  function Charge<K>(left: map<K, int>, offers: seq<Offer<K>>, want: nat): (r: Charged<K>)
    requires forall i :: 0 <= i < |offers| ==> ValidOffer(offers[i])
    ensures |r.credits| == |offers| && 0 <= r.remaining <= want
  {
    if offers == [] then Charged(left, want, [])
    else
      var last := |offers| - 1;
      var before := Charge(left, offers[..last], want);
      var c := CreditOf(before.left, offers[last], before.remaining);
      CreditFacts(before.left, offers[last], before.remaining);
      Charged(Spent(before.left, c), before.remaining - c.covered, before.credits + [c])
  }

  lemma CreditFacts<K>(left: map<K, int>, o: Offer<K>, want: nat)
    requires ValidOffer(o)
    ensures var c := CreditOf(left, o, want);
      && c.offer == o
      && c.covered <= want
      && c.spent <= Max(At(left, o.key), 0)
      && Mul(c.covered, o.reserved) <= Mul(c.spent, o.nodes) < Mul(c.covered, o.reserved) + o.nodes
      && (c.covered < want ==> Mul(At(left, o.key) - c.spent, o.nodes) < o.reserved)
  {
    if 0 < At(left, o.key) {
      ConsumeRounds(At(left, o.key), want, o.nodes, o.reserved);
    } else {
      MulUnit(o.reserved);
      MulUnit(o.nodes);
      MulMonotone(At(left, o.key), 0, o.nodes);
    }
  }

  function CoveredSum<K>(credits: seq<Credit<K>>): int {
    if credits == [] then 0 else CoveredSum(credits[..|credits| - 1]) + credits[|credits| - 1].covered
  }

  /** Units credits took from one budget. */
  function SpentAt<K(==)>(credits: seq<Credit<K>>, key: K): int {
    if credits == [] then 0
    else
      var c := credits[|credits| - 1];
      SpentAt(credits[..|credits| - 1], key) + (if c.offer.key == key then c.spent else 0)
  }

  lemma AppendCredit<K>(credits: seq<Credit<K>>, c: Credit<K>, key: K)
    ensures CoveredSum(credits + [c]) == CoveredSum(credits) + c.covered
    ensures SpentAt(credits + [c], key) == SpentAt(credits, key) + (if c.offer.key == key then c.spent else 0)
  {
    assert (credits + [c])[..|credits|] == credits;
  }

  /** Every covered node has a credit, every unit gone from a budget was spent by a credit, and a
      budget that was not negative stays so. */
  lemma {:induction false} ChargeConserves<K>(left: map<K, int>, offers: seq<Offer<K>>, want: nat, key: K)
    requires forall i :: 0 <= i < |offers| ==> ValidOffer(offers[i])
    ensures var r := Charge(left, offers, want);
      && want - r.remaining == CoveredSum(r.credits)
      && At(left, key) - At(r.left, key) == SpentAt(r.credits, key)
      && Min(At(left, key), 0) <= At(r.left, key) <= At(left, key)
  {
    if offers != [] {
      var last := |offers| - 1;
      ChargeConserves(left, offers[..last], want, key);
      var before := Charge(left, offers[..last], want);
      var c := CreditOf(before.left, offers[last], before.remaining);
      CreditFacts(before.left, offers[last], before.remaining);
      AppendCredit(before.credits, c, key);
    }
  }

  /** Each credit draws on its own offer, worth at least the nodes it covers. */
  predicate FairCredit<K>(c: Credit<K>) {
    Mul(c.covered, c.offer.reserved) <= Mul(c.spent, c.offer.nodes) < Mul(c.covered, c.offer.reserved) + c.offer.nodes
  }

  lemma {:induction false} CreditsAreFair<K>(left: map<K, int>, offers: seq<Offer<K>>, want: nat)
    requires forall i :: 0 <= i < |offers| ==> ValidOffer(offers[i])
    ensures var r := Charge(left, offers, want);
      forall i :: 0 <= i < |offers| ==> r.credits[i].offer == offers[i] && FairCredit(r.credits[i])
  {
    if offers != [] {
      var last := |offers| - 1;
      CreditsAreFair(left, offers[..last], want);
      var before := Charge(left, offers[..last], want);
      CreditFacts(before.left, offers[last], before.remaining);
    }
  }

  predicate DistinctKeys<K(==)>(offers: seq<Offer<K>>) {
    forall i, j :: 0 <= i < j < |offers| ==> offers[i].key != offers[j].key
  }

  /** Less than one node's worth is left in the offer's budget. */
  predicate UsedUp<K>(left: map<K, int>, o: Offer<K>) {
    Mul(At(left, o.key), o.nodes) < o.reserved
  }

  /** Nodes stay wanted only when no offer could have covered one more. */
  lemma {:induction false} KeptMeansUsedUp<K>(left: map<K, int>, offers: seq<Offer<K>>, want: nat, i: nat)
    requires (forall k :: 0 <= k < |offers| ==> ValidOffer(offers[k])) && DistinctKeys(offers)
    requires 0 < Charge(left, offers, want).remaining && i < |offers|
    ensures UsedUp(Charge(left, offers, want).left, offers[i])
  {
    var last := |offers| - 1;
    var before := Charge(left, offers[..last], want);
    CreditFacts(before.left, offers[last], before.remaining);
    if i < last {
      KeptMeansUsedUp(left, offers[..last], want, i);
      assert offers[i].key != offers[last].key;
    }
  }

  /** Used up stays used up while the budget only shrinks. */
  lemma UsedUpStays<K>(before: map<K, int>, after: map<K, int>, o: Offer<K>)
    requires UsedUp(before, o) && At(after, o.key) <= At(before, o.key)
    ensures UsedUp(after, o)
  {
    MulMonotone(At(after, o.key), At(before, o.key), o.nodes);
  }
}
