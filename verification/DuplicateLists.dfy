/** A whole list of recommendations against both kinds of duplicate budget. */
module DuplicateLists {
  import opened Wrappers
  import opened IntMath
  import opened Recommendations
  import opened Budgets
  import opened Duplicates
  import opened DuplicateBatches
  import opened Ec2Entries
  import opened Ec2Budget
  import opened Ec2Dedupe

  /** Whether the EC2 guard handles the recommendation. */
  predicate ForEc2(rec: Recommendation) {
    IsEc2(rec.provider, rec.service)
  }

  /** The recommendations of one kind, in order. */
  function Only(recs: seq<Recommendation>, ec2: bool): seq<Recommendation> {
    if recs == [] then []
    else
      var rest, rec := Only(recs[..|recs| - 1], ec2), recs[|recs| - 1];
      if ForEc2(rec) == ec2 then rest + [rec] else rest
  }

  /** The nodes kept of each recommendation of one kind. */
  function OnlyKept(recs: seq<Recommendation>, kept: seq<int>, ec2: bool): (r: seq<int>)
    requires |kept| == |recs|
    ensures |r| == |Only(recs, ec2)|
  {
    if recs == [] then []
    else
      var last := |recs| - 1;
      var rest := OnlyKept(recs[..last], kept[..last], ec2);
      if ForEc2(recs[last]) == ec2 then rest + [kept[last]] else rest
  }

  /** What a list did so far: the nodes kept of each recommendation, the budgets of both kinds
      before, between and after them, and the credits given. */
  datatype Books = Books(kept: seq<int>, snaps: seq<map<Entry, int>>, lefts: seq<map<Key, int>>,
                         log: seq<seq<Credit<Key>>>)

  /** Each recommendation of the list is charged to the budgets of its kind, after all the earlier
      ones of that kind. */
  ghost predicate Charges(guard: Guard, recs: seq<Recommendation>, b: Books) {
    && |b.kept| == |recs|
    && guard.Accounts(Only(recs, true), b.snaps, OnlyKept(recs, b.kept, true))
    && Steps(Only(recs, false), b.lefts, OnlyKept(recs, b.kept, false), b.log)
  }

  /** The books open with the first two budgets and close with the last two. */
  predicate Spans(b: Books, m: map<Entry, int>, left: map<Key, int>, m': map<Entry, int>, left': map<Key, int>) {
    && b.snaps != [] && b.snaps[0] == m && b.snaps[|b.snaps| - 1] == m'
    && b.lefts != [] && b.lefts[0] == left && b.lefts[|b.lefts| - 1] == left'
  }

  lemma OneMoreRecommendation(recs: seq<Recommendation>, kept: seq<int>, i: nat, k: int, ec2: bool)
    requires i < |recs| && |kept| == i
    ensures Only(recs[..i + 1], ec2)
         == if ForEc2(recs[i]) == ec2 then Only(recs[..i], ec2) + [recs[i]] else Only(recs[..i], ec2)
    ensures OnlyKept(recs[..i + 1], kept + [k], ec2)
         == if ForEc2(recs[i]) == ec2 then OnlyKept(recs[..i], kept, ec2) + [k] else OnlyKept(recs[..i], kept, ec2)
  {
    assert recs[..i + 1][..i] == recs[..i] && (kept + [k])[..i] == kept;
  }

  function ChargedEc2(b: Books, k: int, m: map<Entry, int>): Books {
    b.(kept := b.kept + [k], snaps := b.snaps + [m])
  }

  function ChargedBudgets(b: Books, k: int, left: map<Key, int>, credits: seq<Credit<Key>>): Books {
    b.(kept := b.kept + [k], lefts := b.lefts + [left], log := b.log + [credits])
  }

  lemma OneMoreForEc2(guard: Guard, recs: seq<Recommendation>, i: nat, b: Books, k: int, m: map<Entry, int>)
    requires i < |recs| && ForEc2(recs[i]) && Charges(guard, recs[..i], b)
    requires guard.Accounted(b.snaps[|b.snaps| - 1], m, DemandOf(recs[i]), recs[i].count, k)
    ensures Charges(guard, recs[..i + 1], ChargedEc2(b, k, m))
  {
    OneMoreRecommendation(recs, b.kept, i, k, true);
    OneMoreRecommendation(recs, b.kept, i, k, false);
    guard.MoreAccounts(Only(recs[..i], true), recs[i], b.snaps, OnlyKept(recs[..i], b.kept, true), m, k);
  }

  lemma OneMoreForBudgets(guard: Guard, recs: seq<Recommendation>, i: nat, b: Books, k: int, left: map<Key, int>,
                          credits: seq<Credit<Key>>)
    requires i < |recs| && !ForEc2(recs[i]) && Charges(guard, recs[..i], b)
    requires Step(b.lefts[|b.lefts| - 1], left, recs[i], k, credits)
    ensures Charges(guard, recs[..i + 1], ChargedBudgets(b, k, left, credits))
  {
    OneMoreRecommendation(recs, b.kept, i, k, true);
    OneMoreRecommendation(recs, b.kept, i, k, false);
    OneMoreStep(Only(recs[..i], false), recs[i], b.lefts, OnlyKept(recs[..i], b.kept, false), b.log, left, k, credits);
  }

  /** The books after recommendation i record what became of it. */
  ghost predicate Recorded(recs: seq<Recommendation>, i: nat, b: Books, after: Books, r: Option<Recommendation>)
    requires i < |recs|
  {
    && |after.kept| == i + 1 && after.kept[..i] == b.kept
    && r == if after.kept[i] <= 0 then None else Some(Resized(recs[i], after.kept[i]))
  }

  method AdjustNextEc2(guard: Guard, budgets: ExistingBudgets, recs: seq<Recommendation>, i: nat, ghost b: Books,
                       ghost m: map<Entry, int>, ghost left: map<Key, int>)
    returns (r: Option<Recommendation>, ghost after: Books)
    requires i < |recs| && ForEc2(recs[i]) && guard.Valid()
    requires Charges(guard, recs[..i], b) && Spans(b, m, left, guard.Snapshot(), budgets.left)
    modifies guard.all
    ensures guard.Valid()
    ensures Charges(guard, recs[..i + 1], after) && Spans(after, m, left, guard.Snapshot(), budgets.left)
    ensures Recorded(recs, i, b, after, r)
  {
    var adjusted;
    ghost var k;
    adjusted, k := guard.Adjust(recs[i]);
    OneMoreForEc2(guard, recs, i, b, k, guard.Snapshot());
    after := ChargedEc2(b, k, guard.Snapshot());
    r := adjusted.value;
  }

  /** Charges one recommendation to the budgets other than EC2's. */
  method AdjustOther(budgets: ExistingBudgets, rec: Recommendation)
    returns (r: Option<Recommendation>, ghost k: int, ghost credits: seq<Credit<Key>>)
    modifies budgets
    ensures Step(old(budgets.left), budgets.left, rec, k, credits)
    ensures r == if k <= 0 then None else Some(Resized(rec, k))
  {
    var adjusted;
    adjusted, k, credits := budgets.Adjust(rec);
    r := adjusted.value;
  }

  method AdjustNextOther(guard: Guard, budgets: ExistingBudgets, recs: seq<Recommendation>, i: nat, ghost b: Books,
                         ghost m: map<Entry, int>, ghost left: map<Key, int>, ghost m': map<Entry, int>)
    returns (r: Option<Recommendation>, ghost after: Books)
    requires i < |recs| && !ForEc2(recs[i])
    requires Charges(guard, recs[..i], b) && Spans(b, m, left, m', budgets.left)
    modifies budgets
    ensures Charges(guard, recs[..i + 1], after) && Spans(after, m, left, m', budgets.left)
    ensures Recorded(recs, i, b, after, r)
  {
    ghost var k, credits;
    r, k, credits := AdjustOther(budgets, recs[i]);
    OneMoreForBudgets(guard, recs, i, b, k, budgets.left, credits);
    after := ChargedBudgets(b, k, budgets.left, credits);
  }

  /** The first i recommendations are charged and sorted into passed and filtered. */
  ghost predicate HandledTo(guard: Guard, recs: seq<Recommendation>, i: nat, b: Books,
                            passed: seq<Recommendation>, filtered: seq<Recommendation>)
  {
    && i <= |recs|
    && Charges(guard, recs[..i], b)
    && passed == PassedOf(recs[..i], b.kept) && filtered == FilteredOf(recs[..i], b.kept)
  }

  lemma OneMoreHandled(guard: Guard, recs: seq<Recommendation>, i: nat, b: Books, after: Books,
                       passed: seq<Recommendation>, filtered: seq<Recommendation>, r: Option<Recommendation>)
    requires i < |recs| && HandledTo(guard, recs, i, b, passed, filtered)
    requires Charges(guard, recs[..i + 1], after) && Recorded(recs, i, b, after, r)
    ensures r.Some? ==> HandledTo(guard, recs, i + 1, after, passed + [r.value], filtered)
    ensures r.None? ==> HandledTo(guard, recs, i + 1, after, passed, filtered + [recs[i]])
  {
    OneMoreKept(recs, i, b.kept, after.kept[i]);
    assert after.kept == b.kept + [after.kept[i]];
  }

  /** Charges the next recommendation to the budgets of its kind. */
  method AdjustNext(guard: Guard, budgets: ExistingBudgets, recs: seq<Recommendation>, i: nat, ghost b: Books,
                    ghost m: map<Entry, int>, ghost left: map<Key, int>)
    returns (r: Option<Recommendation>, ghost after: Books)
    requires i < |recs| && guard.Valid()
    requires Charges(guard, recs[..i], b) && Spans(b, m, left, guard.Snapshot(), budgets.left)
    modifies guard.all, budgets
    ensures guard.Valid()
    ensures Charges(guard, recs[..i + 1], after) && Spans(after, m, left, guard.Snapshot(), budgets.left)
    ensures Recorded(recs, i, b, after, r)
  {
    if ForEc2(recs[i]) {
      r, after := AdjustNextEc2(guard, budgets, recs, i, b, m, left);
    } else {
      r, after := AdjustNextOther(guard, budgets, recs, i, b, m, left, guard.Snapshot());
    }
  }

  /** Handles a list in order. Budgets are shared, so an earlier recommendation spends first; what is
      kept passes resized, what is fully covered is filtered. */
  method AdjustAll(guard: Guard, budgets: ExistingBudgets, recs: seq<Recommendation>)
    returns (passed: seq<Recommendation>, filtered: seq<Recommendation>, ghost b: Books)
    requires guard.Valid()
    modifies guard.all, budgets
    ensures guard.Valid()
    ensures Charges(guard, recs, b)
    ensures Spans(b, old(guard.Snapshot()), old(budgets.left), guard.Snapshot(), budgets.left)
    ensures passed == PassedOf(recs, b.kept) && filtered == FilteredOf(recs, b.kept)
  {
    passed, filtered := [], [];
    ghost var m, left := guard.Snapshot(), budgets.left;
    b := Books([], [m], [left], []);
    for i := 0 to |recs|
      invariant guard.Valid() && Spans(b, m, left, guard.Snapshot(), budgets.left)
      invariant HandledTo(guard, recs, i, b, passed, filtered)
    {
      var r;
      ghost var after;
      r, after := AdjustNext(guard, budgets, recs, i, b, m, left);
      OneMoreHandled(guard, recs, i, b, after, passed, filtered, r);
      b := after;
      if r.Some? {
        passed := passed + [r.value];
      } else {
        filtered := filtered + [recs[i]];
      }
    }
    assert recs[..|recs|] == recs;
  }

  /** Where a recommendation stands among those of its kind. */
  lemma {:induction false} OnlyAt(recs: seq<Recommendation>, kept: seq<int>, i: nat) returns (n: nat)
    requires i < |recs| && |kept| == |recs|
    ensures n < |Only(recs, ForEc2(recs[i]))|
    ensures Only(recs, ForEc2(recs[i]))[n] == recs[i] && OnlyKept(recs, kept, ForEc2(recs[i]))[n] == kept[i]
  {
    var last := |recs| - 1;
    if i < last {
      n := OnlyAt(recs[..last], kept[..last], i);
    } else {
      n := |Only(recs[..last], ForEc2(recs[i]))|;
    }
  }

  /** Over any list the nodes suppressed on EC2 weigh what its entries lost, and every other budget
      lost what its credits spent: neither kind touches the other's. */
  lemma ListsConserve(guard: Guard, recs: seq<Recommendation>, b: Books, key: Key)
    requires Charges(guard, recs, b)
    ensures forall e :: e in guard.all ==> e in b.snaps[0] && e in b.snaps[|b.snaps| - 1]
    ensures SumOver(guard.all, b.snaps[|b.snaps| - 1])
         == SumOver(guard.all, b.snaps[0]) - guard.SuppressedUnits(Only(recs, true), OnlyKept(recs, b.kept, true))
    ensures At(b.lefts[0], key) - At(b.lefts[|b.lefts| - 1], key) == SpentOver(b.log, key)
    ensures Min(At(b.lefts[0], key), 0) <= At(b.lefts[|b.lefts| - 1], key)
  {
    guard.BatchConserves(Only(recs, true), b.snaps, OnlyKept(recs, b.kept, true));
    ListConserves(Only(recs, false), b.lefts, OnlyKept(recs, b.kept, false), b.log, key);
  }

  /** Wherever in a list a recommendation kept nodes, at the end of the list no budget that may pay
      for it covers one more. */
  lemma KeptMeansNothingLeft(guard: Guard, recs: seq<Recommendation>, b: Books, i: nat)
    requires Charges(guard, recs, b) && i < |recs| && 0 < b.kept[i]
    ensures ForEc2(recs[i]) ==>
      && guard.Covered(b.snaps[|b.snaps| - 1], DemandOf(recs[i]))
      && guard.NoNodeLeft(b.snaps[|b.snaps| - 1], DemandOf(recs[i]))
    ensures !ForEc2(recs[i]) ==> forall o :: o in OffersOf(recs[i]) ==> UsedUp(b.lefts[|b.lefts| - 1], o)
  {
    var n := OnlyAt(recs, b.kept, i);
    if ForEc2(recs[i]) {
      guard.KeptMeansSpent(Only(recs, true), b.snaps, OnlyKept(recs, b.kept, true), n);
    } else {
      forall o | o in OffersOf(recs[i]) ensures UsedUp(b.lefts[|b.lefts| - 1], o) {
        KeptNodesUsedUp(Only(recs, false), b.lefts, OnlyKept(recs, b.kept, false), b.log, n, o);
      }
    }
  }
}
