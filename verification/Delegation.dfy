/** Delegated voting weight, and exactly when it counts a token twice. */
module Delegation {
  import opened Host
  import opened MapSum
  import opened TokenSpec

  function SaturatingAdd(a: i128, b: i128): i128 {
    if a + b > I128_MAX then I128_MAX else if a + b < I128_MIN then I128_MIN else a + b
  }

  /** The delegator has named this voter. */
  predicate Genuine(t: Token, voter: Address, delegator: Address) {
    delegator in t.delegations && t.delegations[delegator] == voter
  }

  /** What one entry of the caller's delegator list adds. */
  function Contribution(t: Token, voter: Address, delegator: Address): i128 {
    if Genuine(t, voter, delegator) then t.Balance(delegator) else 0
  }

  /** The saturating accumulation over the first n delegators. */
  function Accumulated(t: Token, voter: Address, delegators: seq<Address>, n: nat): i128
    requires n <= |delegators|
  {
    if n == 0 then t.Balance(voter)
    else SaturatingAdd(Accumulated(t, voter, delegators, n - 1), Contribution(t, voter, delegators[n - 1]))
  }

  predicate Distinct(xs: seq<Address>) {
    forall a, b :: 0 <= a < b < |xs| ==> xs[a] != xs[b]
  }

  /** The holders whose balances the voter speaks for: the voter and the genuine delegators listed. */
  function Backers(t: Token, voter: Address, delegators: seq<Address>, n: nat): set<Address>
    requires n <= |delegators|
  {
    {voter} + set k | 0 <= k < n && Genuine(t, voter, delegators[k]) :: delegators[k]
  }

  ghost function Held(t: Token, s: set<Address>): int {
    Sum(Restrict(t.balances, s), Amount)
  }

  lemma HeldWithOneMore(t: Token, s: set<Address>, a: Address)
    requires a !in s
    ensures Held(t, s + {a}) == Held(t, s) + t.Balance(a)
  {
    if a in t.balances {
      TakeOut(Restrict(t.balances, s + {a}), a, Amount);
      assert Restrict(t.balances, s + {a}) - {a} == Restrict(t.balances, s);
    } else {
      assert Restrict(t.balances, s + {a}) == Restrict(t.balances, s);
    }
  }

  lemma HeldWithinSupply(t: Token, s: set<Address>)
    requires NonNegative(t)
    ensures 0 <= Held(t, s) <= t.Supply()
  {
    Dominated(Restrict(t.balances, s), Amount, t.balances, Amount);
    AtLeastEach(Restrict(t.balances, s), Amount);
  }

  // ------------------------------------------------------------------ counting holders off a list

  /** The balances of the listed holders, a holder listed twice counted twice. */
  function Counted(t: Token, holders: seq<Address>): int {
    if holders == [] then 0 else Counted(t, holders[..|holders| - 1]) + t.Balance(holders[|holders| - 1])
  }

  /** Some holder with a positive balance is listed twice. */
  predicate CountsTwice(t: Token, holders: seq<Address>) {
    exists j, k :: 0 <= j < k < |holders| && holders[j] == holders[k] && t.Balance(holders[k]) > 0
  }

  function SetOf(holders: seq<Address>): set<Address> {
    set h | h in holders
  }

  lemma SetOfAdd(holders: seq<Address>, h: Address)
    ensures SetOf(holders + [h]) == SetOf(holders) + {h}
  {
  }

  lemma CountsTwiceStep(t: Token, holders: seq<Address>)
    requires holders != []
    ensures var (front, last) := (holders[..|holders| - 1], holders[|holders| - 1]);
      CountsTwice(t, holders) <==> CountsTwice(t, front) || (last in front && t.Balance(last) > 0)
  {
    var (front, last) := (holders[..|holders| - 1], holders[|holders| - 1]);
    if CountsTwice(t, front) {
      var j, k :| 0 <= j < k < |front| && front[j] == front[k] && t.Balance(front[k]) > 0;
      assert holders[j] == holders[k] && t.Balance(holders[k]) > 0;
    }
    if last in front && t.Balance(last) > 0 {
      var j :| 0 <= j < |front| && front[j] == last;
      assert holders[j] == holders[|holders| - 1];
    }
  }

  /** The list counts what its holders hold if and only if it counts nothing twice, and never less. */
  lemma {:induction false} CountedIsHeldIff(t: Token, holders: seq<Address>)
    requires NonNegative(t)
    ensures Counted(t, holders) >= Held(t, SetOf(holders))
    ensures Counted(t, holders) == Held(t, SetOf(holders)) <==> !CountsTwice(t, holders)
  {
    if holders == [] {
      assert Restrict(t.balances, SetOf([])) == map[];
    } else {
      var (front, last) := (holders[..|holders| - 1], holders[|holders| - 1]);
      CountedIsHeldIff(t, front);
      CountsTwiceStep(t, holders);
      SetOfAdd(front, last);
      assert holders == front + [last];
      if last in front {
        assert SetOf(holders) == SetOf(front);
      } else {
        HeldWithOneMore(t, SetOf(front), last);
      }
    }
  }

  lemma CountedAdd(t: Token, holders: seq<Address>, h: Address)
    ensures Counted(t, holders + [h]) == Counted(t, holders) + t.Balance(h)
  {
    assert (holders + [h])[..|holders|] == holders;
  }

  lemma {:induction false} CountedAppend(t: Token, a: seq<Address>, b: seq<Address>)
    ensures Counted(t, a + b) == Counted(t, a) + Counted(t, b)
  {
    if b == [] {
      assert a + b == a;
    } else {
      var (front, last) := (b[..|b| - 1], b[|b| - 1]);
      CountedAppend(t, a, front);
      assert a + b == (a + front) + [last] by { assert b == front + [last]; }
      CountedAdd(t, a + front, last);
    }
  }

  lemma {:induction false} CountedNonNegative(t: Token, holders: seq<Address>)
    requires NonNegative(t)
    ensures 0 <= Counted(t, holders)
  {
    if holders != [] {
      CountedNonNegative(t, holders[..|holders| - 1]);
    }
  }

  lemma DistinctCountsOnce(t: Token, holders: seq<Address>)
    requires Distinct(holders)
    ensures !CountsTwice(t, holders)
  {
  }

  lemma DistinctAppend(a: seq<Address>, b: seq<Address>)
    requires Distinct(a) && Distinct(b) && SetOf(a) !! SetOf(b)
    ensures Distinct(a + b)
  {
    forall j, k | 0 <= j < k < |a + b| ensures (a + b)[j] != (a + b)[k] {
      if j < |a| <= k {
        assert a[j] in SetOf(a) && b[k - |a|] in SetOf(b);
      }
    }
  }

  // ------------------------------------------------------------------ one claim

  /** Whom the loop counts, in order: the voter, then each genuine delegator as often as listed. */
  function Entries(t: Token, voter: Address, delegators: seq<Address>, n: nat): seq<Address>
    requires n <= |delegators|
  {
    if n == 0 then [voter]
    else
      Entries(t, voter, delegators, n - 1) + if Genuine(t, voter, delegators[n - 1]) then [delegators[n - 1]] else []
  }

  lemma EntriesStep(t: Token, voter: Address, delegators: seq<Address>, n: nat)
    requires n < |delegators|
    ensures var (before, after) := (Entries(t, voter, delegators, n), Entries(t, voter, delegators, n + 1));
      after == if Genuine(t, voter, delegators[n]) then before + [delegators[n]] else before
  {
  }

  lemma BackersStep(t: Token, voter: Address, delegators: seq<Address>, n: nat)
    requires n < |delegators|
    ensures Backers(t, voter, delegators, n + 1) ==
      Backers(t, voter, delegators, n) + if Genuine(t, voter, delegators[n]) then {delegators[n]} else {}
  {
  }

  lemma NextEntryIsBacker(t: Token, voter: Address, delegators: seq<Address>, n: nat)
    requires n < |delegators| && SetOf(Entries(t, voter, delegators, n)) == Backers(t, voter, delegators, n)
    ensures SetOf(Entries(t, voter, delegators, n + 1)) == Backers(t, voter, delegators, n + 1)
  {
    BackersStep(t, voter, delegators, n);
    EntriesStep(t, voter, delegators, n);
    SetOfAdd(Entries(t, voter, delegators, n), delegators[n]);
  }

  lemma {:induction false} EntriesAreBackers(t: Token, voter: Address, delegators: seq<Address>, n: nat)
    requires n <= |delegators|
    ensures SetOf(Entries(t, voter, delegators, n)) == Backers(t, voter, delegators, n)
  {
    if n > 0 {
      EntriesAreBackers(t, voter, delegators, n - 1);
      NextEntryIsBacker(t, voter, delegators, n - 1);
    }
  }

  function Capped(x: int): int {
    if x > I128_MAX then I128_MAX else x
  }

  lemma EntriesCount(t: Token, voter: Address, delegators: seq<Address>, n: nat)
    requires n < |delegators|
    ensures Counted(t, Entries(t, voter, delegators, n + 1)) ==
      Counted(t, Entries(t, voter, delegators, n)) + Contribution(t, voter, delegators[n])
  {
    EntriesStep(t, voter, delegators, n);
    CountedAdd(t, Entries(t, voter, delegators, n), delegators[n]);
  }

  /** The loop counts the entries, up to the largest i128. */
  lemma {:induction false} AccumulatedIsCounted(t: Token, voter: Address, delegators: seq<Address>, n: nat)
    requires NonNegative(t) && n <= |delegators|
    ensures Accumulated(t, voter, delegators, n) == Capped(Counted(t, Entries(t, voter, delegators, n)))
  {
    if n == 0 {
      CountedAdd(t, [], voter);
    } else {
      AccumulatedIsCounted(t, voter, delegators, n - 1);
      EntriesCount(t, voter, delegators, n - 1);
      CountedNonNegative(t, Entries(t, voter, delegators, n - 1));
    }
  }

  /** The weight the loop gives is exactly what the voter and the genuine delegators listed hold if and only if no
      holder with a positive balance is counted twice, or they hold the largest i128, where the loop saturates. */
  lemma WeightIsExactIff(t: Token, voter: Address, delegators: seq<Address>, n: nat)
    requires Wf(t) && NonNegative(t) && n <= |delegators|
    ensures var held := Held(t, Backers(t, voter, delegators, n));
      Accumulated(t, voter, delegators, n) == held <==>
        !CountsTwice(t, Entries(t, voter, delegators, n)) || held == I128_MAX
  {
    AccumulatedIsCounted(t, voter, delegators, n);
    EntriesAreBackers(t, voter, delegators, n);
    CountedIsHeldIff(t, Entries(t, voter, delegators, n));
    HeldWithinSupply(t, Backers(t, voter, delegators, n));
  }

  lemma {:induction false} EntriesDistinct(t: Token, voter: Address, delegators: seq<Address>, n: nat)
    requires voter !in t.delegations && Distinct(delegators) && n <= |delegators|
    ensures Distinct(Entries(t, voter, delegators, n))
  {
    if n > 0 {
      EntriesDistinct(t, voter, delegators, n - 1);
      EntriesAreBackers(t, voter, delegators, n - 1);
      EntriesStep(t, voter, delegators, n - 1);
      var (before, d) := (Entries(t, voter, delegators, n - 1), delegators[n - 1]);
      if Genuine(t, voter, d) {
        assert d !in Backers(t, voter, delegators, n - 1);
        DistinctAppend(before, [d]);
      }
    }
  }

  /** For a voter who has not delegated and a list without repetitions the loop is exact. */
  lemma WeightIsExact(t: Token, voter: Address, delegators: seq<Address>, n: nat)
    requires Wf(t) && NonNegative(t) && voter !in t.delegations && Distinct(delegators) && n <= |delegators|
    ensures Accumulated(t, voter, delegators, n) == Held(t, Backers(t, voter, delegators, n))
  {
    EntriesDistinct(t, voter, delegators, n);
    DistinctCountsOnce(t, Entries(t, voter, delegators, n));
    WeightIsExactIff(t, voter, delegators, n);
  }

  // ------------------------------------------------------------------ many claims

  /** A voter with the delegator list it presents. */
  datatype Claim = Claim(voter: Address, delegators: seq<Address>)

  function ClaimedWeight(t: Token, c: Claim): i128 {
    Accumulated(t, c.voter, c.delegators, |c.delegators|)
  }

  function TotalClaimed(t: Token, cs: seq<Claim>): int {
    if cs == [] then 0 else TotalClaimed(t, cs[..|cs| - 1]) + ClaimedWeight(t, cs[|cs| - 1])
  }

  function EntriesOf(t: Token, c: Claim): seq<Address> {
    Entries(t, c.voter, c.delegators, |c.delegators|)
  }

  function AllEntries(t: Token, cs: seq<Claim>): seq<Address> {
    if cs == [] then [] else AllEntries(t, cs[..|cs| - 1]) + EntriesOf(t, cs[|cs| - 1])
  }

  function BackersOf(t: Token, c: Claim): set<Address> {
    Backers(t, c.voter, c.delegators, |c.delegators|)
  }

  /** Every holder some claim speaks for. */
  function AllBackers(t: Token, cs: seq<Claim>): set<Address> {
    if cs == [] then {} else AllBackers(t, cs[..|cs| - 1]) + BackersOf(t, cs[|cs| - 1])
  }

  lemma {:induction false} AllEntriesAreBackers(t: Token, cs: seq<Claim>)
    ensures SetOf(AllEntries(t, cs)) == AllBackers(t, cs)
  {
    if cs != [] {
      var (front, c) := (cs[..|cs| - 1], cs[|cs| - 1]);
      AllEntriesAreBackers(t, front);
      EntriesAreBackers(t, c.voter, c.delegators, |c.delegators|);
      assert SetOf(AllEntries(t, front) + EntriesOf(t, c)) == SetOf(AllEntries(t, front)) + SetOf(EntriesOf(t, c));
    }
  }

  lemma AddClaim(t: Token, cs: seq<Claim>)
    requires NonNegative(t) && cs != []
    ensures var (front, c) := (cs[..|cs| - 1], cs[|cs| - 1]);
      && TotalClaimed(t, cs) == TotalClaimed(t, front) + Capped(Counted(t, EntriesOf(t, c)))
      && Counted(t, AllEntries(t, cs)) == Counted(t, AllEntries(t, front)) + Counted(t, EntriesOf(t, c))
      && 0 <= Counted(t, EntriesOf(t, c))
  {
    var (front, c) := (cs[..|cs| - 1], cs[|cs| - 1]);
    AccumulatedIsCounted(t, c.voter, c.delegators, |c.delegators|);
    CountedAppend(t, AllEntries(t, front), EntriesOf(t, c));
    CountedNonNegative(t, EntriesOf(t, c));
  }

  /** At most one of the claims weighs anything. */
  predicate OneWeighs(t: Token, cs: seq<Claim>) {
    forall i, j :: 0 <= i < j < |cs| ==> ClaimedWeight(t, cs[i]) == 0 || ClaimedWeight(t, cs[j]) == 0
  }

  lemma OneWeighsStep(t: Token, cs: seq<Claim>)
    requires cs != []
    ensures var (front, c) := (cs[..|cs| - 1], cs[|cs| - 1]);
      OneWeighs(t, cs) <==>
        && OneWeighs(t, front)
        && (ClaimedWeight(t, c) == 0 || forall i :: 0 <= i < |front| ==> ClaimedWeight(t, front[i]) == 0)
  {
    var front := cs[..|cs| - 1];
    assert forall i :: 0 <= i < |front| ==> front[i] == cs[i];
  }

  lemma {:induction false} NothingClaimed(t: Token, cs: seq<Claim>)
    requires NonNegative(t)
    ensures 0 <= TotalClaimed(t, cs) <= Counted(t, AllEntries(t, cs))
    ensures TotalClaimed(t, cs) == 0 <==> forall i :: 0 <= i < |cs| ==> ClaimedWeight(t, cs[i]) == 0
    ensures TotalClaimed(t, cs) == 0 ==> Counted(t, AllEntries(t, cs)) == 0
  {
    if cs != [] {
      var (front, c) := (cs[..|cs| - 1], cs[|cs| - 1]);
      NothingClaimed(t, front);
      AddClaim(t, cs);
      assert forall i :: 0 <= i < |cs| ==> cs[i] == if i < |front| then front[i] else c;
    }
  }

  /** If only one claim weighs anything, the total is what is counted, up to the largest i128. */
  lemma {:induction false} LoneClaim(t: Token, cs: seq<Claim>)
    requires NonNegative(t) && OneWeighs(t, cs)
    ensures TotalClaimed(t, cs) == Capped(Counted(t, AllEntries(t, cs)))
  {
    if cs != [] {
      var (front, c) := (cs[..|cs| - 1], cs[|cs| - 1]);
      LoneClaim(t, front);
      AddClaim(t, cs);
      NothingClaimed(t, front);
      OneWeighsStep(t, cs);
    }
  }

  /** A total within i128 is everything counted, unless a single saturated claim makes it up. */
  lemma {:induction false} TotalIsCounted(t: Token, cs: seq<Claim>)
    requires NonNegative(t) && TotalClaimed(t, cs) <= I128_MAX
    ensures TotalClaimed(t, cs) == Counted(t, AllEntries(t, cs)) ||
      (TotalClaimed(t, cs) == I128_MAX && OneWeighs(t, cs))
  {
    if cs != [] {
      var (front, c) := (cs[..|cs| - 1], cs[|cs| - 1]);
      AddClaim(t, cs);
      NothingClaimed(t, front);
      TotalIsCounted(t, front);
      OneWeighsStep(t, cs);
    }
  }

  /** Any claims together weigh exactly what the holders behind them hold if and only if no holder with a positive
      balance is counted twice, within one list or across two claims, or those holders hold the largest i128 and at
      most one claim weighs anything, so that it saturates. */
  lemma ClaimsAreExactIff(t: Token, cs: seq<Claim>)
    requires Wf(t) && NonNegative(t)
    ensures var held := Held(t, AllBackers(t, cs));
      TotalClaimed(t, cs) == held <==>
        !CountsTwice(t, AllEntries(t, cs)) || (held == I128_MAX && OneWeighs(t, cs))
  {
    AllEntriesAreBackers(t, cs);
    CountedIsHeldIff(t, AllEntries(t, cs));
    HeldWithinSupply(t, AllBackers(t, cs));
    NothingClaimed(t, cs);
    if OneWeighs(t, cs) { LoneClaim(t, cs); }
    if TotalClaimed(t, cs) <= I128_MAX { TotalIsCounted(t, cs); }
  }

  // ------------------------------------------------------------------ proper claims

  /** Different voters, none of whom has delegated, each with a duplicate-free list. */
  predicate Proper(t: Token, cs: seq<Claim>) {
    && (forall i, j :: 0 <= i < j < |cs| ==> cs[i].voter != cs[j].voter)
    && (forall i :: 0 <= i < |cs| ==> cs[i].voter !in t.delegations && Distinct(cs[i].delegators))
  }

  /** Voters who have not delegated themselves speak for disjoint holders. */
  lemma BackersDisjoint(t: Token, u: Address, us: seq<Address>, v: Address, vs: seq<Address>)
    requires u != v && u !in t.delegations && v !in t.delegations
    ensures Backers(t, u, us, |us|) !! Backers(t, v, vs, |vs|)
  {
  }

  lemma {:induction false} LastBackersAreNew(t: Token, cs: seq<Claim>, c: Claim)
    requires c.voter !in t.delegations
    requires forall i :: 0 <= i < |cs| ==> cs[i].voter != c.voter && cs[i].voter !in t.delegations
    ensures AllBackers(t, cs) !! BackersOf(t, c)
  {
    if cs != [] {
      var d := cs[|cs| - 1];
      LastBackersAreNew(t, cs[..|cs| - 1], c);
      BackersDisjoint(t, d.voter, d.delegators, c.voter, c.delegators);
    }
  }

  lemma {:induction false} ProperEntriesDistinct(t: Token, cs: seq<Claim>)
    requires Proper(t, cs)
    ensures Distinct(AllEntries(t, cs))
  {
    if cs != [] {
      var (front, c) := (cs[..|cs| - 1], cs[|cs| - 1]);
      ProperEntriesDistinct(t, front);
      EntriesDistinct(t, c.voter, c.delegators, |c.delegators|);
      LastBackersAreNew(t, front, c);
      AllEntriesAreBackers(t, front);
      EntriesAreBackers(t, c.voter, c.delegators, |c.delegators|);
      DistinctAppend(AllEntries(t, front), EntriesOf(t, c));
    }
  }

  /** Delegation never multiplies weight: proper claims together weigh what their holders hold, within the supply. */
  lemma DelegationNeverMultiplies(t: Token, cs: seq<Claim>)
    requires Wf(t) && NonNegative(t) && Proper(t, cs)
    ensures TotalClaimed(t, cs) == Held(t, AllBackers(t, cs)) <= t.Supply()
  {
    ProperEntriesDistinct(t, cs);
    DistinctCountsOnce(t, AllEntries(t, cs));
    ClaimsAreExactIff(t, cs);
    HeldWithinSupply(t, AllBackers(t, cs));
  }

  /** Neither hypothesis can go: a repeated delegator is counted twice, and a voter who has delegated is
      counted once for itself and once for its delegate. */
  lemma ImproperClaimsMultiply(voter: Address, delegator: Address)
    requires voter != delegator
    ensures var t := DEPLOYED.(balances := map[delegator := 10], delegations := map[delegator := voter]);
      && t.Supply() == 10
      && ClaimedWeight(t, Claim(voter, [delegator, delegator])) == 20
      && TotalClaimed(t, [Claim(delegator, []), Claim(voter, [delegator])]) == 20
  {
    var t := DEPLOYED.(balances := map[delegator := 10], delegations := map[delegator := voter]);
    PutBalance(DEPLOYED, delegator, 10);
    var twice := [delegator, delegator];
    assert Accumulated(t, voter, twice, 0) == 0;
    assert Accumulated(t, voter, twice, 1) == 10;
    assert Accumulated(t, voter, twice, 2) == 20;
    var (c, d) := (Claim(delegator, []), Claim(voter, [delegator]));
    assert ClaimedWeight(t, c) == 10;
    assert Accumulated(t, voter, d.delegators, 0) == 0;
    assert ClaimedWeight(t, d) == 10;
    assert [c, d][..1] == [c] && [c][..0] == [];
    assert TotalClaimed(t, [c]) == 10;
  }
}
