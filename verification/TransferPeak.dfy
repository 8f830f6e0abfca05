/** What transfers do to the peak of a vote, and when votes and transfers together can carry its tally beyond the
    supply. */
module TransferPeak {
  import opened Host
  import opened MapSum
  import opened SystemSpec
  import opened SystemLaws
  import opened GovernanceLaws
  import opened GovernanceSpec
  import opened SupplyBound
  import opened VotePeak
  import opened PeakAttained
  import T = TokenSpec

  // ------------------------------------------------------------------ what a transfer adds

  /** How a transfer of n from x to y moves the peak: what y's reach gains less what x's loses. */
  function Gain(g: Gov, i: nat, t: T.Token, x: Address, y: Address, n: int): int
    requires i < |g.motions|
  {
    ReachAt(g, i, t, y, t.Balance(y) + n) - Reach(g, i, t, y)
    + ReachAt(g, i, t, x, t.Balance(x) - n) - Reach(g, i, t, x)
  }

  /** A transfer adds at most its amount, and all of it exactly if the sender's reach does not depend on the
      tokens and the recipient may cast them on top of everything it has on record. */
  lemma GainAtMostAmount(g: Gov, i: nat, t: T.Token, x: Address, y: Address, n: int)
    requires i < |g.motions| && 0 < n <= t.Balance(x)
    ensures Gain(g, i, t, x, y, n) <= n
    ensures Gain(g, i, t, x, y, n) == n <==>
      && (May(g, i, t, x) ==> Recorded(g.motions[i], x) >= t.Balance(x))
      && May(g, i, t, y) && Recorded(g.motions[i], y) <= t.Balance(y)
  {
  }

  function TransferTx(env: Env, a: Address, x: Address, y: Address, n: i128): Tx {
    Tx(env, x, ToToken(a, T.TransferCall(y, n)))
  }

  /** The token after x has sent n to y. */
  function Sent(t: T.Token, x: Address, y: Address, n: i128): T.Token
    requires x != y && 0 < n <= t.Balance(x) && t.Balance(y) + n <= I128_MAX
  {
    t.(balances := t.balances[x := t.Balance(x) - n][y := t.Balance(y) + n])
  }

  lemma TransferOutcome(w: World, env: Env, i: nat, a: Address, x: Address, y: Address, n: i128) returns (moved: World)
    requires Voting(w, i, a) && x.Other? && x != y && !w.tokens[a].paused && 0 < n <= w.tokens[a].Balance(x)
    ensures moved == Apply(w, TransferTx(env, a, x, y, n))
    ensures w.tokens[a].Balance(y) + n <= I128_MAX
    ensures Voting(moved, i, a) && moved.gov == w.gov && moved.tokens[a] == Sent(w.tokens[a], x, y, n)
    ensures moved.tokens[a].Supply() == w.tokens[a].Supply()
  {
    var t := w.tokens[a];
    T.MoveNeverOverflows(t, x, y, n);
    T.MoveKeepsNonNegative(t, x, y, n);
    T.TransferConserves(t, x, y, n);
    moved := Apply(w, TransferTx(env, a, x, y, n));
  }

  lemma SentReach(g: Gov, i: nat, t: T.Token, x: Address, y: Address, n: i128, b: Address)
    requires i < |g.motions| && x != y && 0 < n <= t.Balance(x) && t.Balance(y) + n <= I128_MAX
    ensures Reach(g, i, Sent(t, x, y, n), b) ==
      ReachAt(g, i, t, b, t.Balance(b) + (if b == y then n else 0) - (if b == x then n else 0))
  {
  }

  /** What the transfer adds to the peak of those in s. */
  function GainOf(g: Gov, i: nat, t: T.Token, s: set<Address>, x: Address, y: Address, n: int): int
    requires i < |g.motions|
  {
    (if y in s then ReachAt(g, i, t, y, t.Balance(y) + n) - Reach(g, i, t, y) else 0)
    + (if x in s then ReachAt(g, i, t, x, t.Balance(x) - n) - Reach(g, i, t, x) else 0)
  }

  lemma SentReaches(g: Gov, i: nat, t: T.Token, s: set<Address>, x: Address, y: Address, n: i128)
    requires i < |g.motions| && x != y && 0 < n <= t.Balance(x) && t.Balance(y) + n <= I128_MAX
    ensures var t' := Sent(t, x, y, n);
      ReachesWithin(g, i, t', s) ==
        ReachesWithin(g, i, t, s)[x := ReachWithin(g, i, t', s, x)][y := ReachWithin(g, i, t', s, y)]
  {
    var t' := Sent(t, x, y, n);
    var all := ReachesWithin(g, i, t, s)[x := ReachWithin(g, i, t', s, x)][y := ReachWithin(g, i, t', s, y)];
    var all' := ReachesWithin(g, i, t', s);
    assert all'.Keys == all.Keys;
    forall b | b in all' ensures all'[b] == all[b] {
      SentReach(g, i, t, x, y, n, b);
    }
  }

  lemma GainOfIs(g: Gov, i: nat, t: T.Token, s: set<Address>, x: Address, y: Address, n: i128)
    requires i < |g.motions| && x != y && 0 < n <= t.Balance(x) && t.Balance(y) + n <= I128_MAX
    ensures var t' := Sent(t, x, y, n);
      GainOf(g, i, t, s, x, y, n) == ReachWithin(g, i, t', s, x) - ReachWithin(g, i, t, s, x)
                                     + ReachWithin(g, i, t', s, y) - ReachWithin(g, i, t, s, y)
  {
    SentReach(g, i, t, x, y, n, x);
    SentReach(g, i, t, x, y, n, y);
  }

  /** An address without record and balance counts nothing. */
  lemma UnlistedReach(g: Gov, i: nat, t: T.Token, s: set<Address>, b: Address)
    requires i < |g.motions|
    ensures var all := ReachesWithin(g, i, t, s);
      ReachWithin(g, i, t, s, b) == if b in all then all[b] else 0
  {
  }

  lemma SentMovesPeakOf(g: Gov, i: nat, t: T.Token, s: set<Address>, x: Address, y: Address, n: i128)
    requires i < |g.motions| && x != y && 0 < n <= t.Balance(x) && t.Balance(y) + n <= I128_MAX
    ensures PeakOf(g, i, Sent(t, x, y, n), s) == PeakOf(g, i, t, s) + GainOf(g, i, t, s, x, y, n)
  {
    var t' := Sent(t, x, y, n);
    SentReaches(g, i, t, s, x, y, n);
    PutTwice(ReachesWithin(g, i, t, s), x, ReachWithin(g, i, t', s, x), y, ReachWithin(g, i, t', s, y));
    UnlistedReach(g, i, t, s, x);
    UnlistedReach(g, i, t, s, y);
    GainOfIs(g, i, t, s, x, y, n);
  }

  lemma PeakIsPeakOf(g: Gov, i: nat, t: T.Token, s: set<Address>)
    requires i < |g.motions| && Reaches(g, i, t).Keys <= s
    ensures PeakOf(g, i, t, s) == Peak(g, i, t)
  {
    assert ReachesWithin(g, i, t, s) == Reaches(g, i, t);
  }

  lemma SentMovesPeak(g: Gov, i: nat, t: T.Token, x: Address, y: Address, n: i128)
    requires i < |g.motions| && x != y && 0 < n <= t.Balance(x) && t.Balance(y) + n <= I128_MAX
    ensures Peak(g, i, Sent(t, x, y, n)) == Peak(g, i, t) + Gain(g, i, t, x, y, n)
  {
    var s := Reaches(g, i, t).Keys + {x, y};
    PeakIsPeakOf(g, i, t, s);
    PeakIsPeakOf(g, i, Sent(t, x, y, n), s);
    SentMovesPeakOf(g, i, t, s, x, y, n);
  }

  lemma PutTwice(all: map<Address, int>, x: Address, rx: int, y: Address, ry: int)
    requires x != y && x in all
    ensures Sum(all[x := rx][y := ry], Itself) == Sum(all, Itself) - all[x] + rx - (if y in all then all[y] else 0) + ry
  {
    Put(all, x, rx, Itself);
    Put(all[x := rx], y, ry, Itself);
  }

  /** The transfer leaves nobody able to take the tally beyond the limit with the casts there is room for. */
  ghost predicate FitsAfter(g: Gov, i: nat, t: T.Token, x: Address, y: Address, n: i128, limit: int)
    requires i < |g.motions|
  {
    forall s :: g.motions[i].voterCount + |s| <= U32_MAX ==>
      PeakOf(g, i, t, s) + GainOf(g, i, t, s, x, y, n) <= limit
  }

  lemma SentFitsIff(g: Gov, i: nat, t: T.Token, x: Address, y: Address, n: i128, limit: int)
    requires i < |g.motions| && x != y && 0 < n <= t.Balance(x) && t.Balance(y) + n <= I128_MAX
    ensures Fits(g, i, Sent(t, x, y, n), limit) <==> FitsAfter(g, i, t, x, y, n, limit)
  {
    forall s ensures PeakOf(g, i, Sent(t, x, y, n), s) == PeakOf(g, i, t, s) + GainOf(g, i, t, s, x, y, n) {
      SentMovesPeakOf(g, i, t, s, x, y, n);
    }
  }

  /** After one transfer votes alone can carry the tally beyond the supply if and only if the peak of some casters, whom
      the voter count has room for, plus what the transfer adds for them exceeds it; where there is room for everybody,
      if and only if the peak plus the transfer's gain does. */
  lemma TransferBreaksIff(w: World, env: Env, i: u64, a: Address, x: Address, y: Address, n: i128, moved: World)
    requires Open(w, env, i, a) && Signed(w.gov.motions[i])
    requires x.Other? && x != y && !w.tokens[a].paused && 0 < n <= w.tokens[a].Balance(x)
    requires moved == Apply(w, TransferTx(env, a, x, y, n))
    ensures a in moved.tokens
    ensures var (g, t) := (w.gov, w.tokens[a]);
      && (NeverExceeds(moved, i, t.Supply()) <==> FitsAfter(g, i, t, x, y, n, t.Supply()))
      && (Countable(g, i, moved.tokens[a]) ==>
            (NeverExceeds(moved, i, t.Supply()) <==> Peak(g, i, t) + Gain(g, i, t, x, y, n) <= t.Supply()))
  {
    var _ := TransferOutcome(w, env, i, a, x, y, n);
    SentFitsIff(w.gov, i, w.tokens[a], x, y, n, w.tokens[a].Supply());
    SentMovesPeak(w.gov, i, w.tokens[a], x, y, n);
    TallyStaysWithinSupplyIff(moved, env, i, a);
  }

  // ------------------------------------------------------------------ votes and transfers together

  predicate IsTransfer(tx: Tx, a: Address) {
    tx.call.ToToken? && tx.call.token == a && tx.call.tok.TransferCall?
  }

  /** Votes on motion i and transfers of token a, in any order. */
  predicate VotesAndTransfers(txs: seq<Tx>, i: nat, a: Address) {
    forall n :: 0 <= n < |txs| ==> IsVote(txs[n], i) || IsTransfer(txs[n], a)
  }

  function AmountSent(tx: Tx, a: Address): nat {
    if IsTransfer(tx, a) && tx.call.tok.amount > 0 then tx.call.tok.amount else 0
  }

  /** Amounts sent in the first k transactions. */
  function Moved(txs: seq<Tx>, a: Address, k: nat): int
    requires k <= |txs|
  {
    if k == 0 then 0
    else Moved(txs, a, k - 1) + AmountSent(txs[k - 1], a)
  }

  /** A transfer that changes something is between two addresses and within the balance. */
  lemma TransferEnds(w: World, tx: Tx, a: Address)
    requires IsTransfer(tx, a) && a in w.tokens
    ensures Apply(w, tx) == w || (tx.caller.Other? && tx.caller != tx.call.tok.to && !w.tokens[a].paused
      && 0 < tx.call.tok.amount <= w.tokens[a].Balance(tx.caller))
    ensures tx == TransferTx(tx.env, a, tx.caller, tx.call.tok.to, tx.call.tok.amount)
  {
    assert w.tokens[a := w.tokens[a]] == w.tokens;
  }

  lemma TransferKeepsPeak(w: World, tx: Tx, i: nat, a: Address)
    requires Voting(w, i, a) && IsTransfer(tx, a)
    ensures Voting(Apply(w, tx), i, a) && Apply(w, tx).gov == w.gov
    ensures Peak(w.gov, i, Apply(w, tx).tokens[a]) <=
      Peak(w.gov, i, w.tokens[a]) + AmountSent(tx, a)
  {
    var (t, x, y, n) := (w.tokens[a], tx.caller, tx.call.tok.to, tx.call.tok.amount);
    TransferEnds(w, tx, a);
    if Apply(w, tx) != w {
      var moved := TransferOutcome(w, tx.env, i, a, x, y, n);
      SentMovesPeak(w.gov, i, t, x, y, n);
      GainAtMostAmount(w.gov, i, t, x, y, n);
    }
  }

  lemma NextWithinMoved(ws: seq<World>, txs: seq<Tx>, i: nat, a: Address, k: nat, start: int)
    requires Run(ws, txs) && k < |txs| && Voting(ws[k], i, a) && (IsVote(txs[k], i) || IsTransfer(txs[k], a))
    requires Peak(ws[k].gov, i, ws[k].tokens[a]) <= start + Moved(txs, a, k)
    ensures Voting(ws[k + 1], i, a)
    ensures Peak(ws[k + 1].gov, i, ws[k + 1].tokens[a]) <= start + Moved(txs, a, k + 1)
  {
    assert StepAt(ws, txs, k);
    if IsVote(txs[k], i) {
      VoteKeepsPeak(ws[k], txs[k], i, a);
    } else {
      TransferKeepsPeak(ws[k], txs[k], i, a);
    }
  }

  lemma {:induction false} PeakWithinMoved(ws: seq<World>, txs: seq<Tx>, i: nat, a: Address, k: nat)
    requires Run(ws, txs) && Voting(ws[0], i, a) && VotesAndTransfers(txs, i, a) && k <= |txs|
    ensures Voting(ws[k], i, a)
    ensures Peak(ws[k].gov, i, ws[k].tokens[a]) <= Peak(ws[0].gov, i, ws[0].tokens[a]) + Moved(txs, a, k)
  {
    if k > 0 {
      PeakWithinMoved(ws, txs, i, a, k - 1);
      NextWithinMoved(ws, txs, i, a, k - 1, Peak(ws[0].gov, i, ws[0].tokens[a]));
    }
  }

  /** Over any run of votes and transfers the tally stays within the starting peak plus everything sent. */
  lemma TransfersAddAtMostTheirAmounts(ws: seq<World>, txs: seq<Tx>, i: nat, a: Address, k: nat)
    requires Run(ws, txs) && Voting(ws[0], i, a) && VotesAndTransfers(txs, i, a) && k <= |txs|
    ensures Voting(ws[k], i, a)
    ensures Peak(ws[k].gov, i, ws[k].tokens[a]) <= Peak(ws[0].gov, i, ws[0].tokens[a]) + Moved(txs, a, k)
    ensures ws[k].gov.motions[i].Total() <= Peak(ws[0].gov, i, ws[0].tokens[a]) + Moved(txs, a, k)
  {
    PeakWithinMoved(ws, txs, i, a, k);
    TotalWithinPeak(ws[k].gov, i, ws[k].tokens[a]);
  }

  // ------------------------------------------------------------------ the exact condition with transfers

  /** No run of votes on motion i and transfers of token a takes the tally beyond the limit. */
  ghost predicate NeverExceedsMoving(w: World, i: nat, a: Address, limit: int) {
    forall ws: seq<World>, txs: seq<Tx> ::
      Run(ws, txs) && ws[0] == w && VotesAndTransfers(txs, i, a) && i < |ws[|txs|].gov.motions| ==>
        ws[|txs|].gov.motions[i].Total() <= limit
  }

  lemma OneMoreMove(w: World, tx: Tx, w': World, i: nat, a: Address, limit: int)
    requires (IsVote(tx, i) || IsTransfer(tx, a)) && ComesBefore(w, tx, w') && !NeverExceedsMoving(w', i, a, limit)
    ensures !NeverExceedsMoving(w, i, a, limit)
  {
    var ws: seq<World>, txs: seq<Tx> :| Run(ws, txs) && ws[0] == w' && VotesAndTransfers(txs, i, a)
      && i < |ws[|txs|].gov.motions| && ws[|txs|].gov.motions[i].Total() > limit;
    assert Run([w] + ws, [tx] + txs) && ([w] + ws)[|[tx] + txs|] == ws[|txs|];
  }

  lemma VotesAreMoves(w: World, i: nat, a: Address, limit: int)
    requires !NeverExceeds(w, i, limit)
    ensures !NeverExceedsMoving(w, i, a, limit)
  {
    var ws: seq<World>, txs: seq<Tx> :| Run(ws, txs) && ws[0] == w && VotesOn(txs, i)
      && i < |ws[|txs|].gov.motions| && ws[|txs|].gov.motions[i].Total() > limit;
    assert VotesAndTransfers(txs, i, a);
  }

  /** x can send tokens of a. */
  predicate Sender(t: T.Token, x: Address) {
    !t.paused && x.Other? && t.Balance(x) > 0
  }

  // Passing on the balance to fresh addresses, each of which casts it.

  /** An address the vote has not met. */
  predicate Unmet(g: Gov, i: nat, t: T.Token, y: Address)
    requires i < |g.motions|
  {
    y.Other? && y !in g.motions[i].ballots && y !in t.balances && y !in t.delegations && g.config.admin != Some(y)
  }

  lemma {:induction false} FreshAddress(s: set<Address>) returns (bound: nat)
    ensures forall id: nat :: Other(id) in s ==> id < bound
    decreases |s|
  {
    bound := 0;
    if s != {} {
      var x :| x in s;
      bound := FreshAddress(s - {x});
      if x.Other? && x.id >= bound {
        bound := x.id + 1;
      }
    }
  }

  lemma SomebodyUnmet(g: Gov, i: nat, t: T.Token) returns (y: Address)
    requires i < |g.motions|
    ensures Unmet(g, i, t, y)
  {
    var met := g.motions[i].ballots.Keys + t.balances.Keys + t.delegations.Keys;
    var bound := FreshAddress(if g.config.admin.Some? then met + {g.config.admin.value} else met);
    y := Other(bound);
  }

  /** Casting x's balance `left` times over passes the supply, and the voter count has room for as many casts. */
  ghost predicate Pumping(w: World, env: Env, i: nat, a: Address, x: Address, left: nat) {
    && Open(w, env, i, a) && Signed(w.gov.motions[i]) && Sender(w.tokens[a], x)
    && w.gov.motions[i].Total() + left * w.tokens[a].Balance(x) > w.tokens[a].Supply()
    && w.gov.motions[i].voterCount + left <= U32_MAX
  }

  lemma PassOn(w: World, env: Env, i: nat, a: Address, x: Address, y: Address) returns (moved: World, tx: Tx)
    requires Open(w, env, i, a) && Sender(w.tokens[a], x) && Unmet(w.gov, i, w.tokens[a], y)
    ensures IsTransfer(tx, a) && ComesBefore(w, tx, moved)
    ensures Open(moved, env, i, a) && moved.gov == w.gov && moved.tokens[a].Supply() == w.tokens[a].Supply()
    ensures moved.tokens[a].Balance(y) == w.tokens[a].Balance(x) && Sender(moved.tokens[a], y)
    ensures May(moved.gov, i, moved.tokens[a], y) && y !in moved.gov.motions[i].ballots
  {
    var n := w.tokens[a].Balance(x);
    tx := TransferTx(env, a, x, y, n);
    moved := TransferOutcome(w, env, i, a, x, y, n);
    Precedes(w, tx);
  }

  /** The fresh holder casts Yes if that tally can hold it, else No, which then is empty. */
  lemma CastFresh(w: World, env: Env, i: u64, a: Address, y: Address) returns (w': World, tx: Tx)
    requires Open(w, env, i, a) && Signed(w.gov.motions[i]) && Dissent(w.gov.motions[i]) == {}
    requires May(w.gov, i, w.tokens[a], y) && y !in w.gov.motions[i].ballots && w.tokens[a].Balance(y) > 0
    requires w.gov.motions[i].voterCount < U32_MAX
    ensures IsVote(tx, i) && ComesBefore(w, tx, w')
    ensures w'.tokens == w.tokens && i < |w'.gov.motions|
    ensures w'.gov.motions[i].Total() == w.gov.motions[i].Total() + w.tokens[a].Balance(y)
    ensures w'.gov.motions[i].Total() > I128_MAX ||
      (Open(w', env, i, a) && Dissent(w'.gov.motions[i]) == {} && Signed(w'.gov.motions[i])
       && w'.gov.motions[i].voterCount == w.gov.motions[i].voterCount + 1)
  {
    var (m, balance) := (w.gov.motions[i], w.tokens[a].Balance(y));
    NoDissent(m);
    var r := VoteRecord(if m.Weight(Yes) + balance <= I128_MAX then Yes else No, balance);
    w', tx := CastNow(w, env, i, a, y, r);
    RaiseEnds(m, w'.gov.motions[i], y, r);
  }

  lemma CastNow(w: World, env: Env, i: u64, a: Address, y: Address, r: VoteRecord) returns (w': World, tx: Tx)
    requires Open(w, env, i, a) && May(w.gov, i, w.tokens[a], y) && y !in w.gov.motions[i].ballots
    requires w.gov.motions[i].voterCount < U32_MAX && 0 < w.tokens[a].Balance(y) == r.weight
    requires w.gov.motions[i].Weight(r.vote) + r.weight <= I128_MAX
    ensures IsVote(tx, i) && ComesBefore(w, tx, w') && Open(w', env, i, a)
    ensures var m := w.gov.motions[i];
      w' == w.(gov := w.gov.Put(i, m.(ballots := m.ballots[y := r], voterCount := m.voterCount + 1)))
  {
    tx := CastTx(env, y, i, r.vote);
    w' := Apply(w, tx);
    CastOutcome(w, env, i, a, y, r.vote);
    EventKeepsMotionOk(w.gov.motions[i], env, Voted(y, r));
    Precedes(w, tx);
  }

  lemma TurnFirst(w: World, env: Env, i: u64, a: Address, x: Address, left: nat) returns (w': World, tx: Tx)
    requires Pumping(w, env, i, a, x, left) && w.gov.motions[i].Total() <= I128_MAX && Dissent(w.gov.motions[i]) != {}
    ensures IsVote(tx, i) && ComesBefore(w, tx, w') && Pumping(w', env, i, a, x, left) && w'.tokens == w.tokens
    ensures |Dissent(w'.gov.motions[i])| < |Dissent(w.gov.motions[i])|
  {
    var b :| b in Dissent(w.gov.motions[i]);
    tx := ChangeTx(env, b, i);
    w' := Apply(w, tx);
    ChangeOutcome(w, env, i, a, b);
    TurnKeepsTotal(w.gov.motions[i], b);
    TurnShortens(w.gov.motions[i], b);
    Precedes(w, tx);
  }

  /** With everybody on Yes: pass the balance on, and cast it. */
  lemma PumpOnce(w: World, env: Env, i: u64, a: Address, x: Address, left: nat) returns (moved: World, w': World,
                 y: Address)
    requires Pumping(w, env, i, a, x, left) && left > 0 && Dissent(w.gov.motions[i]) == {}
    ensures w'.tokens == moved.tokens && i < |w'.gov.motions| && a in moved.tokens
    ensures moved.tokens[a].Supply() == w.tokens[a].Supply()
    ensures w'.gov.motions[i].Total() > I128_MAX || Pumping(w', env, i, a, y, left - 1)
    ensures forall limit :: !NeverExceedsMoving(w', i, a, limit) ==> !NeverExceedsMoving(w, i, a, limit)
  {
    y := SomebodyUnmet(w.gov, i, w.tokens[a]);
    var send: Tx, cast: Tx;
    moved, send := PassOn(w, env, i, a, x, y);
    w', cast := CastFresh(moved, env, i, a, y);
    assert left * w.tokens[a].Balance(x) == (left - 1) * w.tokens[a].Balance(x) + w.tokens[a].Balance(x);
    forall limit | !NeverExceedsMoving(w', i, a, limit) ensures !NeverExceedsMoving(w, i, a, limit) {
      OneMoreMove(moved, cast, w', i, a, limit);
      OneMoreMove(w, send, moved, i, a, limit);
    }
  }

  lemma {:induction false} PumpingExceeds(w: World, env: Env, i: u64, a: Address, x: Address, left: nat)
    requires Pumping(w, env, i, a, x, left)
    ensures !NeverExceedsMoving(w, i, a, w.tokens[a].Supply())
    decreases left, |Dissent(w.gov.motions[i])|
  {
    var supply := w.tokens[a].Supply();
    if w.gov.motions[i].Total() > supply {
      BeyondAlready(w, i, supply);
      VotesAreMoves(w, i, a, supply);
    } else if Dissent(w.gov.motions[i]) != {} {
      var w', tx := TurnFirst(w, env, i, a, x, left);
      PumpingExceeds(w', env, i, a, x, left);
      OneMoreMove(w, tx, w', i, a, supply);
    } else {
      assert left > 0;
      var moved, w', y := PumpOnce(w, env, i, a, x, left);
      if w'.gov.motions[i].Total() > I128_MAX {
        BeyondAlready(w', i, supply);
        VotesAreMoves(w', i, a, supply);
      } else {
        PumpingExceeds(w', env, i, a, y, left - 1);
      }
    }
  }

  // What all signers hold can be gathered in one hand, and no cast counts more.

  function SignerBalances(t: T.Token): map<Address, i128> {
    map b | b in t.balances && b.Other? :: t.balances[b]
  }

  /** All tokens held by addresses that sign. */
  ghost function Movable(t: T.Token): int {
    Sum(SignerBalances(t), T.Amount)
  }

  /** How many more casts the voter count has room for. */
  function Room(m: Motion): nat {
    U32_MAX - m.voterCount
  }

  /** The tally if every cast there is room for counted everything that can move. */
  ghost function Potential(m: Motion, t: T.Token): int {
    m.Total() + Room(m) * Movable(t)
  }

  lemma BalanceWithinMovable(t: T.Token, b: Address)
    requires T.NonNegative(t) && b.Other?
    ensures 0 <= t.Balance(b) <= Movable(t)
  {
    AtLeastEach(SignerBalances(t), T.Amount);
    if b in t.balances {
      assert T.Amount(SignerBalances(t)[b]) <= Movable(t);
    }
  }

  lemma SentMovable(t: T.Token, x: Address, y: Address, n: i128)
    requires x.Other? && x != y && 0 < n <= t.Balance(x) && t.Balance(y) + n <= I128_MAX
    ensures Movable(Sent(t, x, y, n)) == Movable(t) - if y.Other? then 0 else n
  {
    var all: map<Address, i128> := SignerBalances(t);
    var rest: i128, more: i128 := t.Balance(x) - n, t.Balance(y) + n;
    Put(all, x, rest, T.Amount);
    if y.Other? {
      var less: map<Address, i128> := all[x := rest];
      Put(less, y, more, T.Amount);
      assert SignerBalances(Sent(t, x, y, n)) == less[y := more];
    } else {
      assert SignerBalances(Sent(t, x, y, n)) == all[x := rest];
    }
  }

  lemma VoteTotal(m: Motion, env: Env, e: Event)
    requires Allowed(m, env, e) && PositiveWeights(m) && (e.Untouched? || e.Voted? || e.Retracted? || e.Changed?)
    ensures var m' := Effect(m, env, e);
      if e.Voted? then m'.Total() == m.Total() + e.record.weight && m'.voterCount == m.voterCount + 1
      else m'.Total() <= m.Total() && m'.voterCount == m.voterCount
  {
    EventMovesTally(m, env, e, Yes);
    EventMovesTally(m, env, e, No);
    EventMovesTally(m, env, e, Abstain);
  }

  lemma OneLess(room: nat, amount: int)
    ensures (room - 1) * amount + amount == room * amount
  {
  }

  lemma LessEach(room: nat, less: int, amount: int)
    requires less <= amount
    ensures room * less <= room * amount
  {
  }

  lemma EventKeepsPotential(m: Motion, env: Env, e: Event, t: T.Token)
    requires Allowed(m, env, e) && PositiveWeights(m) && (e.Untouched? || e.Voted? || e.Retracted? || e.Changed?)
    requires e.Voted? ==> e.record.weight <= Movable(t)
    ensures Potential(Effect(m, env, e), t) <= Potential(m, t)
  {
    VoteTotal(m, env, e);
    OneLess(Room(m), Movable(t));
  }

  lemma VoteKeepsPotential(w: World, tx: Tx, i: nat, a: Address)
    requires Voting(w, i, a) && IsVote(tx, i)
    ensures Voting(Apply(w, tx), i, a)
    ensures Potential(Apply(w, tx).gov.motions[i], Apply(w, tx).tokens[a]) <= Potential(w.gov.motions[i], w.tokens[a])
  {
    VoteKeepsPeak(w, tx, i, a);
    VoteShape(w, tx, i, a);
    var e := Happens(w, tx, i);
    if e.Voted? { BalanceWithinMovable(w.tokens[a], e.voter); }
    EventKeepsPotential(w.gov.motions[i], tx.env, e, w.tokens[a]);
  }

  lemma TransferKeepsPotential(w: World, tx: Tx, i: nat, a: Address)
    requires Voting(w, i, a) && IsTransfer(tx, a)
    ensures Voting(Apply(w, tx), i, a)
    ensures Potential(Apply(w, tx).gov.motions[i], Apply(w, tx).tokens[a]) <= Potential(w.gov.motions[i], w.tokens[a])
  {
    var (t, x, y, n) := (w.tokens[a], tx.caller, tx.call.tok.to, tx.call.tok.amount);
    TransferEnds(w, tx, a);
    if Apply(w, tx) != w {
      var moved := TransferOutcome(w, tx.env, i, a, x, y, n);
      SentMovable(t, x, y, n);
      LessEach(Room(w.gov.motions[i]), Movable(moved.tokens[a]), Movable(t));
    }
  }

  lemma NextPotential(ws: seq<World>, txs: seq<Tx>, i: nat, a: Address, k: nat)
    requires Run(ws, txs) && k < |txs| && Voting(ws[k], i, a) && (IsVote(txs[k], i) || IsTransfer(txs[k], a))
    ensures Voting(ws[k + 1], i, a)
    ensures Potential(ws[k + 1].gov.motions[i], ws[k + 1].tokens[a]) <= Potential(ws[k].gov.motions[i], ws[k].tokens[a])
  {
    assert StepAt(ws, txs, k);
    if IsVote(txs[k], i) {
      VoteKeepsPotential(ws[k], txs[k], i, a);
    } else {
      TransferKeepsPotential(ws[k], txs[k], i, a);
    }
  }

  lemma {:induction false} PotentialFalls(ws: seq<World>, txs: seq<Tx>, i: nat, a: Address, k: nat)
    requires Run(ws, txs) && Voting(ws[0], i, a) && VotesAndTransfers(txs, i, a) && k <= |txs|
    ensures Voting(ws[k], i, a)
    ensures Potential(ws[k].gov.motions[i], ws[k].tokens[a]) <= Potential(ws[0].gov.motions[i], ws[0].tokens[a])
  {
    if k > 0 {
      PotentialFalls(ws, txs, i, a, k - 1);
      NextPotential(ws, txs, i, a, k - 1);
    }
  }

  lemma TotalWithinPotential(m: Motion, t: T.Token)
    requires T.NonNegative(t)
    ensures m.Total() <= Potential(m, t)
  {
    AtLeastEach(SignerBalances(t), T.Amount);
    LessEach(Room(m), 0, Movable(t));
  }

  lemma PotentialIsSafe(w: World, i: nat, a: Address)
    requires Voting(w, i, a) && Potential(w.gov.motions[i], w.tokens[a]) <= w.tokens[a].Supply()
    ensures NeverExceedsMoving(w, i, a, w.tokens[a].Supply())
  {
    forall ws: seq<World>, txs: seq<Tx> |
      Run(ws, txs) && ws[0] == w && VotesAndTransfers(txs, i, a) && i < |ws[|txs|].gov.motions|
      ensures ws[|txs|].gov.motions[i].Total() <= w.tokens[a].Supply()
    {
      PotentialFalls(ws, txs, i, a, |txs|);
      TotalWithinPotential(ws[|txs|].gov.motions[i], ws[|txs|].tokens[a]);
    }
  }

  /** Signers other than y who hold tokens. */
  function OtherHolders(t: T.Token, y: Address): set<Address> {
    set b | b in t.balances && b.Other? && b != y && t.balances[b] > 0
  }

  lemma AllInOneHand(t: T.Token, y: Address)
    requires T.NonNegative(t) && y.Other? && OtherHolders(t, y) == {}
    ensures Movable(t) <= t.Balance(y)
  {
    var all := SignerBalances(t);
    forall b | b in all && b != y ensures all[b] <= 0 {
      assert b !in OtherHolders(t, y);
    }
    if y in all { TakeOut(all, y, T.Amount); }
    NothingPositive(all - {y}, T.Amount);
    assert y !in all ==> all - {y} == all;
  }

  /** x hands everything to y. */
  lemma HandOver(w: World, env: Env, i: nat, a: Address, x: Address, y: Address) returns (moved: World, tx: Tx)
    requires Open(w, env, i, a) && !w.tokens[a].paused && y.Other? && x in OtherHolders(w.tokens[a], y)
    ensures IsTransfer(tx, a) && ComesBefore(w, tx, moved) && Open(moved, env, i, a) && moved.gov == w.gov
    ensures moved.tokens[a].Supply() == w.tokens[a].Supply() && Movable(moved.tokens[a]) == Movable(w.tokens[a])
    ensures Sender(moved.tokens[a], y) && |OtherHolders(moved.tokens[a], y)| < |OtherHolders(w.tokens[a], y)|
  {
    var t := w.tokens[a];
    tx := TransferTx(env, a, x, y, t.Balance(x));
    moved := TransferOutcome(w, env, i, a, x, y, t.Balance(x));
    SentMovable(t, x, y, t.Balance(x));
    assert OtherHolders(moved.tokens[a], y) == OtherHolders(t, y) - {x};
    Precedes(w, tx);
  }

  lemma {:induction false} GatheringExceeds(w: World, env: Env, i: u64, a: Address, y: Address)
    requires Open(w, env, i, a) && Signed(w.gov.motions[i]) && Sender(w.tokens[a], y)
    requires Potential(w.gov.motions[i], w.tokens[a]) > w.tokens[a].Supply()
    ensures !NeverExceedsMoving(w, i, a, w.tokens[a].Supply())
    decreases |OtherHolders(w.tokens[a], y)|
  {
    var (m, t) := (w.gov.motions[i], w.tokens[a]);
    if OtherHolders(t, y) == {} {
      AllInOneHand(t, y);
      LessEach(Room(m), Movable(t), t.Balance(y));
      PumpingExceeds(w, env, i, a, y, Room(m));
    } else {
      var x :| x in OtherHolders(t, y);
      var moved, tx := HandOver(w, env, i, a, x, y);
      GatheringExceeds(moved, env, i, a, y);
      OneMoreMove(w, tx, moved, i, a, t.Supply());
    }
  }

  lemma NobodyMoves(t: T.Token)
    requires !t.paused && forall x :: !Sender(t, x)
    ensures Movable(t) <= 0
  {
    forall b | b in SignerBalances(t) ensures SignerBalances(t)[b] <= 0 {
      assert !Sender(t, b);
    }
    NothingPositive(SignerBalances(t), T.Amount);
  }

  lemma PotentialExceeds(w: World, env: Env, i: u64, a: Address)
    requires Open(w, env, i, a) && Signed(w.gov.motions[i]) && !w.tokens[a].paused
    requires Potential(w.gov.motions[i], w.tokens[a]) > w.tokens[a].Supply()
    ensures !NeverExceedsMoving(w, i, a, w.tokens[a].Supply())
  {
    if y :| Sender(w.tokens[a], y) {
      GatheringExceeds(w, env, i, a, y);
    } else {
      NobodyMoves(w.tokens[a]);
      LessEach(Room(w.gov.motions[i]), Movable(w.tokens[a]), 0);
      BeyondAlready(w, i, w.tokens[a].Supply());
      VotesAreMoves(w, i, a, w.tokens[a].Supply());
    }
  }

  // While the token is paused nothing moves.

  lemma {:induction false} PausedCasters(ws: seq<World>, txs: seq<Tx>, i: nat, a: Address, k: nat)
    returns (s: set<Address>)
    requires Run(ws, txs) && Voting(ws[0], i, a) && VotesAndTransfers(txs, i, a) && k <= |txs|
    requires ws[0].tokens[a].paused
    ensures Voting(ws[k], i, a) && ws[k].tokens == ws[0].tokens && SameRules(ws[0].gov, ws[k].gov, i)
    ensures CastBy(ws[0].gov, i, ws[0].tokens[a], s, ws[k].gov.motions[i])
  {
    s := {};
    if k > 0 {
      s := PausedCasters(ws, txs, i, a, k - 1);
      if IsVote(txs[k - 1], i) {
        s := NextCaster(ws[0].gov, ws, txs, i, a, k - 1, s);
      } else {
        TransferEnds(ws[k - 1], txs[k - 1], a);
        assert StepAt(ws, txs, k - 1);
      }
    }
  }

  lemma PausedIsSafe(w: World, i: nat, a: Address)
    requires Voting(w, i, a) && w.tokens[a].paused && Fits(w.gov, i, w.tokens[a], w.tokens[a].Supply())
    ensures NeverExceedsMoving(w, i, a, w.tokens[a].Supply())
  {
    forall ws: seq<World>, txs: seq<Tx> |
      Run(ws, txs) && ws[0] == w && VotesAndTransfers(txs, i, a) && i < |ws[|txs|].gov.motions|
      ensures ws[|txs|].gov.motions[i].Total() <= w.tokens[a].Supply()
    {
      var s := PausedCasters(ws, txs, i, a, |txs|);
      CastByTotal(w.gov, i, w.tokens[a], s, ws[|txs|].gov.motions[i]);
    }
  }

  /** The exact condition for votes and transfers together. While tokens move, they never carry the tally of an open
      motion beyond the supply if and only if the tally would stay within it with every cast the voter count has room
      for counting everything that signers hold; while the token is paused, if and only if votes alone never do. */
  lemma VotesAndTransfersStayWithinIff(w: World, env: Env, i: u64, a: Address)
    requires Open(w, env, i, a) && Signed(w.gov.motions[i])
    ensures var (m, t) := (w.gov.motions[i], w.tokens[a]);
      NeverExceedsMoving(w, i, a, t.Supply()) <==>
        if t.paused then Fits(w.gov, i, t, t.Supply()) else m.Total() + Room(m) * Movable(t) <= t.Supply()
  {
    var (m, t) := (w.gov.motions[i], w.tokens[a]);
    if t.paused {
      if Fits(w.gov, i, t, t.Supply()) {
        PausedIsSafe(w, i, a);
      } else {
        UnfitExceeds(w, env, i, a);
        VotesAreMoves(w, i, a, t.Supply());
      }
    } else if Potential(m, t) <= t.Supply() {
      PotentialIsSafe(w, i, a);
    } else {
      PotentialExceeds(w, env, i, a);
    }
  }
}
