/** The proposal cooldown as a rate bound over runs. */
module Cooldown {
  import opened Host
  import opened SystemSpec
  import opened SystemLaws
  import opened GovernanceLaws
  import opened GovernanceSpec
  import Lifecycle
  import T = TokenSpec

  /** Start times of p's motions from index n on, oldest first. */
  function Starts(ms: seq<Motion>, p: Address, n: nat): seq<u64> {
    if |ms| <= n then []
    else Starts(ms[..|ms| - 1], p, n) + if ms[|ms| - 1].proposer == p then [ms[|ms| - 1].startTime] else []
  }

  predicate Spaced(s: seq<u64>, c: nat) {
    forall a :: 0 < a < |s| ==> s[a] >= s[a - 1] + c
  }

  function CountWithin(s: seq<u64>, lo: int, hi: int): nat {
    if s == [] then 0
    else CountWithin(s[..|s| - 1], lo, hi) + if lo <= s[|s| - 1] <= hi then 1 else 0
  }

  lemma {:induction false} AllBelowLast(s: seq<u64>, c: nat, a: nat)
    requires Spaced(s, c) && a < |s|
    ensures s[a] <= s[|s| - 1] && (a < |s| - 1 ==> s[a] + c <= s[|s| - 1])
    decreases |s| - a
  {
    if a < |s| - 1 { AllBelowLast(s, c, a + 1); }
  }

  /** Counting up to a later moment counts nothing more when no entry lies in between. */
  lemma {:induction false} CountStops(s: seq<u64>, lo: int, mid: int, hi: int)
    requires mid <= hi && forall a :: 0 <= a < |s| ==> s[a] <= mid
    ensures CountWithin(s, lo, hi) == CountWithin(s, lo, mid)
  {
    if s != [] { CountStops(s[..|s| - 1], lo, mid, hi); }
  }

  lemma {:induction false} CountNothing(s: seq<u64>, lo: int, hi: int)
    requires forall a :: 0 <= a < |s| ==> s[a] < lo
    ensures CountWithin(s, lo, hi) == 0
  {
    if s != [] { CountNothing(s[..|s| - 1], lo, hi); }
  }

  /** n - 1 gaps of length c fit in t. */
  predicate GapsFit(n: nat, c: nat, t: int) {
    n == 0 || (n - 1) * c <= t
  }

  lemma OneMoreGap(n: nat, c: nat, t: int)
    requires GapsFit(n, c, t) && 0 <= t
    ensures GapsFit(n + 1, c, t + c)
  {
    if n > 0 { assert n * c == (n - 1) * c + c; }
  }

  lemma CancelFactor(a: int, b: int, c: nat)
    requires a * c < b * c
    ensures a < b
  {
  }

  lemma GapsToQuotient(n: nat, c: nat, t: nat)
    requires c > 0 && GapsFit(n, c, t)
    ensures n <= t / c + 1
  {
    var q := t / c;
    assert (q + 1) * c == q * c + c;
    if n > 0 { CancelFactor(n - 1, q + 1, c); }
  }

  /** Entries at least c apart: a window of length t holds at most one more of them than it holds gaps. */
  lemma {:induction false} SpacedCount(s: seq<u64>, c: nat, lo: int, t: nat)
    requires Spaced(s, c)
    ensures GapsFit(CountWithin(s, lo, lo + t), c, t)
    decreases |s|
  {
    if s != [] {
      var (n, last) := (|s| - 1, s[|s| - 1]);
      var front := s[..n];
      forall a | 0 <= a < n ensures front[a] + c <= last { AllBelowLast(s, c, a); }
      if last > lo + t {
        SpacedCount(front, c, lo, t);
      } else if last - c >= lo {
        CountStops(front, lo, last - c, lo + t);
        SpacedCount(front, c, lo, last - c - lo);
        OneMoreGap(CountWithin(front, lo, last - c), c, last - c - lo);
      } else {
        CountNothing(front, lo, lo + t);
      }
    }
  }

  // ------------------------------------------------------------------ along a run

  lemma {:induction false} StartsAgree(ms: seq<Motion>, ms': seq<Motion>, p: Address, n: nat)
    requires |ms| == |ms'|
    requires forall i :: 0 <= i < |ms| ==> ms'[i].proposer == ms[i].proposer && ms'[i].startTime == ms[i].startTime
    ensures Starts(ms', p, n) == Starts(ms, p, n)
  {
    if |ms| > n { StartsAgree(ms[..|ms| - 1], ms'[..|ms| - 1], p, n); }
  }

  /** The last counted start is the time the cooldown check reads. */
  lemma {:induction false} LastStartIsLatest(ms: seq<Motion>, p: Address, n: nat)
    ensures Starts(ms, p, n) != [] ==> LatestStart(ms, p) == Some(Starts(ms, p, n)[|Starts(ms, p, n)| - 1])
  {
    if |ms| > n { LastStartIsLatest(ms[..|ms| - 1], p, n); }
  }

  /** A new motion starts at least the cooldown after its proposer's latest. */
  lemma CreationRespectsCooldown(g: Gov, env: Env, tokens: map<Address, T.Token>, proposer: Address, d: Draft)
    requires CreateProposal(g, env, tokens, proposer, d).Ok? && g.config.proposalCooldown > 0
    ensures CheckCooldown(LatestStart(g.motions, proposer), g.config.proposalCooldown, env.now) == Pass
  {
  }

  lemma CreationKeepsSpaced(g: Gov, env: Env, tokens: map<Address, T.Token>, proposer: Address, d: Draft,
                            p: Address, n: nat, c: nat)
    requires CreateProposal(g, env, tokens, proposer, d).Ok? && env.now + d.duration <= U64_MAX
    requires Spaced(Starts(g.motions, p, n), c) && n <= |g.motions|
    requires c > 0 && g.config.proposalCooldown == c
    ensures Spaced(Starts(g.motions + [Draw(d, proposer, env)], p, n), c)
  {
    var ms' := g.motions + [Draw(d, proposer, env)];
    assert ms'[..|g.motions|] == g.motions;
    CreationRespectsCooldown(g, env, tokens, proposer, d);
    LastStartIsLatest(g.motions, p, n);
  }

  lemma ApplyKeepsSpaced(w: World, tx: Tx, p: Address, n: nat, c: nat)
    requires Spaced(Starts(w.gov.motions, p, n), c) && n <= |w.gov.motions|
    requires c > 0 && w.gov.config.proposalCooldown == c
    ensures Spaced(Starts(Apply(w, tx).gov.motions, p, n), c) && n <= |Apply(w, tx).gov.motions|
  {
    var (ms, ms') := (w.gov.motions, Apply(w, tx).gov.motions);
    MotionsGrow(w, tx);
    if |ms'| > |ms| {
      Lifecycle.Appears(w, tx);
      CreationKeepsSpaced(w.gov, tx.env, w.tokens, tx.caller, tx.call.gov.draft, p, n, c);
    } else {
      StillTheSameStarts(w, tx);
      StartsAgree(ms, ms', p, n);
    }
  }

  lemma StillTheSameStarts(w: World, tx: Tx)
    ensures var (ms, ms') := (w.gov.motions, Apply(w, tx).gov.motions);
      |ms| <= |ms'| <= |ms| + 1 &&
      forall i :: 0 <= i < |ms| ==> ms'[i].proposer == ms[i].proposer && ms'[i].startTime == ms[i].startTime
  {
    TxShape(w, tx);
    forall i | 0 <= i < |w.gov.motions|
      ensures Apply(w, tx).gov.motions[i].proposer == w.gov.motions[i].proposer
      ensures Apply(w, tx).gov.motions[i].startTime == w.gov.motions[i].startTime
    {
      Lifecycle.EventKeepsIdentity(w.gov.motions[i], tx.env, Happens(w, tx, i));
    }
  }

  lemma NextKeepsSpaced(ws: seq<World>, txs: seq<Tx>, k: nat, p: Address, n: nat, c: nat)
    requires Run(ws, txs) && k < |txs|
    requires Spaced(Starts(ws[k].gov.motions, p, n), c) && n <= |ws[k].gov.motions|
    requires c > 0 && ws[k].gov.config.proposalCooldown == c
    ensures Spaced(Starts(ws[k + 1].gov.motions, p, n), c) && n <= |ws[k + 1].gov.motions|
  {
    assert StepAt(ws, txs, k);
    ApplyKeepsSpaced(ws[k], txs[k], p, n, c);
  }

  lemma {:induction false} RunKeepsSpaced(ws: seq<World>, txs: seq<Tx>, j: nat, k: nat, p: Address, c: nat)
    requires Run(ws, txs) && j <= k <= |txs| && c > 0
    requires forall n :: j <= n < k ==> ws[n].gov.config.proposalCooldown == c
    ensures |ws[j].gov.motions| <= |ws[k].gov.motions|
    ensures Spaced(Starts(ws[k].gov.motions, p, |ws[j].gov.motions|), c)
    decreases k
  {
    if j < k {
      RunKeepsSpaced(ws, txs, j, k - 1, p, c);
      NextKeepsSpaced(ws, txs, k - 1, p, |ws[j].gov.motions|, c);
    }
  }

  /** The rate bound: while the cooldown is a constant c > 0, of the motions p opens no window of length t
      holds more than t/c + 1. */
  lemma RateBound(ws: seq<World>, txs: seq<Tx>, j: nat, k: nat, p: Address, c: nat, lo: int, t: nat)
    requires Run(ws, txs) && j <= k <= |txs| && c > 0
    requires forall n :: j <= n < k ==> ws[n].gov.config.proposalCooldown == c
    ensures CountWithin(Starts(ws[k].gov.motions, p, |ws[j].gov.motions|), lo, lo + t) <= t / c + 1
  {
    RunKeepsSpaced(ws, txs, j, k, p, c);
    var starts := Starts(ws[k].gov.motions, p, |ws[j].gov.motions|);
    SpacedCount(starts, c, lo, t);
    GapsToQuotient(CountWithin(starts, lo, lo + t), c, t);
  }
}
