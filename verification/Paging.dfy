/** Pages of the proposal list: what one page holds, and that walking the pages rebuilds the list. */
module Paging {
  import opened Host

  /** No page is longer than twenty. */
  function Cap(limit: u32): u32 {
    if limit > 20 then 20 else limit
  }

  // ------------------------------------------------------------------ plain pages

  /** The entries from .. at, as far as there are any. */
  function Span<T>(all: seq<T>, from: nat, at: nat): seq<T>
    requires from <= at
  {
    all[AtMost(from, |all|)..AtMost(at, |all|)]
  }

  lemma SpanGrows<T>(all: seq<T>, from: nat, at: nat)
    requires from <= at < |all|
    ensures Span(all, from, at + 1) == Span(all, from, at) + [all[at]]
  {
  }

  /** The entries from .. from + limit; the sum is taken in 64 bits and traps on overflow. */
  function Page<T>(all: seq<T>, from: u64, limit: u32): Outcome<seq<T>> {
    var check := Unless(from + Cap(limit) > U64_MAX);
    :- check;
    Ok(Span(all, from, from + Cap(limit)))
  }

  /** A page has no more than twenty entries, no more than asked for and no more than there are, and they are the
      entries of the list from `from` on. */
  lemma PageHolds<T>(all: seq<T>, from: u64, limit: u32)
    ensures var most := if limit < 20 then limit else 20;
      if from + most > U64_MAX then Page(all, from, limit) == Trap
      else
        && Page(all, from, limit).Ok?
        && var page := Page(all, from, limit).value;
           && |page| == (if from >= |all| then 0 else if from + most <= |all| then most else |all| - from)
           && forall n :: 0 <= n < |page| ==> page[n] == all[from + n]
  {
  }

  /** Ask for page after page, each starting where the last one stopped, until one comes back empty. */
  function Walk<T>(all: seq<T>, from: u64, limit: u32): Outcome<seq<T>>
    requires |all| <= U64_MAX && limit > 0
    decreases |all| - from
  {
    var page :- Page(all, from, limit);
    if page == [] then Ok([])
    else
      var rest :- Walk(all, from + |page|, limit);
      Ok(page + rest)
  }

  /** The walk yields the rest of the list, each entry once and in order, exactly when the last page's
      end can be computed; otherwise it traps. */
  lemma {:induction false} WalkRebuilds<T>(all: seq<T>, from: u64, limit: u32)
    requires from <= |all| <= U64_MAX && limit > 0
    ensures Walk(all, from, limit) == if |all| + Cap(limit) <= U64_MAX then Ok(all[from..]) else Trap
    decreases |all| - from
  {
    var page := Page(all, from, limit);
    if page.Ok? && page.value != [] {
      WalkRebuilds(all, from + |page.value|, limit);
      assert all[from..] == page.value + all[from + |page.value|..];
    }
  }

  // ------------------------------------------------------------------ filtered pages

  /** The ids at or after `from` whose entry is wanted, in order. */
  function Ids<T>(all: seq<T>, wanted: T -> bool, from: nat): seq<nat>
    decreases |all| - from
  {
    if from >= |all| then []
    else (if wanted(all[from]) then [from] else []) + Ids(all, wanted, from + 1)
  }

  /** Ids lists exactly the wanted ids. */
  lemma {:induction false} IdsAreTheWanted<T>(all: seq<T>, wanted: T -> bool, from: nat, id: nat)
    ensures id in Ids(all, wanted, from) <==> from <= id < |all| && wanted(all[id])
    decreases |all| - from
  {
    if from < |all| {
      var rest := Ids(all, wanted, from + 1);
      IdsAreTheWanted(all, wanted, from + 1, id);
      if wanted(all[from]) {
        InFront(from, rest, id);
      } else {
        assert Ids(all, wanted, from) == rest;
      }
    }
  }

  lemma InFront(first: nat, rest: seq<nat>, id: nat)
    ensures id in [first] + rest <==> id == first || id in rest
  {
  }

  predicate Increasing(ids: seq<nat>) {
    forall i, j :: 0 <= i < j < |ids| ==> ids[i] < ids[j]
  }

  /** Each id once, in increasing order. */
  lemma {:induction false} IdsIncrease<T>(all: seq<T>, wanted: T -> bool, from: nat)
    ensures Increasing(Ids(all, wanted, from))
    decreases |all| - from
  {
    if from < |all| {
      var rest := Ids(all, wanted, from + 1);
      IdsIncrease(all, wanted, from + 1);
      forall i | 0 <= i < |rest| ensures from < rest[i] {
        IdsAreTheWanted(all, wanted, from + 1, rest[i]);
      }
    }
  }

  function FilteredPage<T>(all: seq<T>, wanted: T -> bool, from: nat, limit: u32): seq<nat> {
    var ids := Ids(all, wanted, from);
    ids[..AtMost(Cap(limit), |ids|)]
  }

  /** A filtered page is the first twenty wanted ids from `from` on, or as many as asked for, or all there are. */
  lemma FilteredPageHolds<T>(all: seq<T>, wanted: T -> bool, from: nat, limit: u32)
    ensures var (page, most) := (FilteredPage(all, wanted, from, limit), if limit < 20 then limit else 20);
      && |page| <= most && Increasing(page)
      && (forall id :: id in page ==> from <= id < |all| && wanted(all[id]))
      && (forall id: nat :: from <= id < |all| && wanted(all[id]) && id !in page ==>
            |page| == most && forall n :: 0 <= n < |page| ==> page[n] < id)
  {
    var (ids, page) := (Ids(all, wanted, from), FilteredPage(all, wanted, from, limit));
    IdsIncrease(all, wanted, from);
    forall id: nat ensures id in ids <==> from <= id < |all| && wanted(all[id]) {
      IdsAreTheWanted(all, wanted, from, id);
    }
    forall id | id in page ensures id in ids {
    }
    forall id | id in ids && id !in page
      ensures |page| < |ids| && forall n :: 0 <= n < |page| ==> page[n] < id
    {
      assert forall n :: 0 <= n < |page| ==> ids[n] in page;
      var m :| 0 <= m < |ids| && ids[m] == id;
    }
  }

  /** A scan from `from` that stands at `at` has collected the first part of the list of ids. */
  ghost predicate Scanned<T>(all: seq<T>, wanted: T -> bool, from: nat, at: nat, got: seq<nat>) {
    got + Ids(all, wanted, at) == Ids(all, wanted, from)
  }

  lemma ScanOne<T>(all: seq<T>, wanted: T -> bool, from: nat, at: nat, got: seq<nat>)
    requires at < |all| && Scanned(all, wanted, from, at, got)
    ensures Scanned(all, wanted, from, at + 1, if wanted(all[at]) then got + [at] else got)
  {
    if wanted(all[at]) {
      assert got + Ids(all, wanted, at) == (got + [at]) + Ids(all, wanted, at + 1);
    } else {
      assert Ids(all, wanted, at) == Ids(all, wanted, at + 1);
    }
  }

  /** A scan that stopped because the page is full or the list is at its end has a whole page. */
  lemma ScanDone<T>(all: seq<T>, wanted: T -> bool, from: nat, at: nat, got: seq<nat>, limit: u32)
    requires Scanned(all, wanted, from, at, got)
    requires |got| <= Cap(limit) && (|got| == Cap(limit) || at >= |all|)
    ensures got == FilteredPage(all, wanted, from, limit)
  {
  }

  /** Entries read off a list at given positions. */
  predicate ReadAt<T(==)>(found: seq<T>, all: seq<T>, ids: seq<nat>) {
    |found| == |ids| && forall i :: 0 <= i < |ids| ==> ids[i] < |all| && found[i] == all[ids[i]]
  }

  /** Cutting the list of ids after position k leaves the list that starts one past the k-th id. */
  lemma {:induction false} IdsResume<T>(all: seq<T>, wanted: T -> bool, from: nat, k: nat)
    requires k < |Ids(all, wanted, from)|
    ensures Ids(all, wanted, from)[k + 1..] == Ids(all, wanted, Ids(all, wanted, from)[k] + 1)
    ensures from <= Ids(all, wanted, from)[k] < |all|
    decreases |all| - from
  {
    var rest := Ids(all, wanted, from + 1);
    if wanted(all[from]) {
      assert Ids(all, wanted, from) == [from] + rest;
      if k > 0 {
        IdsResume(all, wanted, from + 1, k - 1);
        assert Ids(all, wanted, from)[k + 1..] == rest[k..];
      }
    } else {
      assert Ids(all, wanted, from) == rest;
      IdsResume(all, wanted, from + 1, k);
    }
  }

  /** Ask for filtered pages, each from one past the last id received, until one comes back empty. */
  function FilteredWalk<T>(all: seq<T>, wanted: T -> bool, from: nat, limit: u32): seq<nat>
    requires limit > 0
    decreases |all| - from
  {
    var page := FilteredPage(all, wanted, from, limit);
    if page == [] then []
    else
      IdsResume(all, wanted, from, |page| - 1);
      page + FilteredWalk(all, wanted, page[|page| - 1] + 1, limit)
  }

  /** What a page leaves out starts one past its last id. */
  lemma PageResumes<T>(all: seq<T>, wanted: T -> bool, from: nat, limit: u32)
    requires FilteredPage(all, wanted, from, limit) != []
    ensures var page := FilteredPage(all, wanted, from, limit);
      && from <= page[|page| - 1] < |all|
      && Ids(all, wanted, from) == page + Ids(all, wanted, page[|page| - 1] + 1)
  {
    var (ids, page) := (Ids(all, wanted, from), FilteredPage(all, wanted, from, limit));
    IdsResume(all, wanted, from, |page| - 1);
    assert ids == page + ids[|page|..];
  }

  /** The filtered walk finds every wanted entry once, in order, whatever the page size. */
  lemma {:induction false} FilteredWalkRebuilds<T>(all: seq<T>, wanted: T -> bool, from: nat, limit: u32)
    requires limit > 0
    ensures FilteredWalk(all, wanted, from, limit) == Ids(all, wanted, from)
    decreases |all| - from
  {
    var page := FilteredPage(all, wanted, from, limit);
    if page != [] {
      PageResumes(all, wanted, from, limit);
      FilteredWalkRebuilds(all, wanted, page[|page| - 1] + 1, limit);
    }
  }
}
