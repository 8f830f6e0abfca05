/** The notification watcher: it reads the chain's event log a page at a time, dispatches the governance
    events of the page, and only then saves how far it got. The log grows and the process may crash
    between any two of these steps. */
module Watcher {
  import opened Host
  import opened Subscriptions

  /** A log record: its paging token, the ledger number that token starts with, whether a closing time is
      given, the topics if any, and the first element of the value if any. */
  datatype Record = Record(id: nat, ledger: nat, closed: bool, topics: Option<seq<string>>, head: Option<string>)

  datatype Event = Event(kind: string, proposalId: Option<string>, ledger: nat, raw: Record)

  const TRACKED_TOPICS := ["created", "voted", "final", "exec", "cancel"]
  const PAGE_LIMIT := 50

  function ParseEvent(r: Record): Option<Event> {
    if r.topics.None? || |r.topics.value| < 2 then None
    else if r.topics.value[0] != "gov" then None
    else if r.topics.value[1] !in TRACKED_TOPICS then None
    else Some(Event(r.topics.value[1], r.head, if r.closed then r.ledger else 0, r))
  }

  /** The governance events among the records, in order. */
  function Tracked(records: seq<Record>): seq<Event> {
    if records == [] then []
    else
      var last := ParseEvent(records[|records| - 1]);
      Tracked(records[..|records| - 1]) + if last.Some? then [last.value] else []
  }

  lemma {:induction false} TrackedAppend(a: seq<Record>, b: seq<Record>)
    ensures Tracked(a + b) == Tracked(a) + Tracked(b)
  {
    if b == [] {
      assert a + b == a;
    } else {
      assert (a + b)[..|a + b| - 1] == a + b[..|b| - 1];
      TrackedAppend(a, b[..|b| - 1]);
    }
  }

  lemma {:induction false} TrackedIsParsed(records: seq<Record>, e: Event)
    ensures e in Tracked(records) <==> e.raw in records && ParseEvent(e.raw) == Some(e)
  {
    if records != [] {
      TrackedIsParsed(records[..|records| - 1], e);
      assert records == records[..|records| - 1] + [records[|records| - 1]];
    }
  }

  /** A governance event as the contract emits it: its topics, the first element of its value as proposal id, and the
      ledger if a closing time is given. */
  ghost predicate IsEventOf(e: Event, r: Record) {
    && e.raw == r && r.topics.Some? && |r.topics.value| >= 2 && r.topics.value[0] == "gov"
    && r.topics.value[1] == e.kind && e.kind in {"created", "voted", "final", "exec", "cancel"}
    && e.proposalId == r.head && e.ledger == if r.closed then r.ledger else 0
  }

  lemma ParsedIs(e: Event)
    ensures ParseEvent(e.raw) == Some(e) <==> IsEventOf(e, e.raw)
  {
    assert TRACKED_TOPICS == ["created", "voted", "final", "exec", "cancel"];
  }

  /** The tracked events of a page are the governance events of its records, read off record by record. */
  lemma TrackedIsExact(records: seq<Record>, e: Event)
    ensures e in Tracked(records) <==>
      && e.raw in records && e.raw.topics.Some? && |e.raw.topics.value| >= 2
      && e.raw.topics.value[0] == "gov" && e.raw.topics.value[1] == e.kind
      && e.kind in {"created", "voted", "final", "exec", "cancel"}
      && e.proposalId == e.raw.head && e.ledger == if e.raw.closed then e.raw.ledger else 0
  {
    TrackedIsParsed(records, e);
    ParsedIs(e);
  }

  lemma TrackedIsFewer(records: seq<Record>)
    ensures |Tracked(records)| <= |records|
  {
  }

  lemma TrackedSpan(log: seq<Record>, from: nat, p: nat, q: nat)
    requires from <= p <= q <= |log|
    ensures Tracked(log[from..q]) == Tracked(log[from..p]) + Tracked(log[p..q])
  {
    TrackedAppend(log[from..p], log[p..q]);
    assert log[from..q] == log[from..p] + log[p..q];
  }

  lemma TrackedInside(log: seq<Record>, from: nat, p: nat, q: nat)
    requires from <= p <= q <= |log|
    ensures forall e :: e in Tracked(log[p..q]) ==> e in Tracked(log[from..])
  {
    TrackedAppend(log[from..p], log[p..q]);
    TrackedAppend(log[from..p] + log[p..q], log[q..]);
    assert log[from..] == (log[from..p] + log[p..q]) + log[q..];
  }

  // ------------------------------------------------------------------ the log and its cursors

  /** Paging tokens grow along the log. */
  ghost predicate Ordered(log: seq<Record>) {
    forall i, j :: 0 <= i < j < |log| ==> log[i].id < log[j].id
  }

  /** How many leading records are not after the token. */
  function Read(log: seq<Record>, id: nat): nat {
    if log == [] then 0
    else if log[|log| - 1].id <= id then |log|
    else Read(log[..|log| - 1], id)
  }

  lemma {:induction false} ReadUpTo(log: seq<Record>, i: nat)
    requires Ordered(log) && i < |log|
    ensures Read(log, log[i].id) == i + 1
  {
    if i < |log| - 1 {
      ReadUpTo(log[..|log| - 1], i);
    }
  }

  /** The record a poll starts at; without a cursor the server starts at `origin`. */
  function Position(log: seq<Record>, cursor: Cursor, origin: nat): nat {
    match cursor
    case Now => origin
    case After(id) => Read(log, id)
  }

  /** What the server answers: the next records, fifty at most. */
  function ServerPage(log: seq<Record>, cursor: Cursor, origin: nat): seq<Record> {
    var p := AtMost(Position(log, cursor, origin), |log|);
    log[p..AtMost(p + PAGE_LIMIT, |log|)]
  }

  /** A page has fifty records, or as many as there are, in log order from just after the cursor's token. */
  lemma ServerPageHolds(log: seq<Record>, cursor: Cursor, origin: nat, i: nat)
    requires Ordered(log) && i < |log| && cursor == After(log[i].id)
    ensures var page := ServerPage(log, cursor, origin);
      && |page| == (if |log| - (i + 1) < 50 then |log| - (i + 1) else 50)
      && forall n :: 0 <= n < |page| ==> page[n] == log[i + 1 + n]
  {
    ReadUpTo(log, i);
  }

  function NextCursor(page: seq<Record>, cursor: Cursor): Cursor {
    if page == [] then cursor else After(page[|page| - 1].id)
  }

  // ------------------------------------------------------------------ the protocol

  /** What the process holds in memory: nothing, or a fetched page on its way out. */
  datatype Memory = Idle | Busy(events: seq<Event>, done: nat, next: Cursor)

  /** The log and where the server starts; the saved cursor; the memory; every dispatch ever made. */
  datatype Watch = Watch(log: seq<Record>, origin: nat, cursor: Cursor, memory: Memory, trace: seq<Event>, crashes: nat)

  datatype Step = Grow(more: seq<Record>) | Fetch | Dispatch | Save | Crash

  ghost function Do(w: Watch, s: Step): Watch {
    match s
    case Grow(more) => if Ordered(w.log + more) then w.(log := w.log + more) else w
    case Fetch =>
      var page := ServerPage(w.log, w.cursor, w.origin);
      if w.memory.Idle? && Tracked(page) != [] then w.(memory := Busy(Tracked(page), 0, NextCursor(page, w.cursor)))
      else w
    case Dispatch =>
      if w.memory.Busy? && w.memory.done < |w.memory.events|
      then w.(memory := w.memory.(done := w.memory.done + 1), trace := w.trace + [w.memory.events[w.memory.done]])
      else w
    case Save =>
      if w.memory.Busy? && w.memory.done == |w.memory.events| then w.(cursor := w.memory.next, memory := Idle) else w
    case Crash => w.(memory := Idle, crashes := w.crashes + 1)
  }

  ghost function Follow(w: Watch, steps: seq<Step>): Watch {
    if steps == [] then w else Do(Follow(w, steps[..|steps| - 1]), steps[|steps| - 1])
  }

  predicate Started(w: Watch) {
    w.cursor == Now && w.memory == Idle && w.trace == [] && w.crashes == 0 && w.origin <= |w.log|
  }

  function Reached(w: Watch): nat {
    Position(w.log, w.cursor, w.origin)
  }

  /** Events of the page in memory that are already out. */
  function Sent(w: Watch): seq<Event> {
    if w.memory.Busy? && w.memory.done <= |w.memory.events| then w.memory.events[..w.memory.done] else []
  }

  /** a can be got from b by leaving elements out. */
  predicate Subsequence<T(==)>(a: seq<T>, b: seq<T>)
    decreases |b|
  {
    if a == [] then true
    else if b == [] then false
    else Subsequence(a, b[..|b| - 1]) || (a[|a| - 1] == b[|b| - 1] && Subsequence(a[..|a| - 1], b[..|b| - 1]))
  }

  lemma {:induction false} SubsequenceOfFewer<T>(a: seq<T>, n: nat, b: seq<T>)
    requires n <= |a| && Subsequence(a, b)
    ensures Subsequence(a[..n], b)
    decreases |b|
  {
    if n < |a| && n > 0 {
      if Subsequence(a, b[..|b| - 1]) {
        SubsequenceOfFewer(a, n, b[..|b| - 1]);
      } else {
        SubsequenceOfFewer(a[..|a| - 1], n, b[..|b| - 1]);
        assert a[..|a| - 1][..n] == a[..n];
      }
    } else if n == |a| {
      assert a[..n] == a;
    }
  }

  lemma SubsequenceGrows<T>(a: seq<T>, b: seq<T>, x: T)
    requires Subsequence(a, b)
    ensures Subsequence(a + [x], b + [x])
  {
    assert (a + [x])[..|a|] == a && (b + [x])[..|b|] == b;
  }

  lemma {:induction false} SubsequenceKeeps<T>(a: seq<T>, b: seq<T>, x: T)
    requires Subsequence(a, b) && x in a
    ensures x in b
    decreases |b|
  {
    if Subsequence(a, b[..|b| - 1]) {
      SubsequenceKeeps(a, b[..|b| - 1], x);
    } else if x != a[|a| - 1] {
      assert a == a[..|a| - 1] + [a[|a| - 1]];
      SubsequenceKeeps(a[..|a| - 1], b[..|b| - 1], x);
    }
  }

  // ------------------------------------------------------------------ what every step keeps

  /** The saved cursor names the last record before position p. */
  ghost predicate At(w: Watch, p: nat) {
    && w.origin <= p <= |w.log|
    && (w.cursor.Now? ==> p == w.origin)
    && (w.cursor.After? ==> 0 < p && w.cursor.id == w.log[p - 1].id)
  }

  /** The page in memory is log[p..q]. */
  ghost predicate Holds(w: Watch, p: nat, q: nat) {
    && p < q <= |w.log| && q <= p + PAGE_LIMIT
    && w.memory.Busy? && w.memory.events == Tracked(w.log[p..q]) && w.memory.next == After(w.log[q - 1].id)
    && w.memory.done <= |w.memory.events|
  }

  /** Everything dispatched for good, in order, followed by what the current pass has sent. */
  ghost function Progress(w: Watch, p: nat): seq<Event>
    requires w.origin <= p <= |w.log|
  {
    Tracked(w.log[w.origin..p]) + Sent(w)
  }

  /** The trace delivers the progress: complete and in order, at most a page of repeats per crash, none
      without a crash, and nothing but events of the log. */
  ghost predicate Delivers(progress: seq<Event>, trace: seq<Event>, crashes: nat, all: seq<Event>) {
    && Subsequence(progress, trace)
    && |trace| <= |progress| + PAGE_LIMIT * crashes
    && (crashes == 0 ==> trace == progress)
    && (forall e :: e in trace ==> e in all)
  }

  lemma SendDelivers(progress: seq<Event>, trace: seq<Event>, crashes: nat, all: seq<Event>, e: Event)
    requires Delivers(progress, trace, crashes, all) && e in all
    ensures Delivers(progress + [e], trace + [e], crashes, all)
  {
    SubsequenceGrows(progress, trace, e);
  }

  lemma CrashDelivers(progress: seq<Event>, n: nat, trace: seq<Event>, crashes: nat, all: seq<Event>)
    requires Delivers(progress, trace, crashes, all) && n <= |progress| <= n + PAGE_LIMIT
    ensures Delivers(progress[..n], trace, crashes + 1, all)
  {
    SubsequenceOfFewer(progress, n, trace);
  }

  /** How many more dispatches there have been than the progress needs. */
  ghost function Surplus(w: Watch, p: nat): int
    requires w.origin <= p <= |w.log|
  {
    |w.trace| - |Progress(w, p)|
  }

  ghost predicate WatchOk(w: Watch, p: nat) {
    && Ordered(w.log)
    && At(w, p)
    && (w.memory.Busy? ==> exists q: nat :: Holds(w, p, q))
    && Delivers(Progress(w, p), w.trace, w.crashes, Tracked(w.log[w.origin..]))
  }

  lemma PositionIs(w: Watch, p: nat)
    requires Ordered(w.log) && At(w, p)
    ensures Reached(w) == p
  {
    if w.cursor.After? {
      ReadUpTo(w.log, p - 1);
    }
  }

  /** Appending records changes neither the page in memory nor the progress. */
  lemma GrowHolds(w: Watch, more: seq<Record>, p: nat, q: nat)
    requires p <= q <= |w.log|
    ensures (w.log + more)[p..q] == w.log[p..q]
  {
  }

  lemma GrowKeeps(w: Watch, p: nat, more: seq<Record>)
    requires WatchOk(w, p) && Ordered(w.log + more)
    ensures WatchOk(w.(log := w.log + more), p)
    ensures Progress(w.(log := w.log + more), p) == Progress(w, p)
  {
    var w' := w.(log := w.log + more);
    GrowHolds(w, more, w.origin, p);
    assert Progress(w', p) == Progress(w, p);
    assert w'.log[w.origin..] == w.log[w.origin..] + more;
    TrackedAppend(w.log[w.origin..], more);
    assert Delivers(Progress(w', p), w'.trace, w'.crashes, Tracked(w'.log[w.origin..]));
    if w.memory.Busy? {
      var q: nat :| Holds(w, p, q);
      GrowHolds(w, more, p, q);
      assert Holds(w', p, q);
    }
  }

  lemma FetchLoads(w: Watch, p: nat)
    requires Ordered(w.log) && At(w, p) && w.memory.Idle? && Tracked(ServerPage(w.log, w.cursor, w.origin)) != []
    ensures Holds(Do(w, Fetch), p, p + |ServerPage(w.log, w.cursor, w.origin)|)
    ensures Progress(Do(w, Fetch), p) == Progress(w, p)
  {
    PositionIs(w, p);
  }

  lemma FetchKeeps(w: Watch, p: nat)
    requires WatchOk(w, p)
    ensures WatchOk(Do(w, Fetch), p) && Surplus(Do(w, Fetch), p) == Surplus(w, p)
  {
    if w.memory.Idle? && Tracked(ServerPage(w.log, w.cursor, w.origin)) != [] {
      FetchLoads(w, p);
    }
  }

  lemma SendingIsTracked(w: Watch, p: nat, q: nat)
    requires w.origin <= p && Holds(w, p, q) && w.memory.done < |w.memory.events|
    ensures w.memory.events[w.memory.done] in Tracked(w.log[w.origin..])
  {
    TrackedInside(w.log, w.origin, p, q);
  }

  lemma DispatchAdvances(w: Watch, p: nat, q: nat)
    requires w.origin <= p && Holds(w, p, q) && w.memory.done < |w.memory.events|
    ensures var (w', e) := (Do(w, Dispatch), w.memory.events[w.memory.done]);
      Holds(w', p, q) && Progress(w', p) == Progress(w, p) + [e] && w'.trace == w.trace + [e]
  {
    var (events, done) := (w.memory.events, w.memory.done);
    assert events[..done + 1] == events[..done] + [events[done]];
  }

  lemma DispatchKeeps(w: Watch, p: nat)
    requires WatchOk(w, p)
    ensures WatchOk(Do(w, Dispatch), p) && Surplus(Do(w, Dispatch), p) == Surplus(w, p)
  {
    if w.memory.Busy? && w.memory.done < |w.memory.events| {
      var q: nat :| Holds(w, p, q);
      DispatchAdvances(w, p, q);
      SendingIsTracked(w, p, q);
      SendDelivers(Progress(w, p), w.trace, w.crashes, Tracked(w.log[w.origin..]), w.memory.events[w.memory.done]);
    }
  }

  lemma SaveAdvances(w: Watch, p: nat, q: nat)
    requires At(w, p) && Holds(w, p, q) && w.memory.done == |w.memory.events|
    ensures At(Do(w, Save), q) && Progress(Do(w, Save), q) == Progress(w, p)
  {
    TrackedSpan(w.log, w.origin, p, q);
    assert w.memory.events[..|w.memory.events|] == w.memory.events;
  }

  lemma SaveKeeps(w: Watch, p: nat) returns (p': nat)
    requires WatchOk(w, p)
    ensures p <= p' && WatchOk(Do(w, Save), p')
    ensures Progress(Do(w, Save), p') == Progress(w, p)
    ensures Do(w, Save) != w ==> p < p'
  {
    p' := p;
    if w.memory.Busy? && w.memory.done == |w.memory.events| {
      var q: nat :| Holds(w, p, q);
      p' := q;
      SaveAdvances(w, p, q);
    }
  }

  lemma SentFitsPage(w: Watch, p: nat)
    requires WatchOk(w, p)
    ensures |Sent(w)| <= PAGE_LIMIT
  {
    if w.memory.Busy? {
      var q: nat :| Holds(w, p, q);
      TrackedIsFewer(w.log[p..q]);
    }
  }

  lemma CrashKeeps(w: Watch, p: nat)
    requires WatchOk(w, p)
    ensures WatchOk(Do(w, Crash), p) && Surplus(Do(w, Crash), p) == Surplus(w, p) + |Sent(w)|
  {
    var w' := Do(w, Crash);
    var done := Tracked(w.log[w.origin..p]);
    assert Progress(w', p) == done == Progress(w, p)[..|done|];
    SentFitsPage(w, p);
    CrashDelivers(Progress(w, p), |done|, w.trace, w.crashes, Tracked(w.log[w.origin..]));
  }

  lemma StepKeeps(w: Watch, p: nat, s: Step) returns (p': nat)
    requires WatchOk(w, p)
    ensures p <= p' && WatchOk(Do(w, s), p')
  {
    p' := p;
    match s
    case Grow(more) => if Ordered(w.log + more) { GrowKeeps(w, p, more); }
    case Fetch => FetchKeeps(w, p);
    case Dispatch => DispatchKeeps(w, p);
    case Save => p' := SaveKeeps(w, p);
    case Crash => CrashKeeps(w, p);
  }

  lemma {:induction false} FollowKeeps(w: Watch, p: nat, steps: seq<Step>) returns (p': nat)
    requires WatchOk(w, p)
    ensures p <= p' && WatchOk(Follow(w, steps), p')
  {
    p' := p;
    if steps != [] {
      p' := FollowKeeps(w, p, steps[..|steps| - 1]);
      p' := StepKeeps(Follow(w, steps[..|steps| - 1]), p', steps[|steps| - 1]);
    }
  }

  // ------------------------------------------------------------------ delivery over whole runs

  lemma StartOk(w: Watch)
    requires Started(w) && Ordered(w.log)
    ensures WatchOk(w, w.origin)
  {
    assert w.log[w.origin..w.origin] == [];
    assert Progress(w, w.origin) == [];
  }

  lemma RunsOk(w: Watch, steps: seq<Step>) returns (p: nat)
    requires Started(w) && Ordered(w.log)
    ensures WatchOk(Follow(w, steps), p) && Follow(w, steps).origin == w.origin && Reached(Follow(w, steps)) == p
  {
    StartOk(w);
    p := FollowKeeps(w, w.origin, steps);
    OriginStays(w, steps);
    PositionIs(Follow(w, steps), p);
  }

  /** In every run, however often the process crashes: the tracked records between the start and the
      saved cursor have all been dispatched, in log order; nothing else has been; and each crash costs
      at most one page of repeats. */
  lemma DeliveredInOrder(w: Watch, steps: seq<Step>)
    requires Started(w) && Ordered(w.log)
    ensures var w' := Follow(w, steps);
      && w.origin == w'.origin <= Reached(w') <= |w'.log|
      && Subsequence(Tracked(w'.log[w.origin..Reached(w')]), w'.trace)
      && (forall e :: e in w'.trace ==> e.raw in w'.log[w.origin..] && ParseEvent(e.raw) == Some(e))
      && |w'.trace| <= |Tracked(w'.log[w.origin..Reached(w')])| + PAGE_LIMIT * (w'.crashes + 1)
  {
    var w' := Follow(w, steps);
    var p := RunsOk(w, steps);
    var passed := Tracked(w'.log[w.origin..p]);
    SentFitsPage(w', p);
    assert Progress(w', p)[..|passed|] == passed;
    CrashDelivers(Progress(w', p), |passed|, w'.trace, w'.crashes, Tracked(w'.log[w.origin..]));
    forall e | e in w'.trace ensures e.raw in w'.log[w.origin..] && ParseEvent(e.raw) == Some(e) {
      TrackedIsParsed(w'.log[w.origin..], e);
    }
  }

  lemma {:induction false} OriginStays(w: Watch, steps: seq<Step>)
    ensures Follow(w, steps).origin == w.origin
  {
    if steps != [] {
      OriginStays(w, steps[..|steps| - 1]);
    }
  }

  lemma TrackedWhenIn(records: seq<Record>, k: nat)
    requires k < |records| && ParseEvent(records[k]).Some?
    ensures ParseEvent(records[k]).value in Tracked(records)
  {
    assert ParseEvent(records[k]).value.raw == records[k];
    TrackedIsParsed(records, ParseEvent(records[k]).value);
  }

  lemma TrackedWhenPassed(log: seq<Record>, from: nat, to: nat, i: nat)
    requires from <= i < to <= |log| && ParseEvent(log[i]).Some?
    ensures ParseEvent(log[i]).value in Tracked(log[from..to])
  {
    assert log[from..to][i - from] == log[i];
    TrackedWhenIn(log[from..to], i - from);
  }

  /** No tracked record behind the saved cursor is ever missed. */
  lemma DeliveredAtLeastOnce(w: Watch, steps: seq<Step>, i: nat)
    requires Started(w) && Ordered(w.log)
    requires var w' := Follow(w, steps); w.origin <= i < Reached(w') && i < |w'.log| && ParseEvent(w'.log[i]).Some?
    ensures ParseEvent(Follow(w, steps).log[i]).value in Follow(w, steps).trace
  {
    var w' := Follow(w, steps);
    DeliveredInOrder(w, steps);
    TrackedWhenPassed(w'.log, w.origin, Reached(w'), i);
    SubsequenceKeeps(Tracked(w'.log[w.origin..Reached(w')]), w'.trace, ParseEvent(w'.log[i]).value);
  }

  /** Without crashes every tracked record is dispatched exactly once, in log order. */
  lemma DeliveredExactlyOnceWithoutCrash(w: Watch, steps: seq<Step>)
    requires Started(w) && Ordered(w.log)
    requires Follow(w, steps).crashes == 0
    ensures var w' := Follow(w, steps);
      && w.origin <= Reached(w') <= |w'.log|
      && w'.trace == Tracked(w'.log[w.origin..Reached(w')]) + Sent(w')
  {
    var p := RunsOk(w, steps);
  }

  /** How many events were already out when a crash made the process forget the page. */
  ghost function Forgotten(w: Watch, s: Step): nat {
    if s == Crash then |Sent(w)| else 0
  }

  ghost function Lost(w: Watch, steps: seq<Step>): nat {
    if steps == [] then 0
    else Lost(w, steps[..|steps| - 1]) + Forgotten(Follow(w, steps[..|steps| - 1]), steps[|steps| - 1])
  }

  /** One step lengthens the trace by what it adds to the progress, plus what it forgets. */
  lemma StepCounts(w: Watch, p: nat, s: Step) returns (p': nat)
    requires WatchOk(w, p)
    ensures WatchOk(Do(w, s), p')
    ensures Surplus(Do(w, s), p') == Surplus(w, p) + Forgotten(w, s)
  {
    p' := p;
    match s
    case Grow(more) => if Ordered(w.log + more) { GrowKeeps(w, p, more); }
    case Fetch => FetchKeeps(w, p);
    case Dispatch => DispatchKeeps(w, p);
    case Save => p' := SaveKeeps(w, p);
    case Crash => CrashKeeps(w, p);
  }

  lemma {:induction false} RunCounts(w: Watch, steps: seq<Step>) returns (p: nat)
    requires Started(w) && Ordered(w.log)
    ensures WatchOk(Follow(w, steps), p)
    ensures |Follow(w, steps).trace| == |Progress(Follow(w, steps), p)| + Lost(w, steps)
  {
    if steps == [] {
      StartOk(w);
      p := w.origin;
    } else {
      p := RunCounts(w, steps[..|steps| - 1]);
      p := StepCounts(Follow(w, steps[..|steps| - 1]), p, steps[|steps| - 1]);
    }
  }

  lemma {:induction false} SubsequenceOfSameLength<T>(a: seq<T>, b: seq<T>)
    requires Subsequence(a, b)
    ensures |a| <= |b| && (|a| == |b| ==> a == b)
    decreases |b|
  {
    if a != [] {
      if Subsequence(a, b[..|b| - 1]) {
        SubsequenceOfSameLength(a, b[..|b| - 1]);
      } else {
        SubsequenceOfSameLength(a[..|a| - 1], b[..|b| - 1]);
        assert a == a[..|a| - 1] + [a[|a| - 1]] && b == b[..|b| - 1] + [b[|b| - 1]];
      }
    }
  }

  /** Exactly how much is replayed, and exactly when nothing is: in every run the trace is longer than the tracked
      records up to the cursor and the part of the page already sent by what crashes made the process forget, and
      it is precisely those events, once each, if and only if no crash struck after a dispatch of its page. */
  lemma ReplaysExactlyTheForgotten(w: Watch, steps: seq<Step>)
    requires Started(w) && Ordered(w.log)
    ensures var w' := Follow(w, steps);
      && w.origin <= Reached(w') <= |w'.log|
      && var expected := Tracked(w'.log[w.origin..Reached(w')]) + Sent(w');
      && |w'.trace| == |expected| + Lost(w, steps)
      && (w'.trace == expected <==> Lost(w, steps) == 0)
  {
    var w' := Follow(w, steps);
    var p := RunCounts(w, steps);
    PositionIs(w', p);
    OriginStays(w, steps);
    SubsequenceOfSameLength(Progress(w', p), w'.trace);
  }

  // ------------------------------------------------------------------ polls and progress

  lemma {:induction false} FollowAppend(w: Watch, a: seq<Step>, b: seq<Step>)
    ensures Follow(w, a + b) == Follow(Follow(w, a), b)
  {
    if b == [] {
      assert a + b == a;
    } else {
      assert (a + b)[..|a + b| - 1] == a + b[..|b| - 1];
      FollowAppend(w, a, b[..|b| - 1]);
    }
  }

  lemma FollowOne(w: Watch, steps: seq<Step>, s: Step)
    ensures Follow(w, steps + [s]) == Do(Follow(w, steps), s)
  {
    assert (steps + [s])[..|steps|] == steps;
  }

  function Sends(n: nat): seq<Step> {
    if n == 0 then [] else Sends(n - 1) + [Dispatch]
  }

  ghost function Dispatched(w: Watch, n: nat): Watch {
    if n == 0 then w else Do(Dispatched(w, n - 1), Dispatch)
  }

  lemma {:induction false} SendsDispatch(w: Watch, n: nat)
    ensures Follow(w, Sends(n)) == Dispatched(w, n)
  {
    if n > 0 {
      SendsDispatch(w, n - 1);
      FollowOne(w, Sends(n - 1), Dispatch);
    }
  }

  /** A busy watcher that has sent n events of its page since it held w. */
  function Sending(w: Watch, n: nat): Watch
    requires w.memory.Busy? && n <= |w.memory.events|
  {
    w.(memory := w.memory.(done := n), trace := w.trace + w.memory.events[..n])
  }

  lemma SendNext(w: Watch, n: nat)
    requires w.memory.Busy? && n < |w.memory.events|
    ensures Do(Sending(w, n), Dispatch) == Sending(w, n + 1)
  {
    var events := w.memory.events;
    assert w.trace + events[..n] + [events[n]] == w.trace + events[..n + 1];
  }

  lemma {:induction false} DispatchedSends(w: Watch, n: nat)
    requires w.memory.Busy? && w.memory.done == 0 && n <= |w.memory.events|
    ensures Dispatched(w, n) == Sending(w, n)
  {
    if n == 0 {
      assert w.trace + w.memory.events[..0] == w.trace;
    } else {
      DispatchedSends(w, n - 1);
      SendNext(w, n - 1);
    }
  }

  /** One uninterrupted poll: fetch, dispatch everything fetched, save. */
  function PollSteps(events: nat): seq<Step> {
    [Fetch] + Sends(events) + [Save]
  }

  /** The steps of a poll, one by one. */
  lemma PollInOrder(w: Watch, n: nat)
    ensures Follow(w, PollSteps(n)) == Do(Dispatched(Do(w, Fetch), n), Save)
  {
    FollowOne(w, [Fetch] + Sends(n), Save);
    FollowAppend(w, [Fetch], Sends(n));
    FollowOne(w, [], Fetch);
    assert [] + [Fetch] == [Fetch];
    SendsDispatch(Do(w, Fetch), n);
  }

  lemma PollDoes(w: Watch)
    requires w.memory.Idle?
    ensures var page := ServerPage(w.log, w.cursor, w.origin);
      Follow(w, PollSteps(|Tracked(page)|)) ==
        if Tracked(page) == [] then w
        else w.(cursor := NextCursor(page, w.cursor), trace := w.trace + Tracked(page))
  {
    var events := Tracked(ServerPage(w.log, w.cursor, w.origin));
    PollInOrder(w, |events|);
    if events != [] {
      DispatchedSends(Do(w, Fetch), |events|);
      assert events[..|events|] == events;
    }
  }

  lemma PageFrom(w: Watch, p: nat)
    requires Ordered(w.log) && At(w, p)
    ensures ServerPage(w.log, w.cursor, w.origin) == w.log[p..AtMost(p + PAGE_LIMIT, |w.log|)]
  {
    PositionIs(w, p);
  }

  /** Polled: the watcher after an uninterrupted poll from position p of an idle watcher. */
  ghost function Polled(w: Watch, p: nat): Watch
    requires p < |w.log|
  {
    var page := w.log[p..AtMost(p + PAGE_LIMIT, |w.log|)];
    w.(cursor := After(w.log[p + |page| - 1].id), trace := w.trace + Tracked(page))
  }

  lemma PolledStands(w: Watch, p: nat)
    requires At(w, p) && p < |w.log|
    ensures At(Polled(w, p), p + |w.log[p..AtMost(p + PAGE_LIMIT, |w.log|)]|)
  {
  }

  lemma PageNotEmpty(log: seq<Record>, p: nat)
    requires p <= |log| && Tracked(log[p..AtMost(p + PAGE_LIMIT, |log|)]) != []
    ensures p < |log| && log[p..AtMost(p + PAGE_LIMIT, |log|)] != []
  {
  }

  lemma PollsPast(w: Watch, p: nat)
    requires Ordered(w.log) && At(w, p) && w.memory.Idle?
    requires Tracked(w.log[p..AtMost(p + PAGE_LIMIT, |w.log|)]) != []
    ensures p < |w.log|
    ensures var page := w.log[p..AtMost(p + PAGE_LIMIT, |w.log|)];
      Follow(w, PollSteps(|Tracked(page)|)) == Polled(w, p) && At(Polled(w, p), p + |page|)
  {
    PageNotEmpty(w.log, p);
    PageFrom(w, p);
    PollDoes(w);
    PolledStands(w, p);
  }

  /** A poll moves the cursor past its page if the page has a tracked record, and not at all otherwise. */
  lemma PollAdvancesIffTracked(w: Watch, p: nat)
    requires Ordered(w.log) && At(w, p) && w.memory.Idle?
    ensures var page := ServerPage(w.log, w.cursor, w.origin);
      Reached(Follow(w, PollSteps(|Tracked(page)|))) == if Tracked(page) == [] then p else p + |page|
  {
    PageFrom(w, p);
    var page := ServerPage(w.log, w.cursor, w.origin);
    if Tracked(page) == [] {
      PollDoes(w);
      PositionIs(w, p);
    } else {
      PollsPast(w, p);
      PositionIs(Polled(w, p), p + |page|);
    }
  }

  /** Fifty untracked records lie right after position p. */
  ghost predicate Blocked(log: seq<Record>, p: nat) {
    p + 50 <= |log| && Tracked(log[p..p + 50]) == []
  }

  /** v is w with nothing changed but a longer log and more crashes. */
  ghost predicate Unmoved(w: Watch, v: Watch) {
    && v.memory.Idle? && v.cursor == w.cursor && v.trace == w.trace && v.origin == w.origin
    && Ordered(v.log) && w.log <= v.log
  }

  lemma BlockedPage(w: Watch, p: nat, v: Watch)
    requires At(w, p) && Blocked(w.log, p) && Unmoved(w, v)
    ensures Tracked(ServerPage(v.log, v.cursor, v.origin)) == []
  {
    assert At(v, p);
    PositionIs(v, p);
    assert ServerPage(v.log, v.cursor, v.origin) == w.log[p..p + PAGE_LIMIT];
  }

  lemma BlockedStep(w: Watch, p: nat, v: Watch, s: Step)
    requires At(w, p) && Blocked(w.log, p) && Unmoved(w, v)
    ensures Unmoved(w, Do(v, s))
  {
    if s == Fetch { BlockedPage(w, p, v); }
  }

  lemma {:induction false} BlockedStays(w: Watch, p: nat, steps: seq<Step>)
    requires WatchOk(w, p) && w.memory.Idle? && Blocked(w.log, p)
    ensures Unmoved(w, Follow(w, steps))
  {
    if steps != [] {
      BlockedStays(w, p, steps[..|steps| - 1]);
      BlockedStep(w, p, Follow(w, steps[..|steps| - 1]), steps[|steps| - 1]);
    }
  }

  /** A tracked record that may follow the log. */
  function Fresh(log: seq<Record>): Record {
    Record(if log == [] then 0 else log[|log| - 1].id + 1, 0, false, Some(["gov", "created"]), None)
  }

  /** Steps that move the cursor of an idle watcher that is not blocked. */
  function Unblock(w: Watch): seq<Step> {
    var events := Tracked(ServerPage(w.log, w.cursor, w.origin));
    if events != [] then PollSteps(|events|)
    else
      var log := w.log + [Fresh(w.log)];
      [Grow([Fresh(w.log)])] + PollSteps(|Tracked(ServerPage(log, w.cursor, w.origin))|)
  }

  lemma CursorMoves(w: Watch, p: nat)
    requires Ordered(w.log) && At(w, p) && w.memory.Idle?
    requires Tracked(ServerPage(w.log, w.cursor, w.origin)) != []
    ensures Follow(w, PollSteps(|Tracked(ServerPage(w.log, w.cursor, w.origin))|)).cursor != w.cursor
  {
    PageFrom(w, p);
    PollDoes(w);
  }

  lemma FreshFollows(w: Watch, p: nat)
    requires Ordered(w.log) && At(w, p)
    ensures var v := w.(log := w.log + [Fresh(w.log)]); Ordered(v.log) && At(v, p)
  {
  }

  /** A fresh tracked record comes into view if the page has room for it. */
  lemma FreshIsSeen(w: Watch, p: nat)
    requires Ordered(w.log) && At(w, p) && |w.log| < p + PAGE_LIMIT
    ensures var v := w.(log := w.log + [Fresh(w.log)]);
      Ordered(v.log) && At(v, p) && Tracked(ServerPage(v.log, v.cursor, v.origin)) != []
  {
    var r := Fresh(w.log);
    var v := w.(log := w.log + [r]);
    FreshFollows(w, p);
    PageFrom(v, p);
    FreshPage(w.log, p);
  }

  lemma FreshIsTracked(log: seq<Record>)
    ensures Tracked([Fresh(log)]) != []
  {
    var r := Fresh(log);
    assert TRACKED_TOPICS[0] == "created";
    assert [r][..0] == [] && ParseEvent(r).Some?;
  }

  lemma FreshPage(log: seq<Record>, p: nat)
    requires p <= |log| < p + PAGE_LIMIT
    ensures var longer := log + [Fresh(log)];
      Tracked(longer[p..AtMost(p + PAGE_LIMIT, |longer|)]) != []
  {
    var longer := log + [Fresh(log)];
    assert AtMost(p + PAGE_LIMIT, |longer|) == |longer|;
    assert longer[p..|longer|] == log[p..] + [Fresh(log)];
    TrackedAppend(log[p..], [Fresh(log)]);
    FreshIsTracked(log);
  }

  lemma UnblockMoves(w: Watch, p: nat)
    requires Ordered(w.log) && At(w, p) && w.memory.Idle? && !Blocked(w.log, p)
    ensures Follow(w, Unblock(w)).cursor != w.cursor
  {
    PageFrom(w, p);
    if Tracked(ServerPage(w.log, w.cursor, w.origin)) != [] {
      CursorMoves(w, p);
    } else {
      var grow := [Grow([Fresh(w.log)])];
      var v := w.(log := w.log + [Fresh(w.log)]);
      FreshIsSeen(w, p);
      assert grow[..0] == [];
      assert Follow(w, grow) == v;
      FollowAppend(w, grow, PollSteps(|Tracked(ServerPage(v.log, w.cursor, w.origin))|));
      CursorMoves(v, p);
    }
  }

  /** An idle watcher never moves again, whatever happens to the log, exactly when the next fifty records
      exist and none of them is tracked. */
  lemma StuckForeverIffBlocked(w: Watch, p: nat)
    requires WatchOk(w, p) && w.memory.Idle?
    ensures (forall steps :: Follow(w, steps).cursor == w.cursor) <==> Blocked(w.log, p)
  {
    if Blocked(w.log, p) {
      forall steps ensures Follow(w, steps).cursor == w.cursor {
        BlockedStays(w, p, steps);
      }
    } else {
      UnblockMoves(w, p);
    }
  }

  /** Where polling over a log that does not grow comes to rest: the first page without a tracked record. */
  function RestsAt(log: seq<Record>, p: nat): nat
    requires p <= |log|
    decreases |log| - p
  {
    var page := log[p..AtMost(p + PAGE_LIMIT, |log|)];
    if Tracked(page) == [] then p else RestsAt(log, p + |page|)
  }

  /** The page at p has no tracked record. */
  ghost predicate NothingAt(log: seq<Record>, p: nat)
    requires p <= |log|
  {
    Tracked(log[p..AtMost(p + PAGE_LIMIT, |log|)]) == []
  }

  lemma {:induction false} RestsAtUntracked(log: seq<Record>, p: nat)
    requires p <= |log|
    ensures p <= RestsAt(log, p) <= |log| && NothingAt(log, RestsAt(log, p))
    decreases |log| - p
  {
    var page := log[p..AtMost(p + PAGE_LIMIT, |log|)];
    if Tracked(page) != [] {
      RestsAtUntracked(log, p + |page|);
    }
  }

  /** Polls without interruption until one finds nothing. */
  ghost function CatchUp(w: Watch, p: nat): seq<Step>
    requires p <= |w.log|
    decreases |w.log| - p
  {
    var page := w.log[p..AtMost(p + PAGE_LIMIT, |w.log|)];
    if Tracked(page) == [] then []
    else PollSteps(|Tracked(page)|) + CatchUp(w, p + |page|)
  }

  lemma {:induction false} SamePages(w: Watch, v: Watch, p: nat)
    requires v.log == w.log && p <= |w.log|
    ensures CatchUp(v, p) == CatchUp(w, p)
    decreases |w.log| - p
  {
    var page := w.log[p..AtMost(p + PAGE_LIMIT, |w.log|)];
    if Tracked(page) != [] {
      SamePages(w, v, p + |page|);
    }
  }

  /** v is what w becomes by dispatching the tracked records from p up to q, and no more. */
  ghost predicate Advanced(w: Watch, p: nat, v: Watch, q: nat) {
    && p <= q <= |w.log| && v.log == w.log && v.memory.Idle? && At(v, q)
    && v.trace == w.trace + Tracked(w.log[p..q])
  }

  lemma AdvancedTwice(w: Watch, p: nat, u: Watch, q: nat, v: Watch, r: nat)
    requires Advanced(w, p, u, q) && Advanced(u, q, v, r)
    ensures Advanced(w, p, v, r)
  {
    TrackedSpan(w.log, p, q, r);
    Regroup(w.trace, Tracked(w.log[p..q]), Tracked(w.log[q..r]));
  }

  lemma Regroup<T>(a: seq<T>, b: seq<T>, c: seq<T>)
    ensures (a + b) + c == a + (b + c)
  {
  }

  lemma NotAdvanced(w: Watch, p: nat)
    requires At(w, p) && w.memory.Idle?
    ensures Advanced(w, p, w, p)
  {
    assert w.log[p..p] == [];
    assert w.trace + [] == w.trace;
  }

  lemma PolledAdvances(w: Watch, p: nat)
    requires Ordered(w.log) && At(w, p) && w.memory.Idle? && !NothingAt(w.log, p)
    ensures var page := w.log[p..AtMost(p + PAGE_LIMIT, |w.log|)];
      p < |w.log| && Advanced(w, p, Polled(w, p), p + |page|)
  {
    PollsPast(w, p);
  }

  lemma CatchUpAfterPoll(w: Watch, p: nat)
    requires Ordered(w.log) && At(w, p) && w.memory.Idle? && !NothingAt(w.log, p)
    ensures p < |w.log|
    ensures var q := p + |w.log[p..AtMost(p + PAGE_LIMIT, |w.log|)]|;
      Follow(w, CatchUp(w, p)) == Follow(Polled(w, p), CatchUp(Polled(w, p), q))
  {
    var page := w.log[p..AtMost(p + PAGE_LIMIT, |w.log|)];
    PollsPast(w, p);
    SamePages(w, Polled(w, p), p + |page|);
    FollowAppend(w, PollSteps(|Tracked(page)|), CatchUp(w, p + |page|));
  }

  lemma RestsFurther(log: seq<Record>, p: nat)
    requires p <= |log| && !NothingAt(log, p)
    ensures var q := p + |log[p..AtMost(p + PAGE_LIMIT, |log|)]|;
      p < q <= |log| && RestsAt(log, p) == RestsAt(log, q)
  {
    PageNotEmpty(log, p);
  }

  /** The next poll of the pass, and what is left of the pass after it. */
  lemma NextPage(w: Watch, p: nat) returns (u: Watch, q: nat)
    requires Ordered(w.log) && At(w, p) && w.memory.Idle? && !NothingAt(w.log, p)
    ensures p < q && u.log == w.log && Advanced(w, p, u, q)
    ensures Follow(w, CatchUp(w, p)) == Follow(u, CatchUp(u, q)) && RestsAt(w.log, p) == RestsAt(w.log, q)
  {
    RestsFurther(w.log, p);
    CatchUpAfterPoll(w, p);
    PolledAdvances(w, p);
    u, q := Polled(w, p), p + |w.log[p..AtMost(p + PAGE_LIMIT, |w.log|)]|;
  }

  /** Catching up: over a log that does not grow, uninterrupted polls dispatch every tracked record, in order and once,
      up to the first page that has none, and stop there. */
  lemma {:induction false} PollsCatchUp(w: Watch, p: nat)
    requires Ordered(w.log) && At(w, p) && w.memory.Idle?
    ensures Advanced(w, p, Follow(w, CatchUp(w, p)), RestsAt(w.log, p))
    decreases |w.log| - p
  {
    if NothingAt(w.log, p) {
      NotAdvanced(w, p);
    } else {
      var u, q := NextPage(w, p);
      PollsCatchUp(u, q);
      AdvancedTwice(w, p, u, q, Follow(w, CatchUp(w, p)), RestsAt(w.log, p));
    }
  }

  /** If the page they stop at is not full, no tracked record is left undispatched. */
  lemma NothingLeftAtTheEnd(log: seq<Record>, p: nat)
    requires p <= |log|
    ensures p <= RestsAt(log, p) <= |log|
    ensures RestsAt(log, p) + PAGE_LIMIT > |log| ==> Tracked(log[RestsAt(log, p)..]) == []
  {
    RestsAtUntracked(log, p);
    assert log[RestsAt(log, p)..|log|] == log[RestsAt(log, p)..];
  }

  /** A crash between a dispatch and the save makes the next poll dispatch the same event again. */
  lemma CrashRepeats(w: Watch)
    requires w.memory.Idle? && Tracked(ServerPage(w.log, w.cursor, w.origin)) != []
    ensures var first := Tracked(ServerPage(w.log, w.cursor, w.origin))[0];
      Follow(w, [Fetch, Dispatch, Crash, Fetch, Dispatch]).trace == w.trace + [first, first]
  {
    FollowFive(w, Fetch, Dispatch, Crash, Fetch, Dispatch);
    SendAndCrash(w);
    FirstSent(Do(Do(Do(w, Fetch), Dispatch), Crash));
  }

  lemma FirstSent(w: Watch)
    requires w.memory.Idle? && Tracked(ServerPage(w.log, w.cursor, w.origin)) != []
    ensures var (v, page) := (Do(Do(w, Fetch), Dispatch), ServerPage(w.log, w.cursor, w.origin));
      v == w.(memory := Busy(Tracked(page), 1, NextCursor(page, w.cursor)), trace := w.trace + [Tracked(page)[0]])
  {
  }

  lemma SendAndCrash(w: Watch)
    requires w.memory.Idle? && Tracked(ServerPage(w.log, w.cursor, w.origin)) != []
    ensures Do(Do(Do(w, Fetch), Dispatch), Crash) ==
      w.(trace := w.trace + [Tracked(ServerPage(w.log, w.cursor, w.origin))[0]], crashes := w.crashes + 1)
  {
    FirstSent(w);
  }

  lemma FollowTwo(w: Watch, a: Step, b: Step)
    ensures Follow(w, [a, b]) == Do(Do(w, a), b)
  {
    FollowOne(w, [], a);
    FollowOne(w, [a], b);
    assert [] + [a] == [a] && [a] + [b] == [a, b];
  }

  lemma FollowFive(w: Watch, a: Step, b: Step, c: Step, d: Step, e: Step)
    ensures Follow(w, [a, b, c, d, e]) == Do(Do(Do(Do(Do(w, a), b), c), d), e)
  {
    FollowTwo(w, a, b);
    FollowOne(w, [a, b], c);
    FollowAppend(w, [a, b] + [c], [d, e]);
    FollowTwo(Follow(w, [a, b] + [c]), d, e);
    assert [a, b] + [c] + [d, e] == [a, b, c, d, e];
  }

  // ------------------------------------------------------------------ the process

  function Addressed(subs: seq<Subscriber>, e: Event): seq<(Subscriber, Event)> {
    seq(|subs|, i requires 0 <= i < |subs| => (subs[i], e))
  }

  lemma AddressedIsExact(subs: seq<Subscriber>, told: Event, s: Subscriber, e: Event)
    ensures (s, e) in Addressed(subs, told) <==> s in subs && e == told
  {
    assert forall i :: 0 <= i < |subs| ==> Addressed(subs, told)[i] == (subs[i], told);
  }

  /** Who is told what when the events are processed. */
  function Notifications(subs: seq<Subscriber>, events: seq<Event>): seq<(Subscriber, Event)> {
    if events == [] then []
    else
      var e := events[|events| - 1];
      Notifications(subs, events[..|events| - 1]) + Addressed(Matching(subs, e.kind, e.proposalId), e)
  }

  /** Each event goes to exactly the subscribers that want it. */
  lemma {:induction false} NotificationsAreExact(subs: seq<Subscriber>, events: seq<Event>, s: Subscriber, e: Event)
    ensures (s, e) in Notifications(subs, events) <==>
      && e in events && s in subs && e.kind in s.events
      && (s.proposalId == None || s.proposalId == Some("") || s.proposalId == e.proposalId)
  {
    if events != [] {
      var front, last := events[..|events| - 1], events[|events| - 1];
      NotificationsAreExact(subs, front, s, e);
      MatchingIsExact(subs, last.kind, last.proposalId, s);
      AddressedIsExact(Matching(subs, last.kind, last.proposalId), last, s, e);
      assert events == front + [last];
    }
  }

  class Process {
    const store: Store
    var dispatched: seq<Event>
    var notified: seq<(Subscriber, Event)>

    constructor (store: Store)
      ensures this.store == store && dispatched == [] && notified == []
    {
      this.store := store;
      dispatched, notified := [], [];
    }

    method FetchNewEvents(records: seq<Record>, cursor: Cursor) returns (events: seq<Event>, nextCursor: Cursor)
      ensures events == Tracked(records) && nextCursor == NextCursor(records, cursor)
    {
      events, nextCursor := [], cursor;
      for i := 0 to |records|
        invariant events == Tracked(records[..i]) && nextCursor == NextCursor(records[..i], cursor)
      {
        assert records[..i + 1][..i] == records[..i];
        var ev := ParseEvent(records[i]);
        if ev.Some? {
          events := events + [ev.value];
        }
        nextCursor := After(records[i].id);
      }
      assert records[..|records|] == records;
    }

    method ProcessEvents(events: seq<Event>)
      modifies this`dispatched, this`notified
      ensures dispatched == old(dispatched) + events
      ensures notified == old(notified) + Notifications(store.subscribers, events)
    {
      for i := 0 to |events|
        invariant dispatched == old(dispatched) + events[..i]
        invariant notified == old(notified) + Notifications(store.subscribers, events[..i])
      {
        assert events[..i + 1][..i] == events[..i];
        var subscribers := store.MatchingSubscribers(events[i].kind, events[i].proposalId);
        notified := notified + Addressed(subscribers, events[i]);
        dispatched := dispatched + [events[i]];
      }
      assert events[..|events|] == events;
    }

    /** One poll of a server whose log is `log`: the protocol's fetch, dispatches and save. */
    method Poll(log: seq<Record>, origin: nat)
      modifies this`dispatched, this`notified, store`cursor
      ensures var page := ServerPage(log, old(store.cursor), origin);
        && notified == old(notified) + Notifications(store.subscribers, Tracked(page))
        && Watch(log, origin, store.cursor, Idle, dispatched, 0) ==
             Follow(Watch(log, origin, old(store.cursor), Idle, old(dispatched), 0), PollSteps(|Tracked(page)|))
    {
      var cursor := store.cursor;
      PollDoes(Watch(log, origin, cursor, Idle, dispatched, 0));
      var events, nextCursor := FetchNewEvents(ServerPage(log, cursor, origin), cursor);
      if |events| > 0 {
        ProcessEvents(events);
        store.SaveCursor(nextCursor);
      }
    }
  }
}
