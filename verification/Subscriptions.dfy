/** The notification service's store: who wants which events, and how far the event log has been read.
    Every operation loads the store, changes one part and saves it. */
module Subscriptions {
  import opened Host

  /** Where the next poll starts: at the service's first poll, or after a record. */
  datatype Cursor = Now | After(id: nat)

  datatype Subscriber = Subscriber(id: string, proposalId: Option<string>, events: seq<string>, channels: seq<string>)

  /** A subscriber without a proposal id, or with an empty one, hears about all proposals. */
  predicate Wants(s: Subscriber, kind: string, proposalId: Option<string>) {
    kind in s.events && (s.proposalId.None? || s.proposalId.value == "" || s.proposalId == proposalId)
  }

  function Matching(subs: seq<Subscriber>, kind: string, proposalId: Option<string>): seq<Subscriber> {
    if subs == [] then []
    else
      var last := subs[|subs| - 1];
      Matching(subs[..|subs| - 1], kind, proposalId) + (if Wants(last, kind, proposalId) then [last] else [])
  }

  /** The list without the subscribers of that id. */
  function Without(subs: seq<Subscriber>, id: string): seq<Subscriber> {
    if subs == [] then []
    else Without(subs[..|subs| - 1], id) + (if subs[|subs| - 1].id != id then [subs[|subs| - 1]] else [])
  }

  /** Exactly the subscribers that want the event are told. */
  lemma {:induction false} MatchingIsExact(subs: seq<Subscriber>, kind: string, proposalId: Option<string>,
                                           s: Subscriber)
    ensures s in Matching(subs, kind, proposalId) <==>
      && s in subs && kind in s.events
      && (s.proposalId == None || s.proposalId == Some("") || s.proposalId == proposalId)
  {
    if subs != [] {
      MatchingIsExact(subs[..|subs| - 1], kind, proposalId, s);
      assert subs == subs[..|subs| - 1] + [subs[|subs| - 1]];
    }
  }

  lemma {:induction false} WithoutIsExact(subs: seq<Subscriber>, id: string, s: Subscriber)
    ensures s in Without(subs, id) <==> s in subs && s.id != id
  {
    if subs != [] {
      WithoutIsExact(subs[..|subs| - 1], id, s);
      assert subs == subs[..|subs| - 1] + [subs[|subs| - 1]];
    }
  }

  /** The list keeps its length exactly when nobody has that id, and is then the same list. */
  lemma {:induction false} WithoutNobody(subs: seq<Subscriber>, id: string)
    ensures |Without(subs, id)| <= |subs|
    ensures |Without(subs, id)| == |subs| ==> Without(subs, id) == subs
    ensures |Without(subs, id)| < |subs| ==> exists s :: s in subs && s.id == id
  {
    if subs != [] {
      var front, last := subs[..|subs| - 1], subs[|subs| - 1];
      WithoutNobody(front, id);
      assert subs == front + [last];
      if last.id == id {
        assert last in subs;
      } else if |Without(front, id)| < |front| {
        var s :| s in front && s.id == id;
        assert s in subs;
      }
    }
  }

  lemma AppendMatching(subs: seq<Subscriber>, s: Subscriber, kind: string, proposalId: Option<string>)
    ensures Matching(subs + [s], kind, proposalId) ==
      Matching(subs, kind, proposalId) + (if Wants(s, kind, proposalId) then [s] else [])
  {
    assert (subs + [s])[..|subs|] == subs;
  }

  lemma AppendWithout(subs: seq<Subscriber>, s: Subscriber, id: string)
    ensures Without(subs + [s], id) == Without(subs, id) + (if s.id != id then [s] else [])
  {
    assert (subs + [s])[..|subs|] == subs;
  }

  /** Removing a subscriber removes it from every list of recipients and nobody else. */
  lemma {:induction false} RemovalFiltersRecipients(subs: seq<Subscriber>, id: string, kind: string,
                                                    proposalId: Option<string>)
    ensures Matching(Without(subs, id), kind, proposalId) == Without(Matching(subs, kind, proposalId), id)
  {
    if subs != [] {
      var front, last := subs[..|subs| - 1], subs[|subs| - 1];
      RemovalFiltersRecipients(front, id, kind, proposalId);
      AppendMatching(Without(front, id), last, kind, proposalId);
      AppendWithout(Matching(front, kind, proposalId), last, id);
      assert last.id == id ==> Without(subs, id) == Without(front, id);
      assert !Wants(last, kind, proposalId) ==> Matching(subs, kind, proposalId) == Matching(front, kind, proposalId);
    }
  }

  /** Removing a subscriber just added under an unused id restores the list. */
  lemma RemoveUndoesAdd(subs: seq<Subscriber>, s: Subscriber)
    requires forall t :: t in subs ==> t.id != s.id
    ensures Without(subs + [s], s.id) == subs
  {
    AppendWithout(subs, s, s.id);
    WithoutNobody(subs, s.id);
  }

  class Store {
    var subscribers: seq<Subscriber>
    var cursor: Cursor

    constructor ()
      ensures subscribers == [] && cursor == Now
    {
      subscribers, cursor := [], Now;
    }

    method SaveCursor(next: Cursor)
      modifies this`cursor
      ensures cursor == next
    {
      cursor := next;
    }

    /** `id` is the fresh identifier drawn for the subscriber. Fails unless some channel is given. */
    method AddSubscriber(id: string, proposalId: Option<string>, events: seq<string>,
                         channels: seq<string>) returns (r: Option<Subscriber>)
      modifies this`subscribers
      ensures r.Some? <==> channels != []
      ensures r == if channels == [] then None else Some(Subscriber(id, proposalId, events, channels))
      ensures subscribers == old(subscribers) + (if r.Some? then [r.value] else [])
    {
      if channels == [] {
        return None;
      }
      var subscriber := Subscriber(id, proposalId, events, channels);
      subscribers := subscribers + [subscriber];
      return Some(subscriber);
    }

    method RemoveSubscriber(id: string) returns (removed: bool)
      modifies this`subscribers
      ensures removed <==> exists s :: s in old(subscribers) && s.id == id
      ensures subscribers == Without(old(subscribers), id)
    {
      var before := |subscribers|;
      var kept: seq<Subscriber> := [];
      for i := 0 to |subscribers|
        invariant kept == Without(subscribers[..i], id)
      {
        assert subscribers[..i + 1][..i] == subscribers[..i];
        if subscribers[i].id != id {
          kept := kept + [subscribers[i]];
        }
      }
      assert subscribers[..|subscribers|] == subscribers;
      WithoutNobody(subscribers, id);
      forall s ensures s in kept <==> s in subscribers && s.id != id {
        WithoutIsExact(subscribers, id, s);
      }
      if |kept| == before {
        return false;
      }
      subscribers := kept;
      return true;
    }

    method MatchingSubscribers(kind: string, proposalId: Option<string>) returns (found: seq<Subscriber>)
      ensures found == Matching(subscribers, kind, proposalId)
    {
      found := [];
      for i := 0 to |subscribers|
        invariant found == Matching(subscribers[..i], kind, proposalId)
      {
        assert subscribers[..i + 1][..i] == subscribers[..i];
        if Wants(subscribers[i], kind, proposalId) {
          found := found + [subscribers[i]];
        }
      }
      assert subscribers[..|subscribers|] == subscribers;
    }
  }
}
