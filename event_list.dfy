/** The two list operations the event handlers use on the events
  collection: `findIndex` by id (update) and `filter` by id (delete). */
module EventList {
  import opened Records

  /** `events.findIndex(e => e.id === id)`: the first index holding the id,
    or -1 when none does. */
  function FindIndex(events: seq<Event>, id: string): (k: int)
    ensures -1 <= k < |events|
    ensures k == -1 <==> forall i :: 0 <= i < |events| ==> events[i].id != id
    ensures 0 <= k ==> events[k].id == id && forall i :: 0 <= i < k ==> events[i].id != id
  {
    if events == [] then -1
    else if events[0].id == id then 0
    else
      var k := FindIndex(events[1..], id);
      if k == -1 then -1 else k + 1
  }

  /** `events.filter(e => e.id !== id)`: every event whose id differs, in
    their original order. */
  function WithoutId(events: seq<Event>, id: string): (r: seq<Event>)
    ensures |r| <= |events|
    ensures forall i :: 0 <= i < |r| ==> r[i].id != id
  {
    if events == [] then []
    else (if events[0].id == id then [] else [events[0]]) + WithoutId(events[1..], id)
  }

  /** The filter keeps every event exactly when no event carries the id;
    otherwise it is strictly shorter. Delete's "not found" test, comparing
    lengths, is therefore the same as "no event has this id". */
  lemma {:induction false} WithoutIdSameLength(events: seq<Event>, id: string)
    ensures |WithoutId(events, id)| == |events| <==> FindIndex(events, id) == -1
    ensures FindIndex(events, id) == -1 ==> WithoutId(events, id) == events
  {
    if events != [] {
      WithoutIdSameLength(events[1..], id);
      assert events == [events[0]] + events[1..];
    }
  }

  /** Filtering a concatenation filters each part: the survivors keep their
    relative order. */
  lemma {:induction false} WithoutIdConcat(a: seq<Event>, b: seq<Event>, id: string)
    ensures WithoutId(a + b, id) == WithoutId(a, id) + WithoutId(b, id)
  {
    if a == [] {
      assert a + b == b;
    } else {
      var head := if a[0].id == id then [] else [a[0]];
      assert (a + b)[0] == a[0];
      assert (a + b)[1..] == a[1..] + b;
      assert WithoutId(a + b, id) == head + WithoutId(a[1..] + b, id);
      WithoutIdConcat(a[1..], b, id);
      assert WithoutId(a, id) == head + WithoutId(a[1..], id);
    }
  }

  /** The filter keeps every other event as often as it occurred and drops
    every occurrence of an event with the id. */
  lemma {:induction false} WithoutIdCounts(events: seq<Event>, id: string, e: Event)
    ensures multiset(WithoutId(events, id))[e] == if e.id == id then 0 else multiset(events)[e]
  {
    if events != [] {
      var rest := events[1..];
      assert multiset(events) == multiset{events[0]} + multiset(rest) by {
        assert events == [events[0]] + rest;
      }
      WithoutIdCounts(rest, id, e);
      if events[0].id == id {
        assert WithoutId(events, id) == WithoutId(rest, id);
      } else {
        assert WithoutId(events, id) == [events[0]] + WithoutId(rest, id);
        assert multiset(WithoutId(events, id)) == multiset{events[0]} + multiset(WithoutId(rest, id));
      }
    }
  }

  /** An event survives the filter exactly when it was there and its id
    differs. */
  lemma WithoutIdMembers(events: seq<Event>, id: string, e: Event)
    ensures e in WithoutId(events, id) <==> e in events && e.id != id
  {
    WithoutIdCounts(events, id, e);
    assert e in WithoutId(events, id) <==> e in multiset(WithoutId(events, id));
    assert e in events <==> e in multiset(events);
  }

  /** Deleting twice by the same id is the same as deleting once. */
  lemma {:induction false} WithoutIdIdempotent(events: seq<Event>, id: string)
    ensures WithoutId(WithoutId(events, id), id) == WithoutId(events, id)
  {
    WithoutIdSameLength(WithoutId(events, id), id);
  }
}
