/**
 Keeping one event per id in an insertion-ordered dictionary. A later event replaces the one kept
 only when it ranks strictly below it.
 */
module Dedup {
  import opened Ordering

  function IndexOf<T>(id: T -> string, kept: seq<T>, key: string): (i: nat)
    ensures i <= |kept|
    ensures i < |kept| ==> id(kept[i]) == key
    ensures forall j :: 0 <= j < i ==> id(kept[j]) != key
  {
    if kept == [] || id(kept[0]) == key then 0 else 1 + IndexOf(id, kept[1..], key)
  }

  function Offer<T>(id: T -> string, leq: (T, T) -> bool, kept: seq<T>, e: T): seq<T> {
    var i := IndexOf(id, kept, id(e));
    if i == |kept| then kept + [e] else if leq(kept[i], e) then kept else kept[i := e]
  }

  function Dedupe<T>(id: T -> string, leq: (T, T) -> bool, events: seq<T>): seq<T> {
    if events == [] then []
    else
      var n := |events| - 1;
      Offer(id, leq, Dedupe(id, leq, events[..n]), events[n])
  }

  ghost predicate DistinctIds<T>(id: T -> string, kept: seq<T>) {
    forall i, j :: 0 <= i < j < |kept| ==> id(kept[i]) != id(kept[j])
  }

  /** Some kept event has the same id and does not rank above. */
  ghost predicate Represented<T>(id: T -> string, leq: (T, T) -> bool, kept: seq<T>, e: T) {
    exists i :: 0 <= i < |kept| && id(kept[i]) == id(e) && leq(kept[i], e)
  }

  /** One event per id, each of them an input event that no input event with the same id ranks below. */
  ghost predicate Deduped<T>(id: T -> string, leq: (T, T) -> bool, events: seq<T>, kept: seq<T>) {
    && DistinctIds(id, kept)
    && (forall i :: 0 <= i < |kept| ==> kept[i] in events)
    && (forall e :: e in events ==> Represented(id, leq, kept, e))
  }

  lemma {:induction false} RepresentedAfter<T(!new)>(id: T -> string, leq: (T, T) -> bool, kept: seq<T>, e: T, x: T)
    requires Preorder(leq) && DistinctIds(id, kept)
    requires x == e || Represented(id, leq, kept, x)
    ensures Represented(id, leq, Offer(id, leq, kept, e), x)
  {
    var kept' := Offer(id, leq, kept, e);
    var i := IndexOf(id, kept, id(e));
    if x == e {
      assert id(kept'[i]) == id(e) && leq(kept'[i], e);
    } else {
      var j :| 0 <= j < |kept| && id(kept[j]) == id(x) && leq(kept[j], x);
      assert id(kept'[j]) == id(x) && leq(kept'[j], x);
    }
  }

  lemma {:induction false} OfferIds<T>(id: T -> string, leq: (T, T) -> bool, kept: seq<T>, e: T)
    requires DistinctIds(id, kept)
    ensures DistinctIds(id, Offer(id, leq, kept, e))
  {
  }

  lemma {:induction false} DedupeKeepsLeast<T(!new)>(id: T -> string, leq: (T, T) -> bool, events: seq<T>)
    requires Preorder(leq)
    ensures Deduped(id, leq, events, Dedupe(id, leq, events))
  {
    if events != [] {
      var n := |events| - 1;
      var before, e := events[..n], events[n];
      DedupeKeepsLeast(id, leq, before);
      var kept := Dedupe(id, leq, before);
      assert events == before + [e];
      OfferIds(id, leq, kept, e);
      forall x | x in events ensures Represented(id, leq, Offer(id, leq, kept, e), x) {
        RepresentedAfter(id, leq, kept, e, x);
      }
    }
  }

  /** The dictionary loop. */
  method DedupeAll<T>(id: T -> string, leq: (T, T) -> bool, events: seq<T>) returns (values: seq<T>)
    ensures values == Dedupe(id, leq, events)
  {
    values := [];
    for i := 0 to |events|
      invariant values == Dedupe(id, leq, events[..i])
    {
      assert events[..i + 1][..i] == events[..i];
      var at := 0;
      while at < |values| && id(values[at]) != id(events[i])
        invariant at <= IndexOf(id, values, id(events[i]))
      {
        at := at + 1;
      }
      assert at == IndexOf(id, values, id(events[i]));
      if at == |values| {
        values := values + [events[i]];
      } else if !leq(values[at], events[i]) {
        values := values[at := events[i]];
      }
    }
    assert events[..|events|] == events;
  }

  /** Which event an id keeps does not depend on the order or the number of copies of the input events. */
  lemma {:induction false} KeptAgree<T(!new)>(id: T -> string, leq: (T, T) -> bool, a: seq<T>, b: seq<T>, ka: seq<T>, kb: seq<T>, x: T)
    returns (y: T)
    requires Deduped(id, leq, a, ka) && Deduped(id, leq, b, kb)
    requires (forall e :: e in a <==> e in b) && x in ka
    ensures y in kb && id(y) == id(x) && leq(x, y) && leq(y, x)
  {
    var i := Representative(id, leq, kb, x);
    y := kb[i];
    var j := Representative(id, leq, ka, y);
    SameIdSameEvent(id, ka, x, j);
  }

  lemma {:induction false} Representative<T>(id: T -> string, leq: (T, T) -> bool, kept: seq<T>, x: T) returns (i: nat)
    requires Represented(id, leq, kept, x)
    ensures i < |kept| && id(kept[i]) == id(x) && leq(kept[i], x)
  {
    i :| 0 <= i < |kept| && id(kept[i]) == id(x) && leq(kept[i], x);
  }

  lemma {:induction false} SameIdSameEvent<T>(id: T -> string, kept: seq<T>, x: T, j: nat)
    requires DistinctIds(id, kept) && x in kept && j < |kept| && id(kept[j]) == id(x)
    ensures kept[j] == x
  {
    var i :| 0 <= i < |kept| && kept[i] == x;
    assert id(kept[i]) == id(kept[j]);
  }

  /** Uniquely identified events pass through unchanged. */
  lemma {:induction false} DedupeUnique<T>(id: T -> string, leq: (T, T) -> bool, events: seq<T>)
    requires DistinctIds(id, events)
    ensures Dedupe(id, leq, events) == events
  {
    if events != [] {
      var n := |events| - 1;
      DedupeUnique(id, leq, events[..n]);
      var i := IndexOf(id, events[..n], id(events[n]));
      assert events == events[..n] + [events[n]];
    }
  }
}
