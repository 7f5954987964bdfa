/**
 The single-flight orderbook cache. Callers run the same code on their own threads; one of them per key
 leads and fetches, the others wait on its event. Each atomic section is a step, and a run is any
 interleaving of steps with any fetch results and a clock that does not run backwards.
 */
module SingleFlight {
  import opened Results

  datatype Key = Key(pairSymbol: string, limit: Option<int>)

  datatype Quote = Quote(bid: real, ask: real, fetchedAt: int)

  datatype Entry = Entry(expires: real, quote: Quote)

  type Thread = nat

  /** A `threading.Event`, identified by the thread that made it. */
  datatype Event = Event(creator: Thread, serial: nat)

  datatype Outcome =
    | Own(quote: Quote)
    | FromCache(quote: Quote, at: real)
    | FetchFailed
    | WaitTimedOut
    | LeaderFailed

  /** Where a thread is, with its local variables. */
  datatype Local =
    | Idle
    | Waiting(key: Key, event: Event)
    | Woken(key: Key)
    | Fetching(key: Key, event: Event)
    | Storing(key: Key, event: Event, quote: Quote)
    | Popping(key: Key, event: Event, outcome: Outcome)
    | Setting(key: Key, popped: Option<Event>, outcome: Outcome)
    | Finished(key: Key, outcome: Outcome)

  /** What the threads share. */
  datatype Shared = Shared(cache: map<Key, Entry>, inflight: map<Key, Event>, isSet: set<Event>, serial: nat)

  // --- the atomic sections

  predicate Fresh(s: Shared, key: Key, now: real) {
    key in s.cache && s.cache[key].expires > now
  }

  /** The first locked section: a cache hit, a new leader, or one more waiter. */
  function EnterShared(s: Shared, t: Thread, key: Key, now: real): Shared {
    if Fresh(s, key, now) || key in s.inflight then s
    else s.(inflight := s.inflight[key := Event(t, s.serial)], serial := s.serial + 1)
  }

  function EnterLocal(s: Shared, t: Thread, key: Key, now: real): Local {
    if Fresh(s, key, now) then Finished(key, FromCache(s.cache[key].quote, now))
    else if key in s.inflight then Waiting(key, s.inflight[key])
    else Fetching(key, Event(t, s.serial))
  }

  /** A follower's second look at the cache. */
  function Reread(s: Shared, key: Key, now: real): Local {
    Finished(key, if Fresh(s, key, now) then FromCache(s.cache[key].quote, now) else LeaderFailed)
  }

  function StoreShared(s: Shared, key: Key, quote: Quote, now: real, ttl: real): Shared {
    s.(cache := s.cache[key := Entry(now + ttl, quote)])
  }

  function PopShared(s: Shared, key: Key): Shared {
    s.(inflight := s.inflight - {key})
  }

  function PoppedEvent(s: Shared, key: Key): Option<Event> {
    if key in s.inflight then Some(s.inflight[key]) else None
  }

  function SetShared(s: Shared, popped: Option<Event>): Shared {
    if popped.Some? then s.(isSet := s.isSet + {popped.value}) else s
  }

  /** The client's dictionaries, changed in place by the sections of `get_orderbook`. */
  class OrderbookCache {
    var cache: map<Key, Entry>
    var inflight: map<Key, Event>
    var isSet: set<Event>
    var serial: nat
    const ttl: real

    constructor (ttlSeconds: real)
      ensures Contents() == Shared(map[], map[], {}, 0) && ttl == if ttlSeconds > 0.0 then ttlSeconds else 0.0
    {
      cache, inflight, isSet, serial := map[], map[], {}, 0;
      ttl := if ttlSeconds > 0.0 then ttlSeconds else 0.0;
    }

    ghost function Contents(): Shared
      reads this
    {
      Shared(cache, inflight, isSet, serial)
    }

    method Enter(t: Thread, key: Key, now: real) returns (local: Local)
      modifies this
      ensures local == EnterLocal(old(Contents()), t, key, now)
      ensures Contents() == EnterShared(old(Contents()), t, key, now)
    {
      if key in cache && cache[key].expires > now {
        return Finished(key, FromCache(cache[key].quote, now));
      }
      if key !in inflight {
        var event := Event(t, serial);
        serial := serial + 1;
        inflight := inflight[key := event];
        return Fetching(key, event);
      }
      return Waiting(key, inflight[key]);
    }

    method ReadAfterWait(key: Key, now: real) returns (local: Local)
      ensures local == Reread(Contents(), key, now)
    {
      if key in cache && cache[key].expires > now {
        return Finished(key, FromCache(cache[key].quote, now));
      }
      return Finished(key, LeaderFailed);
    }

    method Store(key: Key, quote: Quote, now: real)
      modifies this
      ensures Contents() == StoreShared(old(Contents()), key, quote, now, ttl)
    {
      cache := cache[key := Entry(now + ttl, quote)];
    }

    method Pop(key: Key) returns (event: Option<Event>)
      modifies this
      ensures event == PoppedEvent(old(Contents()), key) && Contents() == PopShared(old(Contents()), key)
    {
      event := if key in inflight then Some(inflight[key]) else None;
      inflight := inflight - {key};
    }

    method SetEvent(event: Option<Event>)
      modifies this
      ensures Contents() == SetShared(old(Contents()), event)
    {
      if event.Some? {
        isSet := isSet + {event.value};
      }
    }
  }

  // --- interleavings

  /** What happened, kept to state what may be returned. */
  datatype Record =
    | Fetched(thread: Thread, key: Key, quote: Quote)
    | Stored(thread: Thread, key: Key, quote: Quote, at: real)

  datatype World = World(shared: Shared, locals: map<Thread, Local>, clock: real, log: set<Record>)

  const START := World(Shared(map[], map[], {}, 0), map[], 0.0, {})

  function At(w: World, t: Thread): Local {
    if t in w.locals then w.locals[t] else Idle
  }

  datatype Action =
    | Enter(key: Key)
    | Wake
    | TimeOut
    | ReadAgain
    | FetchOk(quote: Quote)
    | FetchFail
    | StoreQuote
    | PopEvent
    | SetEvent

  /** A thread takes an action at some time. */
  datatype Step = Step(t: Thread, now: real, action: Action)

  predicate Enabled(w: World, step: Step) {
    var l := At(w, step.t);
    && step.now >= w.clock
    && match step.action
       case Enter(_) => l.Idle? || l.Finished?
       case Wake => l.Waiting? && l.event in w.shared.isSet
       case TimeOut => l.Waiting? && l.event !in w.shared.isSet
       case ReadAgain => l.Woken?
       case FetchOk(_) => l.Fetching?
       case FetchFail => l.Fetching?
       case StoreQuote => l.Storing?
       case PopEvent => l.Popping?
       case SetEvent => l.Setting?
  }

  function Move(w: World, step: Step, shared: Shared, local: Local, records: set<Record>): World {
    World(shared, w.locals[step.t := local], step.now, w.log + records)
  }

  function Next(w: World, step: Step, ttl: real): World
    requires Enabled(w, step)
  {
    var s, t, l := w.shared, step.t, At(w, step.t);
    match step.action
    case Enter(key) => Move(w, step, EnterShared(s, t, key, step.now), EnterLocal(s, t, key, step.now), {})
    case Wake => Move(w, step, s, Woken(l.key), {})
    case TimeOut => Move(w, step, s, Finished(l.key, WaitTimedOut), {})
    case ReadAgain => Move(w, step, s, Reread(s, l.key, step.now), {})
    case FetchOk(quote) => Move(w, step, s, Storing(l.key, l.event, quote), {Fetched(t, l.key, quote)})
    case FetchFail => Move(w, step, s, Popping(l.key, l.event, FetchFailed), {})
    case StoreQuote =>
      Move(w, step, StoreShared(s, l.key, l.quote, step.now, ttl), Popping(l.key, l.event, Own(l.quote)),
           {Stored(t, l.key, l.quote, step.now)})
    case PopEvent => Move(w, step, PopShared(s, l.key), Setting(l.key, PoppedEvent(s, l.key), l.outcome), {})
    case SetEvent => Move(w, step, SetShared(s, l.popped), Finished(l.key, l.outcome), {})
  }

  /** The world after some steps; None when one of them was not possible. */
  function RunFrom(w: World, steps: seq<Step>, ttl: real): Option<World> {
    if steps == [] then Some(w)
    else
      var n := |steps| - 1;
      var before := RunFrom(w, steps[..n], ttl);
      if before.Some? && Enabled(before.value, steps[n]) then Some(Next(before.value, steps[n], ttl)) else None
  }

  // --- what every run keeps

  /** Between becoming leader and removing the entry. */
  predicate Leads(l: Local) {
    l.Fetching? || l.Storing? || l.Popping?
  }

  /** The thread is still going to set this event. */
  predicate WillSet(l: Local, e: Event) {
    (Leads(l) && l.event == e) || (l.Setting? && l.popped == Some(e))
  }

  /** A leader owns the entry of its key, under an event it made. */
  ghost predicate LeaderOwnsEntry(w: World, t: Thread) {
    var l := At(w, t);
    Leads(l) ==> l.key in w.shared.inflight && w.shared.inflight[l.key] == l.event && l.event.creator == t
  }

  /** An entry belongs to a thread that leads. */
  ghost predicate EntryHasLeader(w: World, key: Key)
    requires key in w.shared.inflight
  {
    var e := w.shared.inflight[key];
    var l := At(w, e.creator);
    Leads(l) && l.key == key && l.event == e
  }

  /** What a thread waits for is set, or its maker will set it. */
  ghost predicate WaiterServed(w: World, t: Thread) {
    var l := At(w, t);
    l.Waiting? ==> l.event in w.shared.isSet || WillSet(At(w, l.event.creator), l.event)
  }

  /** A thread past the removal of its entry holds the event it made. */
  ghost predicate SetterHoldsOwn(w: World, t: Thread) {
    var l := At(w, t);
    l.Setting? ==> l.popped.Some? && l.popped.value.creator == t
  }

  /** An event is not set before the thread that holds it sets it. */
  ghost predicate HeldUnset(w: World, t: Thread) {
    var l := At(w, t);
    && (Leads(l) ==> l.event !in w.shared.isSet && l.event.serial < w.shared.serial)
    && (l.Setting? && l.popped.Some? ==> l.popped.value !in w.shared.isSet && l.popped.value.serial < w.shared.serial)
  }

  /** A quote was fetched by the thread for the key. */
  ghost predicate OwnQuote(w: World, t: Thread, key: Key, quote: Quote) {
    Fetched(t, key, quote) in w.log
  }

  /** A quote in the cache under this key at this time: stored for the key, and not yet expired. */
  ghost predicate Unexpired(w: World, key: Key, quote: Quote, at: real, ttl: real) {
    exists r :: r in w.log && r.Stored? && r.key == key && r.quote == quote && r.at <= at < r.at + ttl
  }

  ghost predicate OutcomeSound(w: World, t: Thread, key: Key, outcome: Outcome, ttl: real) {
    match outcome
    case Own(quote) => OwnQuote(w, t, key, quote)
    case FromCache(quote, at) => Unexpired(w, key, quote, at, ttl)
    case _ => true
  }

  ghost predicate LocalSound(w: World, t: Thread, ttl: real) {
    match At(w, t)
    case Storing(key, _, quote) => OwnQuote(w, t, key, quote)
    case Popping(key, _, outcome) => OutcomeSound(w, t, key, outcome, ttl)
    case Setting(key, _, outcome) => OutcomeSound(w, t, key, outcome, ttl)
    case Finished(key, outcome) => OutcomeSound(w, t, key, outcome, ttl)
    case _ => true
  }

  /** A cache entry records a store of that quote under that key. */
  ghost predicate EntryStored(w: World, key: Key, ttl: real)
    requires key in w.shared.cache
  {
    var entry := w.shared.cache[key];
    exists r :: r in w.log && r.Stored? && r.key == key && r.quote == entry.quote && entry.expires == r.at + ttl
  }

  /**
   What was stored had been fetched, for the same key by the same thread, and not in the future; the
   cache keeps it, or something newer, until it expires.
   */
  ghost predicate RecordSound(w: World, r: Record, ttl: real) {
    r.Stored? ==>
      && Fetched(r.thread, r.key, r.quote) in w.log && r.at <= w.clock
      && r.key in w.shared.cache && w.shared.cache[r.key].expires >= r.at + ttl
  }

  /** The protocol part of the invariant. */
  ghost predicate Protocol(w: World) {
    && (forall t :: LeaderOwnsEntry(w, t) && WaiterServed(w, t) && SetterHoldsOwn(w, t) && HeldUnset(w, t))
    && (forall e :: e in w.shared.isSet ==> e.serial < w.shared.serial)
    && (forall key :: key in w.shared.inflight ==> EntryHasLeader(w, key))
  }

  /** The data part of the invariant. */
  ghost predicate Data(w: World, ttl: real) {
    && (forall t :: LocalSound(w, t, ttl))
    && (forall key :: key in w.shared.cache ==> EntryStored(w, key, ttl))
    && (forall r :: r in w.log ==> RecordSound(w, r, ttl))
  }

  lemma {:induction false} OwnershipStep(w: World, step: Step, ttl: real, t: Thread)
    requires Protocol(w) && Enabled(w, step)
    ensures var w' := Next(w, step, ttl);
            LeaderOwnsEntry(w', t) && SetterHoldsOwn(w', t) && HeldUnset(w', t)
  {
    assert LeaderOwnsEntry(w, step.t) && SetterHoldsOwn(w, step.t) && HeldUnset(w, step.t);
    assert LeaderOwnsEntry(w, t) && SetterHoldsOwn(w, t) && HeldUnset(w, t);
  }

  lemma {:induction false} WaiterStep(w: World, step: Step, ttl: real, t: Thread)
    requires Protocol(w) && Enabled(w, step)
    ensures WaiterServed(Next(w, step, ttl), t)
  {
    assert WaiterServed(w, t) && LeaderOwnsEntry(w, step.t);
    if t == step.t && step.action.Enter? && step.action.key in w.shared.inflight {
      assert EntryHasLeader(w, step.action.key);
    }
  }

  lemma {:induction false} ProtocolStep(w: World, step: Step, ttl: real)
    requires Protocol(w) && Enabled(w, step)
    ensures Protocol(Next(w, step, ttl))
  {
    var w' := Next(w, step, ttl);
    forall t ensures LeaderOwnsEntry(w', t) && WaiterServed(w', t) && SetterHoldsOwn(w', t) && HeldUnset(w', t) {
      OwnershipStep(w, step, ttl, t);
      WaiterStep(w, step, ttl, t);
    }
    assert SetterHoldsOwn(w, step.t) && HeldUnset(w, step.t) && LeaderOwnsEntry(w, step.t);
    forall key | key in w'.shared.inflight ensures EntryHasLeader(w', key) {
      assert key in w.shared.inflight ==> EntryHasLeader(w, key);
    }
  }

  lemma {:induction false} DataStep(w: World, step: Step, ttl: real)
    requires Data(w, ttl) && Enabled(w, step)
    ensures Data(Next(w, step, ttl), ttl)
  {
    var w' := Next(w, step, ttl);
    assert forall t :: t != step.t ==> At(w', t) == At(w, t);
    forall r | r in w'.log ensures RecordSound(w', r, ttl) {
      assert r in w.log ==> RecordSound(w, r, ttl);
      assert LocalSound(w, step.t, ttl);
    }
    forall key | key in w'.shared.cache ensures EntryStored(w', key, ttl) {
      assert key in w.shared.cache ==> EntryStored(w, key, ttl);
      if step.action.StoreQuote? {
        var l := At(w, step.t);
        assert Stored(step.t, l.key, l.quote, step.now) in w'.log;
      }
    }
    forall t ensures LocalSound(w', t, ttl) {
      LocalKept(w, w', t, ttl);
      if t == step.t {
        OwnLocal(w, step, ttl);
      }
    }
  }

  /** What was true of a thread's data stays true while the log grows. */
  lemma {:induction false} LocalKept(w: World, w': World, t: Thread, ttl: real)
    requires LocalSound(w, t, ttl) && w.log <= w'.log
    ensures At(w', t) == At(w, t) ==> LocalSound(w', t, ttl)
    ensures At(w, t).Popping? || At(w, t).Setting? ==> OutcomeSound(w', t, At(w, t).key, At(w, t).outcome, ttl)
  {
  }

  /** The quote a thread reads from the cache was stored under its key and has not expired. */
  lemma {:induction false} ReadIsUnexpired(w: World, key: Key, now: real, ttl: real)
    requires Data(w, ttl) && Fresh(w.shared, key, now) && now >= w.clock
    ensures Unexpired(w, key, w.shared.cache[key].quote, now, ttl)
  {
    assert EntryStored(w, key, ttl);
    var r :| r in w.log && r.Stored? && r.key == key && r.quote == w.shared.cache[key].quote
             && w.shared.cache[key].expires == r.at + ttl;
    assert RecordSound(w, r, ttl);
  }

  lemma {:induction false} OwnLocal(w: World, step: Step, ttl: real)
    requires Data(w, ttl) && Enabled(w, step)
    ensures LocalSound(Next(w, step, ttl), step.t, ttl)
  {
    var w', l := Next(w, step, ttl), At(w, step.t);
    assert LocalSound(w, step.t, ttl);
    LocalKept(w, w', step.t, ttl);
    var key := if step.action.Enter? then step.action.key else l.key;
    if (step.action.Enter? || step.action.ReadAgain?) && Fresh(w.shared, key, step.now) {
      ReadIsUnexpired(w, key, step.now, ttl);
      assert w'.log == w.log;
    }
  }

  /** The invariant holds in every reachable world. */
  lemma {:induction false} AlwaysHolds(steps: seq<Step>, ttl: real)
    requires RunFrom(START, steps, ttl).Some?
    ensures Protocol(RunFrom(START, steps, ttl).value) && Data(RunFrom(START, steps, ttl).value, ttl)
  {
    if steps != [] {
      var n := |steps| - 1;
      AlwaysHolds(steps[..n], ttl);
      var w := RunFrom(START, steps[..n], ttl).value;
      ProtocolStep(w, steps[n], ttl);
      DataStep(w, steps[n], ttl);
    }
  }

  // --- main results, for every interleaving

  /** At most one thread per key leads, so at most one fetch per key is in flight. */
  lemma {:induction false} OneFetchPerKey(steps: seq<Step>, ttl: real, t: Thread, u: Thread)
    requires RunFrom(START, steps, ttl).Some?
    ensures var w := RunFrom(START, steps, ttl).value;
            Leads(At(w, t)) && Leads(At(w, u)) && At(w, t).key == At(w, u).key ==> t == u
  {
    AlwaysHolds(steps, ttl);
    var w := RunFrom(START, steps, ttl).value;
    assert LeaderOwnsEntry(w, t) && LeaderOwnsEntry(w, u);
  }

  /** A thread that removes an entry removes its own, and whoever waits on an unset event is going to be woken. */
  lemma {:induction false} EntriesAndWaiters(steps: seq<Step>, ttl: real, t: Thread)
    requires RunFrom(START, steps, ttl).Some?
    ensures var w := RunFrom(START, steps, ttl).value;
            var l := At(w, t);
            && (l.Popping? ==> PoppedEvent(w.shared, l.key) == Some(l.event))
            && (l.Setting? ==> l.popped.Some?)
            && (l.Waiting? && l.event !in w.shared.isSet ==> WillSet(At(w, l.event.creator), l.event))
            && (l.Waiting? && l.event in w.shared.isSet ==> !WillSet(At(w, l.event.creator), l.event))
  {
    AlwaysHolds(steps, ttl);
    var w := RunFrom(START, steps, ttl).value;
    assert LeaderOwnsEntry(w, t) && WaiterServed(w, t) && SetterHoldsOwn(w, t);
    if At(w, t).Waiting? {
      assert HeldUnset(w, At(w, t).event.creator);
    }
  }

  /**
   A quote a call returns was fetched for the key it asked for: by the call itself, or by a thread whose
   store of it was less than the time to live old when it was read.
   */
  lemma {:induction false} ReturnsAreSound(steps: seq<Step>, ttl: real, t: Thread)
    requires RunFrom(START, steps, ttl).Some?
    ensures var w := RunFrom(START, steps, ttl).value;
            var l := At(w, t);
            && (l.Finished? && l.outcome.Own? ==> Fetched(t, l.key, l.outcome.quote) in w.log)
            && (l.Finished? && l.outcome.FromCache? ==>
                  exists u, at :: Stored(u, l.key, l.outcome.quote, at) in w.log && Fetched(u, l.key, l.outcome.quote) in w.log
                                  && at <= l.outcome.at < at + ttl)
  {
    AlwaysHolds(steps, ttl);
    var w := RunFrom(START, steps, ttl).value;
    assert LocalSound(w, t, ttl);
    var l := At(w, t);
    if l.Finished? && l.outcome.FromCache? {
      var r :| r in w.log && r.Stored? && r.key == l.key && r.quote == l.outcome.quote
               && r.at <= l.outcome.at < r.at + ttl;
      assert RecordSound(w, r, ttl);
      assert Stored(r.thread, l.key, l.outcome.quote, r.at) in w.log;
    }
  }

  /**
   A stored fetch serves everyone until it expires: no later call for its key, and no waiter's second
   look, fetches again or fails.
   */
  lemma {:induction false} StoredFetchIsShared(steps: seq<Step>, ttl: real, r: Record, step: Step)
    requires RunFrom(START, steps, ttl).Some? && r in RunFrom(START, steps, ttl).value.log && r.Stored?
    requires Enabled(RunFrom(START, steps, ttl).value, step) && step.now < r.at + ttl
    requires step.action == Enter(r.key) || (step.action == ReadAgain && At(RunFrom(START, steps, ttl).value, step.t).key == r.key)
    ensures var l := At(Next(RunFrom(START, steps, ttl).value, step, ttl), step.t);
            l.Finished? && l.key == r.key && l.outcome.FromCache?
  {
    AlwaysHolds(steps, ttl);
    assert RecordSound(RunFrom(START, steps, ttl).value, r, ttl);
  }

  /** With no time to live nothing is ever read from the cache: every follower of every leader fails. */
  lemma {:induction false} NoTtlNoSharing(steps: seq<Step>, ttl: real, t: Thread)
    requires RunFrom(START, steps, ttl).Some? && ttl <= 0.0
    ensures var l := At(RunFrom(START, steps, ttl).value, t);
            l.Finished? ==> !l.outcome.FromCache?
  {
    ReturnsAreSound(steps, ttl, t);
  }

  // --- leaders get there

  /** How many more steps a thread takes until it has set its event. */
  function Distance(l: Local): nat {
    match l
    case Fetching(_, _) => 4
    case Storing(_, _, _) => 3
    case Popping(_, _, _) => 2
    case Setting(_, _, _) => 1
    case _ => 0
  }

  /** A thread that is going to set an event can always take a step, whatever the others did. */
  lemma {:induction false} NeverBlocked(w: World, t: Thread, e: Event, now: real) returns (step: Step)
    requires WillSet(At(w, t), e) && now >= w.clock
    ensures step.t == t && Enabled(w, step)
  {
    var l := At(w, t);
    step := Step(t, now, match l
                         case Fetching(_, _) => FetchFail
                         case Storing(_, _, _) => StoreQuote
                         case Popping(_, _, _) => PopEvent
                         case _ => SetEvent);
  }

  function StepsBy(t: Thread, steps: seq<Step>): nat {
    if steps == [] then 0
    else
      var n := |steps| - 1;
      StepsBy(t, steps[..n]) + if steps[n].t == t then 1 else 0
  }

  // --- how a call ends

  /** What a thread itself did. */
  function OwnActions(t: Thread, steps: seq<Step>): seq<Action> {
    if steps == [] then []
    else
      var n := |steps| - 1;
      OwnActions(t, steps[..n]) + if steps[n].t == t then [steps[n].action] else []
  }

  ghost predicate EndsWith(actions: seq<Action>, last: seq<Action>) {
    |last| <= |actions| && actions[|actions| - |last|..] == last
  }

  /** What a thread does from entering to the end of its fetch or its wait, by what comes of it. */
  function CallActions(key: Key, outcome: Outcome, waited: bool): seq<Action> {
    match outcome
    case Own(quote) => [Enter(key), FetchOk(quote), StoreQuote]
    case FetchFailed => [Enter(key), FetchFail]
    case FromCache(_, _) => if waited then [Enter(key), Wake, ReadAgain] else [Enter(key)]
    case WaitTimedOut => [Enter(key), TimeOut]
    case LeaderFailed => [Enter(key), Wake, ReadAgain]
  }

  /** A leader goes on to remove its entry and set its event. */
  predicate EndsFetch(outcome: Outcome) {
    outcome.Own? || outcome.FetchFailed?
  }

  /** What a thread did since it entered, by its place in the code; it may have waited for a cached quote. */
  function Course(l: Local, waited: bool): seq<Action> {
    match l
    case Idle => []
    case Waiting(key, _) => [Enter(key)]
    case Woken(key) => [Enter(key), Wake]
    case Fetching(key, _) => [Enter(key)]
    case Storing(key, _, quote) => [Enter(key), FetchOk(quote)]
    case Popping(key, _, outcome) => CallActions(key, outcome, waited)
    case Setting(key, _, outcome) => CallActions(key, outcome, waited) + [PopEvent]
    case Finished(key, outcome) =>
      CallActions(key, outcome, waited) + if EndsFetch(outcome) then [PopEvent] + [SetEvent] else []
  }

  /** Only a leader removes an entry. */
  predicate LeadersOnly(l: Local) {
    (l.Popping? ==> EndsFetch(l.outcome)) && (l.Setting? ==> EndsFetch(l.outcome))
  }

  ghost predicate WentAs(l: Local, actions: seq<Action>) {
    && LeadersOnly(l)
    && (EndsWith(actions, Course(l, false)) || EndsWith(actions, Course(l, true)))
  }

  lemma {:induction false} EndsWithMore(actions: seq<Action>, last: seq<Action>, a: Action)
    requires EndsWith(actions, last)
    ensures EndsWith(actions + [a], last + [a])
  {
    var n := |actions| - |last|;
    assert (actions + [a])[n..] == actions[n..] + [a];
  }

  /** Every step is the next one of some course, or starts a new one. */
  lemma {:induction false} CourseStep(w: World, step: Step, ttl: real, waited: bool) returns (waited': bool)
    requires Enabled(w, step) && LeadersOnly(At(w, step.t))
    ensures var l, l' := At(w, step.t), At(Next(w, step, ttl), step.t);
            && LeadersOnly(l')
            && Course(l', waited') == if step.action.Enter? then [step.action] else Course(l, waited) + [step.action]
  {
    var l := At(w, step.t);
    waited' := if step.action.Enter? then false else if step.action.ReadAgain? then true else waited;
    if l.Setting? {
      assert CallActions(l.key, l.outcome, waited) + [PopEvent] + [SetEvent] == CallActions(l.key, l.outcome, waited) + ([PopEvent] + [SetEvent]);
    }
  }

  lemma {:induction false} StepWent(w: World, step: Step, ttl: real, actions: seq<Action>)
    requires Enabled(w, step) && WentAs(At(w, step.t), actions)
    ensures WentAs(At(Next(w, step, ttl), step.t), actions + [step.action])
  {
    var waited := EndsWith(actions, Course(At(w, step.t), true));
    var course, a := Course(At(w, step.t), waited), step.action;
    var waited' := CourseStep(w, step, ttl, waited);
    EndsWithMore(actions, course, a);
    assert EndsWith(actions + [a], [a]);
    assert EndsWith(actions + [a], Course(At(Next(w, step, ttl), step.t), waited'));
  }

  /**
   How a call ended tells what its thread did since it entered. A call returns its own fetch only after
   fetching that quote and storing it, and raises the failure of a fetch only after its own fetch failed;
   it times out only after waiting, and fails for its leader only after it was woken and looked again.
   */
  lemma {:induction false} CallsEndAsTheyWent(steps: seq<Step>, ttl: real, t: Thread)
    requires RunFrom(START, steps, ttl).Some?
    ensures WentAs(At(RunFrom(START, steps, ttl).value, t), OwnActions(t, steps))
  {
    if steps != [] {
      var n := |steps| - 1;
      CallsEndAsTheyWent(steps[..n], ttl, t);
      var before := RunFrom(START, steps[..n], ttl).value;
      if steps[n].t == t {
        StepWent(before, steps[n], ttl, OwnActions(t, steps[..n]));
      } else {
        assert OwnActions(t, steps) == OwnActions(t, steps[..n]);
      }
    }
  }

  /** Where a leader is, so many of its own steps after its fetch ended. */
  ghost predicate AfterFetch(l: Local, key: Key, event: Event, outcome: Outcome, taken: nat) {
    match taken
    case 0 => l == if outcome.Own? then Storing(key, event, outcome.quote) else Popping(key, event, outcome)
    case 1 => if outcome.Own? then l == Popping(key, event, outcome) else l.Setting? && l.key == key && l.outcome == outcome
    case 2 => if outcome.Own? then l.Setting? && l.key == key && l.outcome == outcome else l == Finished(key, outcome)
    case 3 => outcome.Own? && l == Finished(key, outcome)
    case _ => false
  }

  lemma {:induction false} LeaderGoesOn(w: World, more: seq<Step>, ttl: real, t: Thread, key: Key, event: Event, outcome: Outcome)
    requires (outcome.Own? || outcome.FetchFailed?) && AfterFetch(At(w, t), key, event, outcome, 0)
    requires RunFrom(w, more, ttl).Some? && StepsBy(t, more) <= if outcome.Own? then 3 else 2
    ensures AfterFetch(At(RunFrom(w, more, ttl).value, t), key, event, outcome, StepsBy(t, more))
  {
    if more != [] {
      LeaderGoesOn(w, more[..|more| - 1], ttl, t, key, event, outcome);
    }
  }

  /**
   A leader whose fetch succeeded returns what it fetched, and one whose fetch failed raises: whatever
   the others do, three of its own steps later, or two, its call has ended that way.
   */
  lemma {:induction false} LeaderReturnsItsFetch(w: World, fetch: Step, more: seq<Step>, ttl: real)
    requires At(w, fetch.t).Fetching? && Enabled(w, fetch) && RunFrom(Next(w, fetch, ttl), more, ttl).Some?
    ensures var l, key := At(RunFrom(Next(w, fetch, ttl), more, ttl).value, fetch.t), At(w, fetch.t).key;
            match fetch.action
            case FetchOk(quote) => StepsBy(fetch.t, more) == 3 ==> l == Finished(key, Own(quote))
            case _ => StepsBy(fetch.t, more) == 2 ==> l == Finished(key, FetchFailed)
  {
    var l := At(w, fetch.t);
    var outcome := if fetch.action.FetchOk? then Own(fetch.action.quote) else FetchFailed;
    if StepsBy(fetch.t, more) <= if outcome.Own? then 3 else 2 {
      LeaderGoesOn(Next(w, fetch, ttl), more, ttl, fetch.t, l.key, l.event, outcome);
    }
  }

  /** From the moment it has the quote: three more of its own steps, and it has returned it. */
  lemma {:induction false} StoredIsReturned(w: World, more: seq<Step>, ttl: real, t: Thread)
    requires At(w, t).Storing? && RunFrom(w, more, ttl).Some? && StepsBy(t, more) == 3
    ensures At(RunFrom(w, more, ttl).value, t) == Finished(At(w, t).key, Own(At(w, t).quote))
  {
    LeaderGoesOn(w, more, ttl, t, At(w, t).key, At(w, t).event, Own(At(w, t).quote));
  }

  /** What a leader stores, everyone can read from then until the time to live is over. */
  lemma {:induction false} StoredNow(steps: seq<Step>, ttl: real, store: Step, step: Step)
    requires RunFrom(START, steps, ttl).Some? && At(RunFrom(START, steps, ttl).value, store.t).Storing?
    requires store.action.StoreQuote? && Enabled(RunFrom(START, steps, ttl).value, store)
    requires var w := RunFrom(START, steps, ttl).value;
             step.action == Enter(At(w, store.t).key) && Enabled(Next(w, store, ttl), step)
    ensures var w := RunFrom(START, steps, ttl).value;
            var l, leader := At(Next(Next(w, store, ttl), step, ttl), step.t), At(w, store.t);
            if step.now < store.now + ttl then l == Finished(leader.key, FromCache(leader.quote, step.now)) else l.Waiting?
  {
    AlwaysHolds(steps, ttl);
    var w := RunFrom(START, steps, ttl).value;
    assert LeaderOwnsEntry(w, store.t);
  }

  /** Some way to go at first, so many steps later: the event is set, or the way has shortened by as many. */
  ghost predicate OnItsWay(w: World, t: Thread, e: Event, distance: nat, taken: nat) {
    e in w.shared.isSet || (WillSet(At(w, t), e) && Distance(At(w, t)) + taken <= distance)
  }

  lemma {:induction false} StepOnItsWay(w: World, step: Step, ttl: real, t: Thread, e: Event, distance: nat, taken: nat)
    requires Protocol(w) && Enabled(w, step) && OnItsWay(w, t, e, distance, taken)
    ensures OnItsWay(Next(w, step, ttl), t, e, distance, taken + if step.t == t then 1 else 0)
  {
    assert LeaderOwnsEntry(w, t);
  }

  lemma {:induction false} StaysOnItsWay(w: World, steps: seq<Step>, ttl: real, t: Thread, e: Event)
    requires Protocol(w) && WillSet(At(w, t), e) && RunFrom(w, steps, ttl).Some?
    ensures Protocol(RunFrom(w, steps, ttl).value)
    ensures OnItsWay(RunFrom(w, steps, ttl).value, t, e, Distance(At(w, t)), StepsBy(t, steps))
  {
    if steps != [] {
      var n := |steps| - 1;
      StaysOnItsWay(w, steps[..n], ttl, t, e);
      var before := RunFrom(w, steps[..n], ttl).value;
      ProtocolStep(before, steps[n], ttl);
      StepOnItsWay(before, steps[n], ttl, t, e, Distance(At(w, t)), StepsBy(t, steps[..n]));
    }
  }

  /**
   No waiter is forgotten: in every run, however it goes on, four more steps of the thread that made
   the event a waiter waits on set that event. That thread is never blocked.
   */
  lemma {:induction false} WaitersAreWoken(steps: seq<Step>, more: seq<Step>, ttl: real, t: Thread)
    requires RunFrom(START, steps, ttl).Some? && At(RunFrom(START, steps, ttl).value, t).Waiting?
    requires RunFrom(RunFrom(START, steps, ttl).value, more, ttl).Some?
    ensures var e := At(RunFrom(START, steps, ttl).value, t).event;
            var w := RunFrom(RunFrom(START, steps, ttl).value, more, ttl).value;
            StepsBy(e.creator, more) >= 4 ==> e in w.shared.isSet
  {
    AlwaysHolds(steps, ttl);
    var w := RunFrom(START, steps, ttl).value;
    var e := At(w, t).event;
    assert WaiterServed(w, t);
    if e in w.shared.isSet {
      StaysSet(w, more, ttl, e);
    } else {
      StaysOnItsWay(w, more, ttl, e.creator, e);
    }
  }

  lemma {:induction false} StaysSet(w: World, steps: seq<Step>, ttl: real, e: Event)
    requires e in w.shared.isSet && RunFrom(w, steps, ttl).Some?
    ensures e in RunFrom(w, steps, ttl).value.shared.isSet
  {
    if steps != [] {
      StaysSet(w, steps[..|steps| - 1], ttl, e);
    }
  }
}
