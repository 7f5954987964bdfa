/**
 Unknown orders, stage 3: an order whose outcome is unknown freezes submits until a reconcile pass
 that did not fail finds none left. The exchange answers as it likes.
 */
module UnknownFreeze {
  import opened Results

  datatype Status = New | Open | Partial | Filled | Canceled | Rejected | Unknown

  datatype Row = Row(status: Status, client: Option<string>)

  type Store = map<string, Row>

  /** An order as the exchange reports it, its status already mapped. */
  datatype Snapshot = Snapshot(orderId: string, client: Option<string>, status: Status, hasSide: bool)

  /** A row as it was read at the start of a pass. */
  datatype Local = Local(id: string, client: Option<string>, status: Status)

  datatype SubmitOutcome = Confirmed | Failed | Unconfirmed

  datatype Event =
    | SubmitEvent(client: string, registry: set<string>, outcome: SubmitOutcome)
    | CleanRefresh

  datatype State = State(registry: set<string>, store: Store, trace: seq<Event>)

  const START := State({}, map[], [])

  /** `list_unknown_orders`. */
  function UnknownIds(store: Store): set<string> {
    set id | id in store && store[id].status.Unknown?
  }

  /** `_sync_unknown_registry_from_store`. */
  function Sync(s: State, allowClear: bool): State {
    s.(registry := if allowClear then UnknownIds(s.store) else s.registry + UnknownIds(s.store))
  }

  /** `update_order_status`: rows that are not there stay away. */
  function SetStatus(store: Store, id: string, status: Status): Store {
    if id in store then store[id := store[id].(status := status)] else store
  }

  /** A snapshot is saved unless neither it nor a stored row knows the side. */
  function SaveSnapshot(store: Store, snap: Snapshot): Store {
    if snap.hasSide || snap.orderId in store then store[snap.orderId := Row(snap.status, snap.client)] else store
  }

  function SaveAll(store: Store, snaps: seq<Snapshot>): Store {
    if snaps == [] then store
    else
      var n := |snaps| - 1;
      SaveSnapshot(SaveAll(store, snaps[..n]), snaps[n])
  }

  function UnknownPrefix(): string {
    "unknown:"
  }

  predicate IsPlaceholder(id: string) {
    |UnknownPrefix()| <= |id| && id[..|UnknownPrefix()|] == UnknownPrefix()
  }

  function FindById(snaps: seq<Snapshot>, id: string): Option<Snapshot> {
    if snaps == [] then None else if snaps[0].orderId == id then Some(snaps[0]) else FindById(snaps[1..], id)
  }

  function FindByClient(snaps: seq<Snapshot>, client: Option<string>): Option<Snapshot> {
    if client.None? || snaps == [] then None
    else if snaps[0].client == client then Some(snaps[0])
    else FindByClient(snaps[1..], client)
  }

  // --- reconcile

  /** What a pass over one symbol meets. `all` answers each attempt to load recent orders; None is an exception. */
  datatype Pass =
    | Throttled
    | OpenFailed
    | Listed(open: seq<Snapshot>, locals: seq<Local>, all: nat -> Option<seq<Snapshot>>, due: string -> bool, aged: string -> bool)

  datatype Progress = Progress(store: Store, recent: Option<seq<Snapshot>>, failed: bool)

  /** A local order found among the recent ones. */
  function TakeMatch(store: Store, local: Local, snap: Snapshot): Store {
    var saved := SetStatus(SaveSnapshot(store, snap), snap.orderId, snap.status);
    if IsPlaceholder(local.id) && local.client.Some? && local.client.value != "" && local.id != snap.orderId
    then SetStatus(saved, local.id, snap.status) else saved
  }

  /** A local order the exchange does not know: an unknown one stays unknown. */
  function TakeMissing(store: Store, local: Local, aged: bool): Store {
    if local.status.New? && aged then SetStatus(store, local.id, Rejected)
    else if local.status.Open? || local.status.Partial? then SetStatus(store, local.id, Rejected)
    else store
  }

  function Matched(local: Local, recent: seq<Snapshot>): Option<Snapshot> {
    if FindById(recent, local.id).Some? then FindById(recent, local.id) else FindByClient(recent, local.client)
  }

  function TakeRecent(p: Progress, local: Local, recent: seq<Snapshot>, aged: bool): Progress {
    var m := Matched(local, recent);
    Progress(if m.Some? then TakeMatch(p.store, local, m.value) else TakeMissing(p.store, local, aged), Some(recent), p.failed)
  }

  /** A local order that the open listing shows under its client id. */
  function TakeOpen(store: Store, local: Local, snap: Snapshot): Store {
    if IsPlaceholder(local.id) && local.id != snap.orderId then SetStatus(store, local.id, snap.status) else store
  }

  /** The body of the loop over one symbol's local orders. */
  function ReconcileOne(p: Progress, pass: Pass, i: nat, skipNonEssential: bool): Progress
    requires pass.Listed? && i < |pass.locals|
  {
    var local := pass.locals[i];
    if FindById(pass.open, local.id).Some? then p
    else if FindByClient(pass.open, local.client).Some? then
      p.(store := TakeOpen(p.store, local, FindByClient(pass.open, local.client).value))
    else if local.status.Unknown? && !pass.due(local.id) then p
    else if p.recent.Some? then TakeRecent(p, local, p.recent.value, pass.aged(local.id))
    else if skipNonEssential then p
    else if pass.all(i).None? then p.(failed := true)
    else TakeRecent(p, local, pass.all(i).value, pass.aged(local.id))
  }

  function ReconcileFirst(p: Progress, pass: Pass, n: nat, skipNonEssential: bool): Progress
    requires pass.Listed? && n <= |pass.locals|
  {
    if n == 0 then p else ReconcileOne(ReconcileFirst(p, pass, n - 1, skipNonEssential), pass, n - 1, skipNonEssential)
  }

  /** One symbol of a refresh. */
  function ReconcileSymbol(store: Store, failed: bool, pass: Pass, skipNonEssential: bool): Progress {
    match pass
    case Throttled => Progress(store, None, failed)
    case OpenFailed => Progress(store, None, true)
    case Listed(open, locals, _, _, _) =>
      ReconcileFirst(Progress(SaveAll(store, open), None, failed), pass, |locals|, skipNonEssential)
  }

  function ReconcileSymbols(store: Store, passes: seq<Pass>, skipNonEssential: bool): Progress {
    if passes == [] then Progress(store, None, false)
    else
      var n := |passes| - 1;
      var before := ReconcileSymbols(store, passes[..n], skipNonEssential);
      ReconcileSymbol(before.store, before.failed, passes[n], skipNonEssential)
  }

  /** A refresh: no symbols, or still backing off, and it does nothing. */
  datatype Refresh = Refresh(passes: seq<Pass>, backingOff: bool, skipNonEssential: bool)

  function RefreshLifecycle(s: State, r: Refresh): State {
    if r.passes == [] || r.backingOff then s
    else
      var p := ReconcileSymbols(s.store, r.passes, r.skipNonEssential);
      var synced := Sync(s.(store := p.store), !p.failed);
      if p.failed then synced else synced.(trace := synced.trace + [CleanRefresh])
  }

  // --- submit

  /**
   How the exchange answers a submit. An uncertain answer is looked up at once, perhaps in vain. An
   acknowledgement that lacks an order id raises like a refusal, and is recorded as one.
   */
  datatype SubmitReply =
    | Acknowledged(orderId: string)
    | AcknowledgedWithoutId(recordId: string)
    | Refused(recordId: string)
    | Uncertain(found: Option<string>)

  function OutcomeOf(reply: SubmitReply): SubmitOutcome {
    match reply
    case Acknowledged(_) => Confirmed
    case AcknowledgedWithoutId(_) => Failed
    case Refused(_) => Failed
    case Uncertain(found) => if found.Some? then Confirmed else Unconfirmed
  }

  function RecordReply(s: State, client: string, reply: SubmitReply): State {
    match reply
    case Acknowledged(orderId) => s.(store := s.store[orderId := Row(Open, Some(client))])
    case AcknowledgedWithoutId(recordId) => s.(store := s.store[recordId := Row(Rejected, None)])
    case Refused(recordId) => s.(store := s.store[recordId := Row(Rejected, None)])
    case Uncertain(found) =>
      if found.Some? then s.(store := s.store[found.value := Row(Open, Some(client))])
      else
        var id := UnknownPrefix() + client;
        s.(store := s.store[id := Row(Unknown, Some(client))], registry := s.registry + {id})
  }

  /** An intent of `execute_intents`: rejected, skipped or simulated; stopped by a policy error; or sent. */
  datatype Intent = Skipped | Aborted | Send(client: string, reply: SubmitReply)

  datatype Execution = Execution(state: State, placed: nat, raised: bool)

  /** `_submit_limit_order` and what follows it. */
  function SubmitIntent(s: State, client: string, reply: SubmitReply): Execution {
    var synced := Sync(s, false);
    if synced.registry != {} then Execution(synced, 0, true)
    else
      var sent := synced.(trace := synced.trace + [SubmitEvent(client, synced.registry, OutcomeOf(reply))]);
      Execution(RecordReply(sent, client, reply), if OutcomeOf(reply).Confirmed? then 1 else 0, false)
  }

  function ExecuteOne(e: Execution, intent: Intent): Execution {
    if e.raised then e
    else
      match intent
      case Skipped => e
      case Aborted => e.(raised := true)
      case Send(client, reply) =>
        var r := SubmitIntent(e.state, client, reply);
        Execution(r.state, e.placed + r.placed, r.raised)
  }

  function ExecuteAll(e: Execution, intents: seq<Intent>): Execution {
    if intents == [] then e
    else
      var n := |intents| - 1;
      ExecuteOne(ExecuteAll(e, intents[..n]), intents[n])
  }

  /** `execute_intents`: an optional refresh, a sync that never clears, the guards, the gate, the intents. */
  function ExecuteIntents(s: State, refresh: Option<Refresh>, guarded: bool, intents: seq<Intent>): Execution {
    var refreshed := if refresh.Some? then RefreshLifecycle(s, refresh.value) else s;
    var synced := Sync(refreshed, false);
    if guarded then Execution(synced, 0, false)
    else if synced.registry != {} then Execution(synced, 0, true)
    else ExecuteAll(Execution(synced, 0, false), intents)
  }

  // --- cancel

  /** What a stale-order cancel leaves behind. */
  datatype CancelEffect = Unchanged | Closed(status: Status) | BecameUnknown

  datatype Cancel = Cancel(orderId: string, effect: CancelEffect)

  function CancelOne(s: State, c: Cancel): State {
    match c.effect
    case Unchanged => s
    case Closed(status) => s.(store := SetStatus(s.store, c.orderId, status))
    case BecameUnknown =>
      s.(store := SetStatus(s.store, c.orderId, Unknown), registry := s.registry + {c.orderId})
  }

  function CancelAll(s: State, cancels: seq<Cancel>): State {
    Fold(s, cancels, CancelOne)
  }

  // --- runs

  datatype Op =
    | RefreshOp(refresh: Refresh)
    | ExecuteOp(before: Option<Refresh>, guarded: bool, intents: seq<Intent>)
    | CancelOp(cancels: seq<Cancel>)
    | OthersOp(store: Store)

  function Next(s: State, op: Op): State {
    match op
    case RefreshOp(r) => RefreshLifecycle(s, r)
    case ExecuteOp(before, guarded, intents) => ExecuteIntents(s, before, guarded, intents).state
    case CancelOp(cancels) => CancelAll(s, cancels)
    case OthersOp(store) => s.(store := store)
  }

  function Run(ops: seq<Op>): State {
    Fold(START, ops, Next)
  }

  ghost predicate CleanBetween(trace: seq<Event>, i: int, j: int) {
    exists k :: i < k < j && 0 <= k < |trace| && trace[k].CleanRefresh?
  }

  predicate IsUnconfirmed(e: Event) {
    e.SubmitEvent? && e.outcome.Unconfirmed?
  }

  /** Nothing was submitted while the registry held an unknown order. */
  ghost predicate GateKept(s: State) {
    forall i :: 0 <= i < |s.trace| && s.trace[i].SubmitEvent? ==> s.trace[i].registry == {}
  }

  /** After an unconfirmed submit nothing was submitted until a clean refresh. */
  ghost predicate FreezeKept(s: State) {
    forall i, j :: 0 <= i < j < |s.trace| && IsUnconfirmed(s.trace[i]) && s.trace[j].SubmitEvent? ==> CleanBetween(s.trace, i, j)
  }

  /** The freeze an unconfirmed submit set is still on, unless a clean refresh came later. */
  ghost predicate FreezeOn(s: State) {
    forall i :: 0 <= i < |s.trace| && IsUnconfirmed(s.trace[i]) ==> CleanBetween(s.trace, i, |s.trace|) || s.registry != {}
  }

  ghost predicate Inv(s: State) {
    GateKept(s) && FreezeKept(s) && FreezeOn(s)
  }

  lemma {:induction false} CleanKept(trace: seq<Event>, e: Event, i: int, j: int)
    requires CleanBetween(trace, i, j)
    ensures CleanBetween(trace + [e], i, j)
  {
    var k :| i < k < j && 0 <= k < |trace| && trace[k].CleanRefresh?;
    assert (trace + [e])[k].CleanRefresh?;
  }

  /** More unknown orders in the registry, and nothing sent. */
  lemma {:induction false} QuietStep(s: State, s': State)
    requires Inv(s) && s'.trace == s.trace && s.registry <= s'.registry
    ensures Inv(s')
  {
  }

  lemma {:induction false} AppendKept(s: State, trace': seq<Event>, e: Event)
    requires FreezeKept(s) && trace' == s.trace + [e]
    requires e.SubmitEvent? ==> forall i :: 0 <= i < |s.trace| && IsUnconfirmed(s.trace[i]) ==> CleanBetween(s.trace, i, |s.trace|)
    ensures forall i, j :: 0 <= i < j < |trace'| && IsUnconfirmed(trace'[i]) && trace'[j].SubmitEvent? ==> CleanBetween(trace', i, j)
  {
    forall i, j | 0 <= i < j < |trace'| && IsUnconfirmed(trace'[i]) && trace'[j].SubmitEvent?
      ensures CleanBetween(trace', i, j)
    {
      assert trace'[i] == s.trace[i];
      assert j < |s.trace| ==> trace'[j] == s.trace[j];
      CleanKept(s.trace, e, i, j);
    }
  }

  lemma {:induction false} CleanStep(s: State, s': State)
    requires Inv(s) && s'.trace == s.trace + [CleanRefresh]
    ensures Inv(s')
  {
    AppendKept(s, s'.trace, CleanRefresh);
    assert s'.trace[|s.trace|].CleanRefresh?;
  }

  lemma {:induction false} SubmitStep(s: State, s': State, client: string, outcome: SubmitOutcome)
    requires Inv(s) && s.registry == {} && s'.trace == s.trace + [SubmitEvent(client, s.registry, outcome)]
    requires outcome.Unconfirmed? ==> s'.registry != {}
    ensures Inv(s')
  {
    var e := SubmitEvent(client, s.registry, outcome);
    AppendKept(s, s'.trace, e);
    forall i | 0 <= i < |s'.trace| && IsUnconfirmed(s'.trace[i])
      ensures CleanBetween(s'.trace, i, |s'.trace|) || s'.registry != {}
    {
      if i < |s.trace| {
        assert IsUnconfirmed(s.trace[i]);
        CleanKept(s.trace, e, i, |s.trace|);
      }
    }
  }

  lemma {:induction false} RefreshKeeps(s: State, r: Refresh)
    requires Inv(s)
    ensures Inv(RefreshLifecycle(s, r))
  {
    if r.passes != [] && !r.backingOff {
      if ReconcileSymbols(s.store, r.passes, r.skipNonEssential).failed {
        QuietStep(s, RefreshLifecycle(s, r));
      } else {
        CleanStep(s, RefreshLifecycle(s, r));
      }
    }
  }

  lemma {:induction false} SubmitKeeps(s: State, client: string, reply: SubmitReply)
    requires Inv(s)
    ensures Inv(SubmitIntent(s, client, reply).state)
  {
    var synced := Sync(s, false);
    QuietStep(s, synced);
    if synced.registry == {} {
      SubmitStep(synced, SubmitIntent(s, client, reply).state, client, OutcomeOf(reply));
    }
  }

  lemma {:induction false} ExecuteKeeps(e: Execution, intents: seq<Intent>)
    requires Inv(e.state)
    ensures Inv(ExecuteAll(e, intents).state)
  {
    if intents != [] {
      var n := |intents| - 1;
      ExecuteKeeps(e, intents[..n]);
      var before := ExecuteAll(e, intents[..n]);
      if !before.raised && intents[n].Send? {
        SubmitKeeps(before.state, intents[n].client, intents[n].reply);
      }
    }
  }

  lemma {:induction false} CancelKeeps(s: State, cancels: seq<Cancel>)
    requires Inv(s)
    ensures Inv(CancelAll(s, cancels))
  {
    if cancels != [] {
      var n := |cancels| - 1;
      CancelKeeps(s, cancels[..n]);
      QuietStep(CancelAll(s, cancels[..n]), CancelAll(s, cancels));
    }
  }

  lemma {:induction false} NextKeeps(s: State, op: Op)
    requires Inv(s)
    ensures Inv(Next(s, op))
  {
    match op
    case RefreshOp(r) => RefreshKeeps(s, r);
    case ExecuteOp(before, guarded, intents) =>
      var refreshed := if before.Some? then RefreshLifecycle(s, before.value) else s;
      if before.Some? { RefreshKeeps(s, before.value); }
      QuietStep(refreshed, Sync(refreshed, false));
      ExecuteKeeps(Execution(Sync(refreshed, false), 0, false), intents);
    case CancelOp(cancels) => CancelKeeps(s, cancels);
    case OthersOp(store) => QuietStep(s, Next(s, op));
  }

  /**
   The freeze, over every run of refreshes, executions and cancels: nothing is submitted while the
   registry holds an unknown order, and after a submit ends unconfirmed nothing at all is submitted
   until a refresh that did not fail. So at most one submit ends unconfirmed between two such refreshes.
   */
  lemma {:induction false} EveryRunKeepsTheFreeze(ops: seq<Op>)
    ensures GateKept(Run(ops)) && FreezeKept(Run(ops)) && FreezeOn(Run(ops))
  {
    if ops != [] {
      EveryRunKeepsTheFreeze(ops[..|ops| - 1]);
      NextKeeps(Run(ops[..|ops| - 1]), ops[|ops| - 1]);
    }
  }

  /**
   A submit that goes out freezes the next one exactly when its outcome is uncertain and not found. An
   order the exchange acknowledged without an id is not among them, although it may be live.
   */
  lemma {:induction false} FreezesExactly(s: State, client: string, reply: SubmitReply, next: string, reply': SubmitReply)
    requires Sync(s, false).registry == {}
    ensures SubmitIntent(SubmitIntent(s, client, reply).state, next, reply').raised <==> reply == Uncertain(None)
  {
    var after := SubmitIntent(s, client, reply).state;
    if reply == Uncertain(None) {
      assert UnknownPrefix() + client in after.registry;
    } else {
      assert UnknownIds(after.store) == {};
    }
  }

  // --- what it takes to thaw

  predicate IsUnknown(store: Store, id: string) {
    id in store && store[id].status.Unknown?
  }

  /** The exchange reported this order during the pass. */
  ghost predicate Reported(pass: Pass, snap: Snapshot)
    requires pass.Listed?
  {
    snap in pass.open || exists k :: pass.all(k).Some? && snap in pass.all(k).value
  }

  /** The report is about this order: it has its id, or the client id of a local order with that id. */
  ghost predicate About(pass: Pass, snap: Snapshot, id: string)
    requires pass.Listed?
  {
    || snap.orderId == id
    || exists i :: 0 <= i < |pass.locals| && pass.locals[i].id == id && pass.locals[i].client.Some? && pass.locals[i].client == snap.client
  }

  ghost predicate Evidence(pass: Pass, id: string) {
    pass.Listed? && exists snap :: Reported(pass, snap) && About(pass, snap, id)
  }

  /** Local orders were read from the store the refresh started with. */
  ghost predicate Faithful(pass: Pass, store: Store) {
    pass.Listed? ==> forall i :: 0 <= i < |pass.locals| ==>
      pass.locals[i].id in store && store[pass.locals[i].id].status == pass.locals[i].status
  }

  lemma {:induction false} FoundById(snaps: seq<Snapshot>, id: string)
    ensures FindById(snaps, id).Some? ==> FindById(snaps, id).value in snaps && FindById(snaps, id).value.orderId == id
  {
    if snaps != [] { FoundById(snaps[1..], id); }
  }

  lemma {:induction false} FoundByClient(snaps: seq<Snapshot>, client: Option<string>)
    ensures FindByClient(snaps, client).Some? ==>
              client.Some? && FindByClient(snaps, client).value in snaps && FindByClient(snaps, client).value.client == client
  {
    if snaps != [] { FoundByClient(snaps[1..], client); }
  }

  lemma {:induction false} SaveAllKeeps(store: Store, snaps: seq<Snapshot>, id: string)
    requires IsUnknown(store, id) && forall snap :: snap in snaps ==> snap.orderId != id
    ensures IsUnknown(SaveAll(store, snaps), id)
  {
    if snaps != [] {
      var n := |snaps| - 1;
      assert snaps[n] in snaps;
      SaveAllKeeps(store, snaps[..n], id);
    }
  }

  /** Looking at the recent orders leaves an unknown order unknown when none of them is about it. */
  lemma {:induction false} RecentKeeps(p: Progress, pass: Pass, i: nat, recent: seq<Snapshot>, aged: bool, id: string)
    requires pass.Listed? && i < |pass.locals| && IsUnknown(p.store, id) && !Evidence(pass, id)
    requires forall snap :: snap in recent ==> Reported(pass, snap)
    requires pass.locals[i].id == id ==> pass.locals[i].status.Unknown?
    ensures IsUnknown(TakeRecent(p, pass.locals[i], recent, aged).store, id)
  {
    var local := pass.locals[i];
    FoundById(recent, local.id);
    FoundByClient(recent, local.client);
    var m := Matched(local, recent);
    if m.Some? {
      assert Reported(pass, m.value);
      assert !About(pass, m.value, id);
      assert local.id != id;
    }
  }

  /** What was loaded as recent was reported. */
  ghost predicate RecentReported(p: Progress, pass: Pass)
    requires pass.Listed?
  {
    p.recent.Some? ==> forall snap :: snap in p.recent.value ==> Reported(pass, snap)
  }

  lemma {:induction false} OneKeeps(p: Progress, pass: Pass, i: nat, skip: bool, id: string)
    requires pass.Listed? && i < |pass.locals| && IsUnknown(p.store, id) && !Evidence(pass, id) && RecentReported(p, pass)
    requires pass.locals[i].id == id ==> pass.locals[i].status.Unknown?
    ensures var p' := ReconcileOne(p, pass, i, skip); IsUnknown(p'.store, id) && RecentReported(p', pass)
  {
    var local := pass.locals[i];
    FoundByClient(pass.open, local.client);
    if FindByClient(pass.open, local.client).Some? {
      var snap := FindByClient(pass.open, local.client).value;
      assert Reported(pass, snap);
      assert !About(pass, snap, id);
    }
    if p.recent.Some? {
      RecentKeeps(p, pass, i, p.recent.value, pass.aged(local.id), id);
    } else if pass.all(i).Some? {
      assert forall snap :: snap in pass.all(i).value ==> Reported(pass, snap);
      RecentKeeps(p, pass, i, pass.all(i).value, pass.aged(local.id), id);
    }
  }

  lemma {:induction false} FirstKeeps(p: Progress, pass: Pass, n: nat, skip: bool, id: string)
    requires pass.Listed? && n <= |pass.locals| && IsUnknown(p.store, id) && !Evidence(pass, id) && RecentReported(p, pass)
    requires forall i :: 0 <= i < |pass.locals| && pass.locals[i].id == id ==> pass.locals[i].status.Unknown?
    ensures var p' := ReconcileFirst(p, pass, n, skip); IsUnknown(p'.store, id) && RecentReported(p', pass)
  {
    if n > 0 {
      FirstKeeps(p, pass, n - 1, skip, id);
      OneKeeps(ReconcileFirst(p, pass, n - 1, skip), pass, n - 1, skip, id);
    }
  }

  lemma {:induction false} SymbolsKeep(store: Store, passes: seq<Pass>, skip: bool, id: string)
    requires IsUnknown(store, id)
    requires forall i :: 0 <= i < |passes| ==> Faithful(passes[i], store) && !Evidence(passes[i], id)
    ensures IsUnknown(ReconcileSymbols(store, passes, skip).store, id)
  {
    if passes != [] {
      var n := |passes| - 1;
      SymbolsKeep(store, passes[..n], skip, id);
      var before, pass := ReconcileSymbols(store, passes[..n], skip), passes[n];
      if pass.Listed? {
        forall snap | snap in pass.open ensures snap.orderId != id {
          assert Reported(pass, snap);
          assert !About(pass, snap, id);
        }
        assert Faithful(pass, store);
        SaveAllKeeps(before.store, pass.open, id);
        FirstKeeps(Progress(SaveAll(before.store, pass.open), None, before.failed), pass, |pass.locals|, skip, id);
      }
    }
  }

  lemma {:induction false} UnknownStaysRegistered(s: State, r: Refresh, id: string)
    requires r.passes != [] && !r.backingOff && IsUnknown(s.store, id)
    requires forall i :: 0 <= i < |r.passes| ==> Faithful(r.passes[i], s.store) && !Evidence(r.passes[i], id)
    ensures id in RefreshLifecycle(s, r).registry
  {
    SymbolsKeep(s.store, r.passes, r.skipNonEssential, id);
  }

  /**
   Thawing needs evidence: when a refresh leaves the registry empty, the exchange has reported, in that
   refresh, every order that was unknown in the store before it.
   */
  lemma {:induction false} ThawNeedsEvidence(s: State, r: Refresh, id: string)
    requires forall i :: 0 <= i < |r.passes| ==> Faithful(r.passes[i], s.store)
    requires r.passes != [] && !r.backingOff && IsUnknown(s.store, id) && RefreshLifecycle(s, r).registry == {}
    ensures exists i :: 0 <= i < |r.passes| && Evidence(r.passes[i], id)
  {
    if forall i :: 0 <= i < |r.passes| ==> !Evidence(r.passes[i], id) {
      UnknownStaysRegistered(s, r, id);
      assert false;
    }
  }

  // --- frozen until reported

  /** A refresh that read the store faithfully and was told nothing about the order. */
  ghost predicate Unreported(r: Refresh, store: Store, id: string) {
    forall i :: 0 <= i < |r.passes| ==> Faithful(r.passes[i], store) && !Evidence(r.passes[i], id)
  }

  /** A step in which nobody else rewrites the order's row and the exchange does not report the order. */
  ghost predicate Silent(s: State, op: Op, id: string) {
    match op
    case RefreshOp(r) => Unreported(r, s.store, id)
    case ExecuteOp(before, _, _) => before.Some? ==> Unreported(before.value, s.store, id)
    case CancelOp(cancels) => forall i :: 0 <= i < |cancels| && cancels[i].orderId == id ==> !cancels[i].effect.Closed?
    case OthersOp(store) => IsUnknown(store, id)
  }

  ghost predicate SilentRun(s: State, ops: seq<Op>, id: string) {
    if ops == [] then true
    else
      var n := |ops| - 1;
      SilentRun(s, ops[..n], id) && Silent(Fold(s, ops[..n], Next), ops[n], id)
  }

  /** Nothing was submitted in between. */
  ghost predicate NoSubmit(t: seq<Event>, t': seq<Event>) {
    && |t| <= |t'| && t'[..|t|] == t
    && forall i :: |t| <= i < |t'| ==> !t'[i].SubmitEvent?
  }

  lemma {:induction false} RefreshSilent(s: State, r: Refresh, id: string)
    requires IsUnknown(s.store, id) && Unreported(r, s.store, id)
    ensures var s' := RefreshLifecycle(s, r); IsUnknown(s'.store, id) && NoSubmit(s.trace, s'.trace)
  {
    SymbolsKeep(s.store, r.passes, r.skipNonEssential, id);
  }

  lemma {:induction false} CancelSilent(s: State, cancels: seq<Cancel>, id: string)
    requires IsUnknown(s.store, id) && forall i :: 0 <= i < |cancels| && cancels[i].orderId == id ==> !cancels[i].effect.Closed?
    ensures var s' := CancelAll(s, cancels); IsUnknown(s'.store, id) && s'.trace == s.trace
  {
    if cancels != [] {
      CancelSilent(s, cancels[..|cancels| - 1], id);
    }
  }

  lemma {:induction false} NextSilent(s: State, op: Op, id: string)
    requires IsUnknown(s.store, id) && Silent(s, op, id)
    ensures var s' := Next(s, op); IsUnknown(s'.store, id) && NoSubmit(s.trace, s'.trace)
  {
    match op
    case RefreshOp(r) => RefreshSilent(s, r, id);
    case ExecuteOp(before, guarded, intents) =>
      var refreshed := if before.Some? then RefreshLifecycle(s, before.value) else s;
      if before.Some? { RefreshSilent(s, before.value, id); }
      assert id in Sync(refreshed, false).registry;
    case CancelOp(cancels) => CancelSilent(s, cancels, id);
    case OthersOp(store) =>
  }

  lemma {:induction false} RunSilent(s: State, ops: seq<Op>, id: string)
    requires IsUnknown(s.store, id) && SilentRun(s, ops, id)
    ensures var s' := Fold(s, ops, Next); IsUnknown(s'.store, id) && NoSubmit(s.trace, s'.trace)
  {
    if ops != [] {
      var n := |ops| - 1;
      RunSilent(s, ops[..n], id);
      var before := Fold(s, ops[..n], Next);
      NextSilent(before, ops[n], id);
      assert forall i :: 0 <= i < |before.trace| ==> Fold(s, ops, Next).trace[i] == before.trace[i];
    }
  }

  /**
   Frozen until reported: after a submit that ended unconfirmed, however the run goes on, nothing is
   submitted as long as nobody else rewrites the order's row and the exchange has not reported the order
   to a refresh. A refresh that does not fail is not enough.
   */
  lemma {:induction false} FrozenUntilReported(s: State, client: string, ops: seq<Op>)
    requires Sync(s, false).registry == {}
    requires SilentRun(SubmitIntent(s, client, Uncertain(None)).state, ops, UnknownPrefix() + client)
    ensures var sent := SubmitIntent(s, client, Uncertain(None)).state;
            NoSubmit(sent.trace, Fold(sent, ops, Next).trace)
  {
    RunSilent(SubmitIntent(s, client, Uncertain(None)).state, ops, UnknownPrefix() + client);
  }

  // --- what is recorded

  /** No other row changes. */
  ghost predicate OtherRowsKept(store: Store, store': Store, id: string) {
    forall other :: other != id ==> (other in store' <==> other in store) && (other in store ==> store'[other] == store[other])
  }

  ghost predicate Recorded(store: Store, store': Store, id: string, status: Status, client: Option<string>) {
    OtherRowsKept(store, store', id) && id in store' && store'[id].status == status && store'[id].client == client
  }

  /**
   When an order goes out and what is recorded of it: nothing goes out while the store or the registry
   holds an unknown order. Otherwise exactly one submit does; an acknowledged order, or one found after an
   uncertain answer, is open and counted, a refused one or one without an id is rejected, and one that is
   not found is unknown under a placeholder, and the only one in the registry.
   */
  lemma {:induction false} SubmitRecorded(s: State, client: string, reply: SubmitReply)
    ensures var r, placeholder := SubmitIntent(s, client, reply), UnknownPrefix() + client;
            if s.registry != {} || exists id :: IsUnknown(s.store, id) then
              r.raised && r.placed == 0 && r.state.store == s.store && r.state.trace == s.trace && s.registry <= r.state.registry
            else
              && !r.raised && |r.state.trace| == |s.trace| + 1 && r.state.trace[..|s.trace|] == s.trace
              && r.state.trace[|s.trace|] == SubmitEvent(client, {}, OutcomeOf(reply))
              && match reply
                 case Acknowledged(id) => Recorded(s.store, r.state.store, id, Open, Some(client)) && r.placed == 1 && r.state.registry == {}
                 case AcknowledgedWithoutId(id) => Recorded(s.store, r.state.store, id, Rejected, None) && r.placed == 0 && r.state.registry == {}
                 case Refused(id) => Recorded(s.store, r.state.store, id, Rejected, None) && r.placed == 0 && r.state.registry == {}
                 case Uncertain(found) =>
                   if found.Some? then Recorded(s.store, r.state.store, found.value, Open, Some(client)) && r.placed == 1 && r.state.registry == {}
                   else Recorded(s.store, r.state.store, placeholder, Unknown, Some(client)) && r.placed == 0 && r.state.registry == {placeholder}
  {
    SomeUnknown(s.store);
    assert Sync(s, false).registry == {} <==> s.registry == {} && UnknownIds(s.store) == {};
  }

  lemma {:induction false} SomeUnknown(store: Store)
    ensures UnknownIds(store) != {} <==> exists id :: IsUnknown(store, id)
  {
    if UnknownIds(store) != {} {
      var id :| id in UnknownIds(store);
      assert IsUnknown(store, id);
    }
    if id :| IsUnknown(store, id) {
      assert id in UnknownIds(store);
    }
  }

  /** The last report about this order. */
  ghost function LastReport(snaps: seq<Snapshot>, id: string): Option<Snapshot> {
    if snaps == [] then None
    else
      var n := |snaps| - 1;
      if snaps[n].orderId == id then Some(snaps[n]) else LastReport(snaps[..n], id)
  }

  /** Some report about this order knows its side. */
  ghost predicate SideKnown(snaps: seq<Snapshot>, id: string) {
    exists k :: 0 <= k < |snaps| && snaps[k].orderId == id && snaps[k].hasSide
  }

  /** Reports are taken: an order that is stored, or whose side is known, is as it was last reported; every other row stays. */
  lemma {:induction false} ReportsTaken(store: Store, snaps: seq<Snapshot>, id: string)
    ensures var after, last := SaveAll(store, snaps), LastReport(snaps, id);
            if last.Some? && (id in store || SideKnown(snaps, id)) then id in after && after[id] == Row(last.value.status, last.value.client)
            else (id in after <==> id in store) && (id in store ==> after[id] == store[id])
  {
    if snaps != [] {
      var n := |snaps| - 1;
      ReportsTaken(store, snaps[..n], id);
      if k :| 0 <= k < n && snaps[..n][k].orderId == id && snaps[..n][k].hasSide {
        assert snaps[k].orderId == id && snaps[k].hasSide;
        ReportedLast(snaps[..n], k);
      }
      if SideKnown(snaps, id) {
        var k :| 0 <= k < |snaps| && snaps[k].orderId == id && snaps[k].hasSide;
        assert k < n ==> snaps[..n][k] == snaps[k];
      }
    }
  }

  lemma {:induction false} ReportedLast(snaps: seq<Snapshot>, k: nat)
    requires k < |snaps|
    ensures LastReport(snaps, snaps[k].orderId).Some?
  {
    var n := |snaps| - 1;
    if k < n {
      ReportedLast(snaps[..n], k);
    }
  }

  /** No report has this id, or the client id of this local order. */
  ghost predicate NotAmong(snaps: seq<Snapshot>, local: Local) {
    forall snap :: snap in snaps ==> snap.orderId != local.id && (local.client.Some? ==> snap.client != local.client)
  }

  lemma {:induction false} NotFound(snaps: seq<Snapshot>, local: Local)
    ensures Matched(local, snaps).None? <==> NotAmong(snaps, local)
  {
    if snaps != [] {
      NotFound(snaps[1..], local);
      assert snaps == [snaps[0]] + snaps[1..];
    }
  }

  /** A local order that should be at the exchange: open, or new for long enough. */
  predicate Expected(local: Local, aged: bool) {
    local.status.Open? || local.status.Partial? || (local.status.New? && aged)
  }

  /** What becomes of a row whose status is set. */
  ghost predicate StatusNow(store: Store, store': Store, id: string, status: Status) {
    && OtherRowsKept(store, store', id) && (id in store' <==> id in store)
    && (id in store ==> store'[id] == store[id].(status := status))
  }

  /**
   A local order neither listed open nor among the recent orders: one that should be there is closed as
   rejected, an unknown one stays unknown, and nothing else changes.
   */
  lemma {:induction false} MissingIsRejected(p: Progress, pass: Pass, i: nat, skip: bool)
    requires pass.Listed? && i < |pass.locals| && p.recent.Some?
    requires NotAmong(pass.open, pass.locals[i]) && NotAmong(p.recent.value, pass.locals[i])
    ensures var local, p' := pass.locals[i], ReconcileOne(p, pass, i, skip);
            if Expected(local, pass.aged(local.id)) then StatusNow(p.store, p'.store, local.id, Rejected) else p'.store == p.store
  {
    NotFound(pass.open, pass.locals[i]);
    NotFound(p.recent.value, pass.locals[i]);
  }

  /**
   A local order found among the recent ones: the order is as reported, and a placeholder for it, if that
   has another id, gets the same status.
   */
  lemma {:induction false} MatchIsTaken(store: Store, local: Local, snap: Snapshot)
    ensures var after := TakeMatch(store, local, snap);
            && (snap.hasSide || snap.orderId in store ==> snap.orderId in after && after[snap.orderId] == Row(snap.status, snap.client))
            && (IsPlaceholder(local.id) && local.client.Some? && local.client.value != "" && local.id in store ==>
                  local.id in after && after[local.id].status == snap.status)
            && forall id :: id != snap.orderId && (id != local.id || !IsPlaceholder(id)) ==>
                 (id in after <==> id in store) && (id in store ==> after[id] == store[id])
  {
  }

  // --- when a refresh thaws

  predicate LoadsFail(pass: Pass) {
    pass.Listed? && exists k :: 0 <= k < |pass.locals| && pass.all(k).None?
  }

  lemma {:induction false} FirstFails(p: Progress, pass: Pass, n: nat, skip: bool)
    requires pass.Listed? && n <= |pass.locals|
    ensures var p' := ReconcileFirst(p, pass, n, skip);
            (p.failed ==> p'.failed) && (p'.failed ==> p.failed || LoadsFail(pass))
  {
    if n > 0 {
      FirstFails(p, pass, n - 1, skip);
    }
  }

  lemma {:induction false} SymbolsFail(store: Store, passes: seq<Pass>, skip: bool)
    ensures var failed := ReconcileSymbols(store, passes, skip).failed;
            && ((exists i :: 0 <= i < |passes| && passes[i].OpenFailed?) ==> failed)
            && (failed ==> exists i :: 0 <= i < |passes| && (passes[i].OpenFailed? || LoadsFail(passes[i])))
  {
    if passes != [] {
      var n := |passes| - 1;
      var before, pass := ReconcileSymbols(store, passes[..n], skip), passes[n];
      SymbolsFail(store, passes[..n], skip);
      if pass.Listed? {
        FirstFails(Progress(SaveAll(before.store, pass.open), None, before.failed), pass, |pass.locals|, skip);
      }
    }
  }

  /**
   What a refresh does to the freeze: one that reads every listing leaves exactly the orders that are
   still unknown in the registry, and is clean; one that misses an open listing lets nothing out.
   */
  lemma {:induction false} RefreshThaws(s: State, r: Refresh)
    requires r.passes != [] && !r.backingOff
    ensures var s' := RefreshLifecycle(s, r);
            && ((forall i :: 0 <= i < |r.passes| ==> !r.passes[i].OpenFailed? && !LoadsFail(r.passes[i])) ==>
                  s'.trace == s.trace + [CleanRefresh] && forall id :: id in s'.registry <==> IsUnknown(s'.store, id))
            && ((exists i :: 0 <= i < |r.passes| && r.passes[i].OpenFailed?) ==>
                  s'.trace == s.trace && forall id :: id in s'.registry <==> id in s.registry || IsUnknown(s'.store, id))
  {
    SymbolsFail(s.store, r.passes, r.skipNonEssential);
  }

  /** What each cancel of a stale order records; one that became unknown is registered. */
  lemma {:induction false} CancelRecorded(s: State, cancels: seq<Cancel>)
    requires cancels != []
    ensures var n := |cancels| - 1;
            var before, after, c := CancelAll(s, cancels[..n]), CancelAll(s, cancels), cancels[n];
            && after.trace == before.trace
            && match c.effect
               case Unchanged => after == before
               case Closed(status) => StatusNow(before.store, after.store, c.orderId, status) && after.registry == before.registry
               case BecameUnknown =>
                 StatusNow(before.store, after.store, c.orderId, Unknown) && after.registry == before.registry + {c.orderId}
  {
  }

  /** The submits of a trace that ended confirmed. */
  ghost function Confirmations(trace: seq<Event>): nat {
    if trace == [] then 0
    else
      var n := |trace| - 1;
      Confirmations(trace[..n]) + if trace[n].SubmitEvent? && trace[n].outcome.Confirmed? then 1 else 0
  }

  /** The orders placed are the submits confirmed. */
  lemma {:induction false} PlacedIsConfirmed(e: Execution, intents: seq<Intent>)
    ensures var r := ExecuteAll(e, intents);
            r.placed - e.placed == Confirmations(r.state.trace) - Confirmations(e.state.trace)
  {
    if intents != [] {
      var n := |intents| - 1;
      PlacedIsConfirmed(e, intents[..n]);
      var before := ExecuteAll(e, intents[..n]);
      if !before.raised && intents[n].Send? {
        SubmitConfirms(before.state, intents[n].client, intents[n].reply);
      }
    }
  }

  lemma {:induction false} SubmitConfirms(s: State, client: string, reply: SubmitReply)
    ensures var r := SubmitIntent(s, client, reply);
            Confirmations(r.state.trace) == Confirmations(s.trace) + r.placed
  {
    SubmitRecorded(s, client, reply);
    var t := SubmitIntent(s, client, reply).state.trace;
    if |t| == |s.trace| + 1 {
      assert t[..|t| - 1] == s.trace;
    }
  }

  // --- what a refresh takes from the exchange

  /** The recent orders that are known when the i-th local order is looked at, loading them if need be. */
  ghost function RecentAt(p: Progress, pass: Pass, i: nat, skip: bool): Option<seq<Snapshot>>
    requires pass.Listed?
  {
    if p.recent.Some? then p.recent else if skip then None else pass.all(i)
  }

  /**
   A local order that is not listed open but is among the recent orders is taken as reported: also an
   unknown one, once it is due.
   */
  lemma {:induction false} ReportedIsTaken(p: Progress, pass: Pass, i: nat, skip: bool, snap: Snapshot)
    requires pass.Listed? && i < |pass.locals| && NotAmong(pass.open, pass.locals[i])
    requires pass.locals[i].status.Unknown? ==> pass.due(pass.locals[i].id)
    requires RecentAt(p, pass, i, skip).Some? && Matched(pass.locals[i], RecentAt(p, pass, i, skip).value) == Some(snap)
    ensures var local, p' := pass.locals[i], ReconcileOne(p, pass, i, skip);
            && p'.failed == p.failed && p'.recent == RecentAt(p, pass, i, skip)
            && (snap.hasSide || snap.orderId in p.store ==>
                  snap.orderId in p'.store && p'.store[snap.orderId] == Row(snap.status, snap.client))
            && (IsPlaceholder(local.id) && local.client.Some? && local.client.value != "" && local.id in p.store ==>
                  local.id in p'.store && p'.store[local.id].status == snap.status)
  {
    NotFound(pass.open, pass.locals[i]);
    MatchIsTaken(p.store, pass.locals[i], snap);
  }

  /** Which recent order is taken for a local one: the first with its id, otherwise the first with its client id. */
  lemma {:induction false} MatchedExactly(local: Local, recent: seq<Snapshot>) returns (k: nat)
    requires Matched(local, recent).Some?
    ensures k < |recent| && Matched(local, recent) == Some(recent[k])
    ensures if recent[k].orderId == local.id then forall j :: 0 <= j < k ==> recent[j].orderId != local.id
            else local.client.Some? && recent[k].client == local.client
                 && (forall j :: 0 <= j < |recent| ==> recent[j].orderId != local.id)
                 && forall j :: 0 <= j < k ==> recent[j].client != local.client
  {
    if recent[0].orderId == local.id {
      k := 0;
    } else if FindById(recent, local.id).Some? {
      k := FirstById(recent, local.id);
    } else {
      NoneById(recent, local.id);
      k := FirstByClient(recent, local.client);
    }
  }

  lemma {:induction false} FirstById(snaps: seq<Snapshot>, id: string) returns (k: nat)
    requires FindById(snaps, id).Some?
    ensures k < |snaps| && FindById(snaps, id) == Some(snaps[k]) && snaps[k].orderId == id
    ensures forall j :: 0 <= j < k ==> snaps[j].orderId != id
  {
    if snaps[0].orderId == id {
      k := 0;
    } else {
      k := FirstById(snaps[1..], id);
      assert forall j :: 0 <= j < k ==> snaps[1..][j] == snaps[j + 1];
      k := k + 1;
    }
  }

  lemma {:induction false} FirstByClient(snaps: seq<Snapshot>, client: Option<string>) returns (k: nat)
    requires FindByClient(snaps, client).Some?
    ensures k < |snaps| && FindByClient(snaps, client) == Some(snaps[k]) && client.Some? && snaps[k].client == client
    ensures forall j :: 0 <= j < k ==> snaps[j].client != client
  {
    if snaps[0].client == client {
      k := 0;
    } else {
      k := FirstByClient(snaps[1..], client);
      assert forall j :: 0 <= j < k ==> snaps[1..][j] == snaps[j + 1];
      k := k + 1;
    }
  }

  lemma {:induction false} NoneById(snaps: seq<Snapshot>, id: string)
    requires FindById(snaps, id).None?
    ensures forall j :: 0 <= j < |snaps| ==> snaps[j].orderId != id
  {
    if snaps != [] {
      NoneById(snaps[1..], id);
      assert forall j :: 0 < j < |snaps| ==> snaps[j] == snaps[1..][j - 1];
    }
  }

  /** A placeholder whose client id is listed open under another order id gets that order's status. */
  lemma {:induction false} ShownIsTaken(p: Progress, pass: Pass, i: nat, skip: bool)
    requires pass.Listed? && i < |pass.locals| && FindById(pass.open, pass.locals[i].id).None?
    requires FindByClient(pass.open, pass.locals[i].client).Some?
    ensures var local, shown := pass.locals[i], FindByClient(pass.open, pass.locals[i].client).value;
            var p' := ReconcileOne(p, pass, i, skip);
            && (IsPlaceholder(local.id) ==> StatusNow(p.store, p'.store, local.id, shown.status))
            && (!IsPlaceholder(local.id) ==> p' == p)
  {
    NoneById(pass.open, pass.locals[i].id);
    var k := FirstByClient(pass.open, pass.locals[i].client);
  }

  /** Nothing is done without symbols or while backing off, and nothing is sent behind a guard. */
  lemma {:induction false} IdleExactly(s: State, r: Refresh, before: Option<Refresh>, intents: seq<Intent>)
    ensures r.passes == [] || r.backingOff ==> RefreshLifecycle(s, r) == s
    ensures var e := ExecuteIntents(s, before, true, intents);
            !e.raised && e.placed == 0 && NoSubmit(s.trace, e.state.trace)
  {
  }

}
