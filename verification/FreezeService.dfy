/** The stage 3 execution service: reconcile passes, submits and cancels carried out on the registry and the store. */
module FreezeService {
  import opened Results
  import opened UnknownFreeze

  class ExecutionService {
    var registry: set<string>
    var store: Store
    var trace: seq<Event>

    constructor ()
      ensures Contents() == START
    {
      registry, store, trace := {}, map[], [];
    }

    ghost function Contents(): State
      reads this
    {
      State(registry, store, trace)
    }

    /** Unknown rows of the store enter the registry; only a clearing sync lets others out. */
    method SyncFromStore(allowClear: bool)
      modifies this`registry
      ensures Contents() == Sync(old(Contents()), allowClear)
    {
      var unknown := set id | id in store && store[id].status.Unknown?;
      if allowClear {
        registry := unknown;
      } else {
        registry := registry + unknown;
      }
    }

    /** The loop over one symbol's local orders. */
    method ReconcileLocals(pass: Pass, skipNonEssential: bool, failed0: bool) returns (failed: bool)
      requires pass.Listed?
      modifies this`store
      ensures var p := ReconcileFirst(Progress(old(store), None, failed0), pass, |pass.locals|, skipNonEssential);
              store == p.store && failed == p.failed
    {
      failed := failed0;
      var recent: Option<seq<Snapshot>> := None;
      for i := 0 to |pass.locals|
        invariant ReconcileFirst(Progress(old(store), None, failed0), pass, i, skipNonEssential) == Progress(store, recent, failed)
      {
        var local := pass.locals[i];
        if FindById(pass.open, local.id).Some? {
          continue;
        }
        var shown := FindByClient(pass.open, local.client);
        if shown.Some? {
          if IsPlaceholder(local.id) && local.id != shown.value.orderId {
            store := SetStatus(store, local.id, shown.value.status);
          }
          continue;
        }
        if local.status.Unknown? && !pass.due(local.id) {
          continue;
        }
        if recent.None? {
          if skipNonEssential {
            continue;
          }
          var loaded := pass.all(i);
          if loaded.None? {
            failed := true;
            continue;
          }
          recent := loaded;
        }
        var matched := Matched(local, recent.value);
        if matched.None? {
          store := TakeMissing(store, local, pass.aged(local.id));
        } else {
          store := TakeMatch(store, local, matched.value);
        }
      }
    }

    method ReconcileOneSymbol(pass: Pass, skipNonEssential: bool, failed0: bool) returns (failed: bool)
      modifies this`store
      ensures var p := ReconcileSymbol(old(store), failed0, pass, skipNonEssential);
              store == p.store && failed == p.failed
    {
      match pass
      case Throttled => failed := failed0;
      case OpenFailed => failed := true;
      case Listed(open, _, _, _, _) =>
        for i := 0 to |open|
          invariant store == SaveAll(old(store), open[..i])
        {
          assert open[..i + 1][..i] == open[..i];
          store := SaveSnapshot(store, open[i]);
        }
        assert open[..|open|] == open;
        failed := ReconcileLocals(pass, skipNonEssential, failed0);
    }

    method RefreshOrderLifecycle(r: Refresh)
      modifies this
      ensures Contents() == RefreshLifecycle(old(Contents()), r)
    {
      if r.passes == [] || r.backingOff {
        return;
      }
      var failed := false;
      for i := 0 to |r.passes|
        invariant registry == old(registry) && trace == old(trace)
        invariant var p := ReconcileSymbols(old(store), r.passes[..i], r.skipNonEssential);
                  store == p.store && failed == p.failed
      {
        assert r.passes[..i + 1][..i] == r.passes[..i];
        failed := ReconcileOneSymbol(r.passes[i], r.skipNonEssential, failed);
      }
      assert r.passes[..|r.passes|] == r.passes;
      SyncFromStore(!failed);
      if !failed {
        trace := trace + [CleanRefresh];
      }
    }

    /** `_submit_limit_order`, and recording how it went. */
    method SubmitLimitOrder(client: string, reply: SubmitReply) returns (placed: nat, raised: bool)
      modifies this
      ensures SubmitIntent(old(Contents()), client, reply) == Execution(Contents(), placed, raised)
    {
      SyncFromStore(false);
      if registry != {} {
        return 0, true;
      }
      trace := trace + [SubmitEvent(client, registry, OutcomeOf(reply))];
      match reply
      case Acknowledged(orderId) =>
        store := store[orderId := Row(Open, Some(client))];
        return 1, false;
      case AcknowledgedWithoutId(recordId) =>
        store := store[recordId := Row(Rejected, None)];
        return 0, false;
      case Refused(recordId) =>
        store := store[recordId := Row(Rejected, None)];
        return 0, false;
      case Uncertain(found) =>
        if found.Some? {
          store := store[found.value := Row(Open, Some(client))];
          return 1, false;
        }
        var id := UnknownPrefix() + client;
        store := store[id := Row(Unknown, Some(client))];
        registry := registry + {id};
        return 0, false;
    }

    method ExecuteOrderIntents(refresh: Option<Refresh>, guarded: bool, intents: seq<Intent>) returns (placed: nat, raised: bool)
      modifies this
      ensures ExecuteIntents(old(Contents()), refresh, guarded, intents) == Execution(Contents(), placed, raised)
    {
      if refresh.Some? {
        RefreshOrderLifecycle(refresh.value);
      }
      SyncFromStore(false);
      placed, raised := 0, false;
      if guarded {
        return;
      }
      if registry != {} {
        raised := true;
        return;
      }
      ghost var start := Execution(Contents(), 0, false);
      for i := 0 to |intents|
        invariant ExecuteAll(start, intents[..i]) == Execution(Contents(), placed, false) && !raised
      {
        assert intents[..i + 1][..i] == intents[..i];
        match intents[i] {
          case Skipped =>
          case Aborted => raised := true;
          case Send(client, reply) =>
            var one;
            one, raised := SubmitLimitOrder(client, reply);
            placed := placed + one;
        }
        if raised {
          RaisedStays(start, intents, i + 1);
          return;
        }
      }
      assert intents[..|intents|] == intents;
    }

    method CancelStaleOrders(cancels: seq<Cancel>)
      modifies this
      ensures Contents() == CancelAll(old(Contents()), cancels)
    {
      ghost var start := Contents();
      for i := 0 to |cancels|
        invariant Contents() == CancelAll(start, cancels[..i])
      {
        assert cancels[..i + 1][..i] == cancels[..i];
        match cancels[i].effect {
          case Unchanged =>
          case Closed(status) => store := SetStatus(store, cancels[i].orderId, status);
          case BecameUnknown =>
            store := SetStatus(store, cancels[i].orderId, Unknown);
            registry := registry + {cancels[i].orderId};
        }
      }
      assert cancels[..|cancels|] == cancels;
    }
  }

  lemma {:induction false} RaisedStays(e: Execution, intents: seq<Intent>, i: nat)
    requires i <= |intents| && ExecuteAll(e, intents[..i]).raised
    ensures ExecuteAll(e, intents) == ExecuteAll(e, intents[..i])
  {
    if i == |intents| {
      assert intents[..i] == intents;
    } else {
      assert intents[..|intents| - 1][..i] == intents[..i];
      RaisedStays(e, intents[..|intents| - 1], i);
    }
  }
}
