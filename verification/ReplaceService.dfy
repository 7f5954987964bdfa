/** The stage 4 execution service: the replace protocol carried out on the store's rows, step by step. */
module ReplaceService {
  import opened Results
  import opened OrderSizing
  import opened ReplaceProtocol
  import AverageCost

  class ExecutionService {
    var orders: map<string, OrderRow>
    var txs: map<string, ReplaceTx>
    var frozen: bool
    var trace: seq<Call>

    constructor ()
      ensures Contents() == START
    {
      orders, txs, frozen, trace := map[], map[], false, [];
    }

    ghost function Contents(): State
      reads this
    {
      State(orders, txs, frozen, trace)
    }

    method RecordRow(id: string, status: Status)
      modifies this`orders
      ensures Contents() == RecordStatus(old(Contents()), id, status)
    {
      if id in orders {
        orders := orders[id := orders[id].(status := status)];
      } else {
        orders := orders[id := OrderRow(status, None, None)];
      }
    }

    method RecordOpen(id: string, exchangeOrderId: string, exchangeClientId: string)
      modifies this`orders
      ensures Contents() == RecordSubmitted(old(Contents()), id, exchangeOrderId, exchangeClientId)
    {
      var known := if id in orders then orders[id].exchangeClientId else None;
      orders := orders[id := OrderRow(Open, Some(exchangeOrderId), if known.Some? then known else Some(exchangeClientId))];
    }

    method UpdateTxState(tx: string, state: TxState)
      modifies this`txs
      ensures Contents() == UpdateTx(old(Contents()), tx, state)
    {
      if tx in txs && Forward(txs[tx].state, state) {
        txs := txs[tx := txs[tx].(state := state)];
      }
    }

    method RequestCancel(id: string)
      modifies this`orders
      ensures Contents() == RecordCancelRequested(old(Contents()), id)
    {
      if id in orders && (orders[id].status.Open? || orders[id].status.Submitted?) {
        orders := orders[id := orders[id].(status := CancelRequested)];
      }
    }

    method MarkCanceled(id: string)
      modifies this`orders
      ensures Contents() == RecordCanceled(old(Contents()), id)
    {
      if id in orders {
        orders := orders[id := orders[id].(status := Canceled)];
      }
    }

    method ExecuteCancel(tx: Option<string>, a: Action, w: World, reply: CancelReply) returns (count: nat, raised: bool)
      modifies this`orders, this`trace
      ensures Cancel(old(Contents()), tx, a, w, reply) == Step(Contents(), count, raised)
    {
      var id := a.clientOrderId;
      if id == "" {
        return 0, false;
      }
      if id in orders && TerminalAnyCase(orders[id].status) {
        return 0, false;
      }
      var target := if a.exchangeOrderId != "" then Some(a.exchangeOrderId)
                    else if id in orders then orders[id].exchangeOrderId else None;
      if target.None? {
        RecordRow(id, Error);
        return 0, false;
      }
      RequestCancel(id);
      if !w.live {
        MarkCanceled(id);
        return 1, false;
      }
      if !w.writesAllowed {
        return 0, true;
      }
      count, raised := SendCancelCall(tx, id, target.value, reply);
    }

    method SendCancelCall(tx: Option<string>, id: string, target: string, reply: CancelReply) returns (count: nat, raised: bool)
      modifies this`orders, this`trace
      ensures SendCancel(old(Contents()), tx, id, target, reply) == Step(Contents(), count, raised)
    {
      trace := trace + [CancelCall(tx, target)];
      match reply
      case CancelAnswered(ok) => return if ok then 1 else 0, false;
      case CancelRaised => return 0, true;
      case CancelUncertain =>
        RecordRow(id, Unknown);
        return 0, false;
    }

    /** The listing, and the loop over the cancelled orders. */
    method ConfirmCancels(tx: string, g: Group, listing: Option<seq<string>>) returns (c: Confirmation)
      modifies this`trace
      ensures Contents() == Listed(old(Contents()), tx, g, listing)
      ensures c == Confirm(Contents(), g, listing)
    {
      trace := trace + [ListCall(Some(tx), g.symbol, if listing.None? then None else Some(OpenIds(listing.value)))];
      if listing.None? {
        return ListingFailed;
      }
      var open := OpenIds(listing.value);
      for i := 0 to |g.cancels|
        invariant ConfirmAll(Contents(), g.cancels, open) == ConfirmAll(Contents(), g.cancels[i..], open)
      {
        assert g.cancels[i..][1..] == g.cancels[i + 1..];
        var id := g.cancels[i].clientOrderId;
        if id == "" {
          continue;
        }
        if id in open {
          return StillOpen(id);
        }
        if id !in orders {
          return LocalMissing(id);
        }
        if !Terminal(orders[id].status) {
          return NotTerminal(id);
        }
      }
      return Confirmed;
    }

    method ExecuteSubmit(tx: Option<string>, a: Action, w: World, exchangeId: Action -> string)
      returns (submitted: nat, simulated: nat, rejected: nat, raised: bool)
      modifies this`orders, this`trace
      ensures Submit(old(Contents()), tx, a, w, exchangeId) == Submission(Contents(), submitted, simulated, rejected, raised)
    {
      submitted, simulated, rejected, raised := 0, 0, 0, false;
      var id := a.clientOrderId;
      if frozen || id == "" {
        return;
      }
      if !w.gate.GateOpen? {
        RecordRow(id, Rejected);
        rejected := 1;
        return;
      }
      if w.found.Some? && w.found.value in orders && InFlight(orders[w.found.value].status, w.recentFill) {
        return;
      }
      if w.rules.None? {
        RecordRow(id, Rejected);
        rejected := 1;
        return;
      }
      var sized := SizeAction(a.price, a.qty, w.configuredMin, w.cap, w.rules.value);
      if sized.BadInput? {
        raised := true;
        return;
      }
      if sized.BelowMinimum? || sized.AboveCap? {
        RecordRow(id, Rejected);
        rejected := 1;
        return;
      }
      if !w.live {
        RecordOpen(id, "sim-" + id, id);
        simulated := 1;
        return;
      }
      if !w.writesAllowed {
        raised := true;
        return;
      }
      trace := trace + [SubmitCall(tx, a.symbol, a.side, exchangeId(a), sized.price, sized.qty, w.submitReply)];
      match w.submitReply
      case Acknowledged(exchangeOrderId) =>
        RecordOpen(id, exchangeOrderId, exchangeId(a));
        submitted := 1;
      case Rejected1123 =>
        RecordRow(id, Rejected);
        rejected := 1;
      case SubmitUncertain =>
        RecordRow(id, Unknown);
      case SubmitRaised =>
        raised := true;
    }

    /** The cancels of a group. */
    method CancelGroup(tx: string, g: Group, w: World) returns (canceled: nat, raised: bool)
      modifies this`orders, this`trace
      ensures CancelAll(old(Contents()), Some(tx), g.cancels, w) == Step(Contents(), canceled, raised)
    {
      canceled, raised := 0, false;
      ghost var start := Contents();
      for i := 0 to |g.cancels|
        invariant CancelAll(start, Some(tx), g.cancels[..i], w) == Step(Contents(), canceled, false)
        invariant txs == old(txs) && frozen == old(frozen)
      {
        assert g.cancels[..i + 1][..i] == g.cancels[..i];
        var count;
        count, raised := ExecuteCancel(Some(tx), g.cancels[i], w, w.cancelReplies(i));
        canceled := canceled + count;
        if raised {
          RaisedStays(start, Some(tx), g.cancels, i + 1, w);
          return;
        }
      }
      assert g.cancels[..|g.cancels|] == g.cancels;
    }

    method ExecuteReplaceGroup(tx: string, g: Group, w: World, exchangeId: Action -> string)
      modifies this
      ensures Contents() == Replace(old(Contents()), tx, g, w, exchangeId)
    {
      var oldIds, newId := OldIds(g.cancels), g.submit.clientOrderId;
      if newId == "" || oldIds == [] {
        return;
      }
      if tx !in txs {
        txs := txs[tx := ReplaceTx(AverageCost.Normalize(g.symbol), g.side, oldIds, newId, Init)];
      } else if !SameMetadata(txs[tx], g) || Final(txs[tx].state) {
        return;
      }
      if frozen {
        UpdateTxState(tx, BlockedUnknown);
        return;
      }
      var canceled, raised := CancelGroup(tx, g, w);
      if raised {
        return;
      }
      UpdateTxState(tx, CancelSent);
      var confirmation := ConfirmCancels(tx, g, w.listing);
      if !confirmation.Confirmed? {
        UpdateTxState(tx, BlockedReconcile);
        return;
      }
      UpdateTxState(tx, CancelConfirmed);
      UpdateTxState(tx, SubmitSent);
      var submitted, simulated, rejected;
      submitted, simulated, rejected, raised := ExecuteSubmit(Some(tx), g.submit, w, exchangeId);
      if raised {
        return;
      }
      if submitted > 0 || simulated > 0 {
        UpdateTxState(tx, SubmitConfirmed);
      } else if rejected > 0 {
        UpdateTxState(tx, Failed);
      }
    }
  }

  lemma {:induction false} RaisedStays(s: State, tx: Option<string>, cancels: seq<Action>, i: nat, w: World)
    requires i <= |cancels| && CancelAll(s, tx, cancels[..i], w).raised
    ensures CancelAll(s, tx, cancels, w) == CancelAll(s, tx, cancels[..i], w)
  {
    if i == |cancels| {
      assert cancels[..i] == cancels;
    } else {
      assert cancels[..|cancels| - 1][..i] == cancels[..i];
      RaisedStays(s, tx, cancels[..|cancels| - 1], i, w);
    }
  }
}
