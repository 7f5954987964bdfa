/** What cancels, submits and whole calls on a transaction leave in the store. */
module ReplaceOutcomes {
  import opened Results
  import opened Quantizer
  import opened OrderSizing
  import opened ReplaceProtocol

  /** No other row changes. */
  ghost predicate OtherRowsKept(s: State, s': State, id: string) {
    forall other :: other != id ==> (other in s'.orders <==> other in s.orders) && (other in s.orders ==> s'.orders[other] == s.orders[other])
  }

  /** The row has this status now, and the exchange ids it had. */
  ghost predicate StatusSet(s: State, s': State, id: string, status: Status) {
    && OtherRowsKept(s, s', id) && id in s'.orders && s'.orders[id].status == status
    && (if id in s.orders then s'.orders[id] == s.orders[id].(status := status)
        else s'.orders[id].exchangeOrderId.None? && s'.orders[id].exchangeClientId.None?)
  }

  // --- cancels

  /** A row that may still be cancelled, or no row yet. */
  predicate Cancellable(s: State, a: Action) {
    a.clientOrderId != "" && (a.clientOrderId in s.orders ==> !TerminalAnyCase(s.orders[a.clientOrderId].status))
  }

  predicate HasTarget(s: State, a: Action) {
    a.exchangeOrderId != "" || (a.clientOrderId in s.orders && s.orders[a.clientOrderId].exchangeOrderId.Some?)
  }

  /** An open or submitted row waits for its cancel; any other row stays. */
  ghost predicate Requested(s: State, s': State, id: string) {
    if id in s.orders && (s.orders[id].status.Open? || s.orders[id].status.Submitted?) then StatusSet(s, s', id, CancelRequested)
    else s'.orders == s.orders
  }

  /** What is stored when a cancel is sent, and what the step reports. */
  ghost predicate AnsweredAs(s: State, r: Step, id: string, reply: CancelReply) {
    && (reply.CancelUncertain? ==> StatusSet(s, r.state, id, Unknown) && r.count == 0 && !r.raised)
    && (!reply.CancelUncertain? ==>
          Requested(s, r.state, id) && r.raised == reply.CancelRaised? && r.count == if reply == CancelAnswered(true) then 1 else 0)
  }

  lemma {:induction false} SendOutcome(s: State, tx: Option<string>, id: string, target: string, reply: CancelReply)
    ensures var r := SendCancel(RecordCancelRequested(s, id), tx, id, target, reply);
            r.state.trace != s.trace && AnsweredAs(s, r, id, reply)
  {
  }

  /** What a cancel that is not sent leaves. */
  lemma {:induction false} UnsentOutcome(s: State, tx: Option<string>, a: Action, w: World, reply: CancelReply)
    requires !(Cancellable(s, a) && HasTarget(s, a) && w.live && w.writesAllowed)
    ensures var id, r := a.clientOrderId, Cancel(s, tx, a, w, reply);
            && r.state.trace == s.trace
            && (!Cancellable(s, a) ==> r == Step(s, 0, false))
            && (Cancellable(s, a) && !HasTarget(s, a) ==> StatusSet(s, r.state, id, Error) && r.count == 0 && !r.raised)
            && (Cancellable(s, a) && HasTarget(s, a) && !w.live ==>
                  (if id in s.orders then StatusSet(s, r.state, id, Canceled) else r.state == s) && r.count == 1 && !r.raised)
            && (Cancellable(s, a) && HasTarget(s, a) && w.live ==> Requested(s, r.state, id) && r.count == 0 && r.raised)
  {
  }

  /**
   What one cancel does, in every case: without an id or on a terminal row, nothing; without an exchange
   order to cancel, the row becomes an error; in a dry run, an existing row is canceled at once; otherwise
   the row waits, the cancel is sent when writes are allowed, and an uncertain answer makes it unknown.
   */
  lemma {:induction false} CancelOutcome(s: State, tx: Option<string>, a: Action, w: World, reply: CancelReply)
    ensures var id, r := a.clientOrderId, Cancel(s, tx, a, w, reply);
            if !Cancellable(s, a) then r == Step(s, 0, false)
            else if !HasTarget(s, a) then
              StatusSet(s, r.state, id, Error) && r.state.trace == s.trace && r.count == 0 && !r.raised
            else if !w.live then
              && (if id in s.orders then StatusSet(s, r.state, id, Canceled) else r.state == s)
              && r.state.trace == s.trace && r.count == 1 && !r.raised
            else if !w.writesAllowed then
              Requested(s, r.state, id) && r.state.trace == s.trace && r.count == 0 && r.raised
            else r.state.trace != s.trace && AnsweredAs(s, r, id, reply)
  {
    if Cancellable(s, a) && HasTarget(s, a) && w.live && w.writesAllowed {
      SendOutcome(s, tx, a.clientOrderId, CancelTarget(s, a).value, reply);
    } else {
      UnsentOutcome(s, tx, a, w, reply);
    }
  }

  // --- submits

  /** Why a submit is rejected before anything is sent. */
  ghost predicate Refused(s: State, a: Action, w: World) {
    || !w.gate.GateOpen?
    || (!Dedupes(s, w) && (w.rules.None? || SizeAction(a.price, a.qty, w.configuredMin, w.cap, w.rules.value).BelowMinimum?
                           || SizeAction(a.price, a.qty, w.configuredMin, w.cap, w.rules.value).AboveCap?))
  }

  /** The size of an action is one that may be sent. */
  predicate Fits(a: Action, w: World) {
    w.rules.Some? && SizeAction(a.price, a.qty, w.configuredMin, w.cap, w.rules.value).Order?
  }

  /** The row is open under the exchange's order id; a client id it already had stays. */
  ghost predicate OpenedAs(s: State, s': State, id: string, exchangeOrderId: string, exchangeClientId: string) {
    && OtherRowsKept(s, s', id) && id in s'.orders && s'.orders[id].status.Open?
    && s'.orders[id].exchangeOrderId == Some(exchangeOrderId)
    && s'.orders[id].exchangeClientId == if id in s.orders && s.orders[id].exchangeClientId.Some? then s.orders[id].exchangeClientId
                                         else Some(exchangeClientId)
  }

  /** The counts a submit reports. */
  ghost predicate Reports(r: Submission, submitted: nat, simulated: nat, rejected: nat, raised: bool) {
    r.submitted == submitted && r.simulated == simulated && r.rejected == rejected && r.raised == raised
  }

  /**
   What one submit does, in every case: refused, the row is rejected and nothing is sent; frozen, without
   an id or in flight already, nothing happens; in a dry run the row is open under a simulated id; sent,
   the row is open under the acknowledged id, rejected, or unknown, as the exchange answered.
   */
  lemma {:induction false} SubmitOutcome(s: State, tx: Option<string>, a: Action, w: World, exchangeId: Action -> string)
    ensures var id, r := a.clientOrderId, Submit(s, tx, a, w, exchangeId);
            if s.frozen || id == "" then r == Nothing(s)
            else if Refused(s, a, w) then StatusSet(s, r.state, id, Rejected) && r.state.trace == s.trace && Reports(r, 0, 0, 1, false)
            else if Dedupes(s, w) then r == Nothing(s)
            else if !Fits(a, w) then r.state == s && Reports(r, 0, 0, 0, true)
            else if !w.live then OpenedAs(s, r.state, id, "sim-" + id, id) && r.state.trace == s.trace && Reports(r, 0, 1, 0, false)
            else if !w.writesAllowed then r.state == s && Reports(r, 0, 0, 0, true)
            else
              && |r.state.trace| == |s.trace| + 1
              && match w.submitReply
                 case Acknowledged(exchangeOrderId) =>
                   OpenedAs(s, r.state, id, exchangeOrderId, exchangeId(a)) && Reports(r, 1, 0, 0, false)
                 case Rejected1123 => StatusSet(s, r.state, id, Rejected) && Reports(r, 0, 0, 1, false)
                 case SubmitUncertain => StatusSet(s, r.state, id, Unknown) && Reports(r, 0, 0, 0, false)
                 case SubmitRaised => r.state.orders == s.orders && Reports(r, 0, 0, 0, true)
  {
  }

  // --- the transaction

  /** The transaction is in this state now. */
  ghost predicate TxIs(s: State, tx: string, state: TxState) {
    tx in s.txs && s.txs[tx].state == state
  }

  /** How the answer to a submit ends a transaction, or leaves it. */
  function StateFor(reply: SubmitReply): TxState {
    match reply
    case Acknowledged(_) => SubmitConfirmed
    case Rejected1123 => Failed
    case SubmitUncertain => SubmitSent
    case SubmitRaised => SubmitSent
  }

  /** What a submit that went out reports. */
  ghost predicate ReportsReply(r: Submission, reply: SubmitReply) {
    match reply
    case Acknowledged(_) => Reports(r, 1, 0, 0, false)
    case Rejected1123 => Reports(r, 0, 0, 1, false)
    case SubmitUncertain => Reports(r, 0, 0, 0, false)
    case SubmitRaised => Reports(r, 0, 0, 0, true)
  }

  lemma {:induction false} ConcludesAs(r: Submission, tx: string, reply: SubmitReply)
    requires TxIs(r.state, tx, SubmitSent) && ReportsReply(r, reply)
    ensures TxIs(Conclude(r, tx), tx, StateFor(reply))
  {
  }

  lemma {:induction false} SubmitMovesTx(s: State, tx: string, g: Group, w: World, exchangeId: Action -> string)
    requires tx in s.txs && !Final(s.txs[tx].state) && !s.frozen && g.submit.clientOrderId != "" && GatesOpen(s, w, g.submit)
    ensures TxIs(AfterConfirm(s, tx, g, w, exchangeId), tx, StateFor(w.submitReply))
  {
    var confirmed := UpdateTx(s, tx, CancelConfirmed);
    var sent := UpdateTx(confirmed, tx, SubmitSent);
    UpdateTxEffects(s, tx, CancelConfirmed);
    UpdateTxEffects(confirmed, tx, SubmitSent);
    assert TxIs(sent, tx, SubmitSent);
    SubmitOutcome(sent, Some(tx), g.submit, w, exchangeId);
    SubmitEffects(sent, Some(tx), g.submit, w, exchangeId);
    ConcludesAs(Submit(sent, Some(tx), g.submit, w, exchangeId), tx, w.submitReply);
  }

  /** A call that submits leaves the transaction confirmed, failed or sent, as the exchange answered. */
  lemma {:induction false} CallMovesTx(s: State, tx: string, g: Group, w: World, exchangeId: Action -> string)
    requires Ready(s, tx, g, w)
    ensures TxIs(Replace(s, tx, g, w, exchangeId), tx, StateFor(w.submitReply))
  {
    var begun := Begin(s, tx, g);
    BeginEffects(s, tx, g);
    NothingToCancel(begun, Some(tx), g.cancels, w);
    var sent := UpdateTx(begun, tx, CancelSent);
    UpdateTxEffects(begun, tx, CancelSent);
    var listed := Listed(sent, tx, g, w.listing);
    ListingCheckComparesInternalIds(listed, g, w.listing.value);
    SubmitMovesTx(listed, tx, g, w, exchangeId);
  }

  /** A call during a freeze calls nobody and blocks the transaction. */
  lemma {:induction false} FrozenBlocks(s: State, tx: string, g: Group, w: World, exchangeId: Action -> string)
    requires Proceeds(s, tx, g) && s.frozen
    ensures var s' := Replace(s, tx, g, w, exchangeId);
            TxIs(s', tx, BlockedUnknown) && s'.trace == s.trace && s'.orders == s.orders
  {
    BeginEffects(s, tx, g);
  }

  /** A live call whose cancels all came back, but not confirmed, ends with the listing and blocks the transaction. */
  lemma {:induction false} UnconfirmedBlocks(s: State, tx: string, g: Group, w: World, exchangeId: Action -> string)
    requires Proceeds(s, tx, g) && !s.frozen && w.live
    requires !(AllTerminal(s, g.cancels) && ClearListing(w, g))
    requires !CancelAll(Begin(s, tx, g), Some(tx), g.cancels, w).raised
    ensures TxIs(Replace(s, tx, g, w, exchangeId), tx, BlockedReconcile)
  {
    var begun := Begin(s, tx, g);
    BeginEffects(s, tx, g);
    CancelAllEffects(begun, Some(tx), g.cancels, w);
    var after := CancelAll(begun, Some(tx), g.cancels, w).state;
    var sent := UpdateTx(after, tx, CancelSent);
    UpdateTxEffects(after, tx, CancelSent);
    var listed := Listed(sent, tx, g, w.listing);
    if w.listing.Some? {
      ConfirmedExactly(listed, g.cancels, OpenIds(w.listing.value));
      if AllTerminal(s, g.cancels) {
        NothingToCancel(begun, Some(tx), g.cancels, w);
        ListingCheckComparesInternalIds(listed, g, w.listing.value);
      } else {
        StillOpenAfter(begun, after, g);
      }
    }
    UpdateTxEffects(listed, tx, BlockedReconcile);
    UpdateReaches(listed, tx, BlockedReconcile);
  }

  lemma {:induction false} StillOpenAfter(s: State, s': State, g: Group)
    requires NoneClosed(s, s') && !AllTerminal(s, g.cancels)
    ensures !AllTerminal(s', g.cancels)
  {
  }

  // --- what the statuses mean

  /** Statuses under which an order can no longer trade, and those under which it is at the exchange or on its way. */
  lemma {:induction false} StatusesExactly(status: Status, recentFill: bool)
    ensures Terminal(status) <==> status in {Canceled, Filled, Rejected, UnknownClosed}
    ensures !status.Other? ==> (TerminalAnyCase(status) <==> Terminal(status))
    ensures !status.Other? ==> (InFlight(status, recentFill) <==> status in {Open, Submitted, CancelRequested} || (status == Filled && recentFill))
  {
  }

  /** An acknowledged order is not sent again while its row stays as it is and the dedupe query answers truthfully. */
  lemma {:induction false} AcknowledgedIsDeduped(s: State, tx: Option<string>, a: Action, first: World, second: World, exchangeId: Action -> string)
    requires !s.frozen && a.clientOrderId != "" && GatesOpen(s, first, a) && first.submitReply.Acknowledged?
    requires OwnExchangeId(s, a, exchangeId) && second.gate.GateOpen?
    requires QueryAnswers(Submit(s, tx, a, first, exchangeId).state, a, second, exchangeId)
    ensures var sent := Submit(s, tx, a, first, exchangeId).state;
            Submit(sent, tx, a, second, exchangeId) == Nothing(sent)
  {
    var sent := Submit(s, tx, a, first, exchangeId).state;
    assert Carries(sent, a.clientOrderId, a, exchangeId);
    forall id | Carries(sent, id, a, exchangeId) ensures id == a.clientOrderId {
      assert id != a.clientOrderId ==> Carries(s, id, a, exchangeId);
    }
  }

  /** The states of a transaction in the order they are passed. */
  function Progress(): seq<TxState> {
    [Init, CancelSent, CancelConfirmed, SubmitSent, SubmitConfirmed]
  }

  /** A transaction never goes back: of the stored state and the one asked for, the later is kept. */
  lemma {:induction false} ProgressOnly(s: State, tx: string, i: nat, j: nat)
    requires i < 4 && j < 5 && TxIs(s, tx, Progress()[i])
    ensures TxIs(UpdateTx(s, tx, Progress()[j]), tx, Progress()[if i <= j then j else i])
  {
  }

  /** Any state but a final one can fail or be blocked, and a blocked transaction can go on from anywhere. */
  lemma {:induction false} BlockedGoesOn(s: State, tx: string, next: TxState)
    requires tx in s.txs && !Final(s.txs[tx].state)
    requires next in {Failed, BlockedUnknown, BlockedReconcile} || s.txs[tx].state in {BlockedUnknown, BlockedReconcile}
    ensures TxIs(UpdateTx(s, tx, next), tx, next)
  {
  }
}
