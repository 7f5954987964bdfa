/**
 Replacing an order, stage 4: cancel the old orders, see them gone, submit the new one, with the
 progress persisted as a transaction. The exchange, the clock and the policy gates answer as they
 like; between two calls other parts of the program may rewrite orders and the freeze flag.
 */
module ReplaceProtocol {
  import opened Ordering
  import opened Results
  import opened Quantizer
  import opened OrderSizing
  import AverageCost

  // --- what is persisted

  datatype Status =
    | Open | Submitted | CancelRequested | Canceled | Filled | Rejected | UnknownClosed | Unknown | Error
    | Other(text: string)

  datatype OrderRow = OrderRow(status: Status, exchangeOrderId: Option<string>, exchangeClientId: Option<string>)

  datatype TxState = Init | CancelSent | CancelConfirmed | SubmitSent | SubmitConfirmed | Failed | BlockedUnknown | BlockedReconcile

  datatype ReplaceTx = ReplaceTx(symbol: string, side: string, oldIds: seq<string>, newId: string, state: TxState)

  predicate Final(state: TxState) {
    state.SubmitConfirmed? || state.Failed?
  }

  function Rank(state: TxState): int {
    match state
    case Init => 0
    case CancelSent => 1
    case CancelConfirmed => 2
    case SubmitSent => 3
    case SubmitConfirmed => 4
    case _ => -1
  }

  /** `_is_replace_tx_forward_transition`. */
  predicate Forward(current: TxState, next: TxState) {
    if Final(current) then next == current
    else next.BlockedUnknown? || next.BlockedReconcile? || next.Failed? || Rank(next) >= Rank(current)
  }

  /** `TERMINAL_OLD_ORDER_STATUSES`. */
  predicate Terminal(status: Status) {
    status.Canceled? || status.Filled? || status.Rejected? || status.UnknownClosed?
  }

  function LowerChar(c: char): char {
    if 'A' <= c <= 'Z' then c + 32 as char else c
  }

  function Lower(s: string): string {
    seq(|s|, i requires 0 <= i < |s| => LowerChar(s[i]))
  }

  /** `is_order_terminal` ignores case, which matters only for a status written as the exchange spelled it. */
  predicate TerminalAnyCase(status: Status) {
    Terminal(status) || (status.Other? && Lower(status.text) in {"filled", "canceled", "rejected", "unknown_closed"})
  }

  // --- exchange calls

  datatype SubmitReply = Acknowledged(exchangeOrderId: string) | Rejected1123 | SubmitUncertain | SubmitRaised

  datatype CancelReply = CancelAnswered(ok: bool) | CancelUncertain | CancelRaised

  /** A call to the exchange, made for a transaction or for none. */
  datatype Call =
    | CancelCall(tx: Option<string>, exchangeOrderId: string)
    | ListCall(tx: Option<string>, symbol: string, open: Option<set<string>>)
    | SubmitCall(tx: Option<string>, symbol: string, side: string, clientId: string, price: real, qty: real, reply: SubmitReply)

  datatype State = State(orders: map<string, OrderRow>, txs: map<string, ReplaceTx>, frozen: bool, trace: seq<Call>)

  /** An action; missing ids are empty. */
  datatype Action = Action(
    symbol: string, side: string, price: real, qty: real, clientOrderId: string, exchangeOrderId: string)

  datatype Group = Group(symbol: string, side: string, cancels: seq<Action>, submit: Action)

  datatype Gate = GateOpen | CoolingDown | ReadFailed

  /**
   Everything a call asks of the world around it. `found` is the row the dedupe query returns, the most
   recently updated one under the order's internal or exchange id; `recentFill` says that it was created
   less than five seconds ago.
   */
  datatype World = World(
    live: bool, writesAllowed: bool, cancelReplies: nat -> CancelReply, listing: Option<seq<string>>, gate: Gate,
    found: Option<string>, recentFill: bool, rules: Option<ExchangeRules>, configuredMin: real, cap: Option<real>, submitReply: SubmitReply)

  // --- order rows

  predicate IsTerminal(s: State, id: string) {
    id in s.orders && Terminal(s.orders[id].status)
  }

  /** `record_stage4_order_error` and `record_stage4_order_rejected`. */
  function RecordStatus(s: State, id: string, status: Status): State {
    s.(orders := s.orders[id := if id in s.orders then s.orders[id].(status := status) else OrderRow(status, None, None)])
  }

  function RecordCancelRequested(s: State, id: string): State {
    if id in s.orders && (s.orders[id].status.Open? || s.orders[id].status.Submitted?)
    then s.(orders := s.orders[id := s.orders[id].(status := CancelRequested)]) else s
  }

  function RecordCanceled(s: State, id: string): State {
    if id in s.orders then s.(orders := s.orders[id := s.orders[id].(status := Canceled)]) else s
  }

  /** An exchange client id that is already there stays. */
  function RecordSubmitted(s: State, id: string, exchangeOrderId: string, exchangeClientId: string): State {
    var known := if id in s.orders then s.orders[id].exchangeClientId else None;
    s.(orders := s.orders[id := OrderRow(Open, Some(exchangeOrderId), if known.Some? then known else Some(exchangeClientId))])
  }

  /** Whether a status stops a second submit: the order is open or in flight, or was filled just now. */
  predicate InFlight(status: Status, recentFill: bool) {
    match status
    case Open => true
    case Submitted => true
    case CancelRequested => true
    case Filled => recentFill
    case Other(text) =>
      Lower(text) in {"open", "submitted", "cancel_requested"} || (Lower(text) == "filled" && recentFill)
    case _ => false
  }

  /** `stage4_submit_dedupe_status`, on the row the query returned. */
  predicate Dedupes(s: State, w: World) {
    w.found.Some? && w.found.value in s.orders && InFlight(s.orders[w.found.value].status, w.recentFill)
  }

  function Called(s: State, call: Call): State {
    s.(trace := s.trace + [call])
  }

  // --- cancel

  /** A step's new state, its count, and whether it raised. */
  datatype Step = Step(state: State, count: nat, raised: bool)

  function CancelTarget(s: State, a: Action): Option<string> {
    if a.exchangeOrderId != "" then Some(a.exchangeOrderId)
    else if a.clientOrderId in s.orders then s.orders[a.clientOrderId].exchangeOrderId else None
  }

  /** `_execute_cancel_action`. */
  function Cancel(s: State, tx: Option<string>, a: Action, w: World, reply: CancelReply): Step {
    var id := a.clientOrderId;
    if id == "" || (id in s.orders && TerminalAnyCase(s.orders[id].status)) then Step(s, 0, false)
    else if CancelTarget(s, a).None? then Step(RecordStatus(s, id, Error), 0, false)
    else
      var requested := RecordCancelRequested(s, id);
      if !w.live then Step(RecordCanceled(requested, id), 1, false)
      else if !w.writesAllowed then Step(requested, 0, true)
      else SendCancel(requested, tx, id, CancelTarget(s, a).value, reply)
  }

  function SendCancel(s: State, tx: Option<string>, id: string, target: string, reply: CancelReply): Step {
    var sent := Called(s, CancelCall(tx, target));
    match reply
    case CancelAnswered(ok) => Step(sent, if ok then 1 else 0, false)
    case CancelUncertain => Step(RecordStatus(sent, id, Unknown), 0, false)
    case CancelRaised => Step(sent, 0, true)
  }

  /** The cancels of a group, in order, until one raises. */
  function CancelAll(s: State, tx: Option<string>, cancels: seq<Action>, w: World): Step {
    if cancels == [] then Step(s, 0, false)
    else
      var n := |cancels| - 1;
      var before := CancelAll(s, tx, cancels[..n], w);
      if before.raised then before
      else
        var last := Cancel(before.state, tx, cancels[n], w, w.cancelReplies(n));
        Step(last.state, before.count + last.count, last.raised)
  }

  // --- confirm

  datatype Confirmation = Confirmed | ListingFailed | StillOpen(id: string) | LocalMissing(id: string) | NotTerminal(id: string)

  function OpenIds(listing: seq<string>): set<string> {
    set id | id in listing && id != ""
  }

  /** The loop over the cancelled orders in `_confirm_replace_cancels`. */
  function ConfirmAll(s: State, cancels: seq<Action>, open: set<string>): Confirmation {
    if cancels == [] then Confirmed
    else
      var id := cancels[0].clientOrderId;
      if id == "" then ConfirmAll(s, cancels[1..], open)
      else if id in open then StillOpen(id)
      else if id !in s.orders then LocalMissing(id)
      else if !Terminal(s.orders[id].status) then NotTerminal(id)
      else ConfirmAll(s, cancels[1..], open)
  }

  function Confirm(s: State, g: Group, listing: Option<seq<string>>): Confirmation {
    if listing.None? then ListingFailed else ConfirmAll(s, g.cancels, OpenIds(listing.value))
  }

  function Listed(s: State, tx: string, g: Group, listing: Option<seq<string>>): State {
    Called(s, ListCall(Some(tx), g.symbol, if listing.None? then None else Some(OpenIds(listing.value))))
  }

  // --- submit

  datatype Submission = Submission(state: State, submitted: nat, simulated: nat, rejected: nat, raised: bool)

  function Nothing(s: State): Submission {
    Submission(s, 0, 0, 0, false)
  }

  function Reject(s: State, id: string): Submission {
    Submission(RecordStatus(s, id, Rejected), 0, 0, 1, false)
  }

  /** `_execute_submit_action`; `exchangeId` is `build_exchange_client_id`. */
  function Submit(s: State, tx: Option<string>, a: Action, w: World, exchangeId: Action -> string): Submission {
    var id := a.clientOrderId;
    if s.frozen || id == "" then Nothing(s)
    else if !w.gate.GateOpen? then Reject(s, id)
    else if Dedupes(s, w) then Nothing(s)
    else if w.rules.None? then Reject(s, id)
    else
      match SizeAction(a.price, a.qty, w.configuredMin, w.cap, w.rules.value)
      case BadInput(_) => Submission(s, 0, 0, 0, true)
      case BelowMinimum(_, _) => Reject(s, id)
      case AboveCap(_, _) => Reject(s, id)
      case Order(price, qty) =>
        if !w.live then Submission(RecordSubmitted(s, id, "sim-" + id, id), 0, 1, 0, false)
        else if !w.writesAllowed then Submission(s, 0, 0, 0, true)
        else
          var sent := Called(s, SubmitCall(tx, a.symbol, a.side, exchangeId(a), price, qty, w.submitReply));
          SubmitAnswered(sent, id, exchangeId(a), w.submitReply)
  }

  function SubmitAnswered(s: State, id: string, exchangeClientId: string, reply: SubmitReply): Submission {
    match reply
    case Acknowledged(exchangeOrderId) =>
      Submission(RecordSubmitted(s, id, exchangeOrderId, exchangeClientId), 1, 0, 0, false)
    case Rejected1123 => Reject(s, id)
    case SubmitUncertain => Nothing(RecordStatus(s, id, Unknown))
    case SubmitRaised => Submission(s, 0, 0, 0, true)
  }

  // --- the transaction

  function UpdateTx(s: State, tx: string, state: TxState): State {
    if tx in s.txs && Forward(s.txs[tx].state, state) then s.(txs := s.txs[tx := s.txs[tx].(state := state)]) else s
  }

  function OldIds(cancels: seq<Action>): seq<string> {
    if cancels == [] then []
    else (if cancels[0].clientOrderId == "" then [] else [cancels[0].clientOrderId]) + OldIds(cancels[1..])
  }

  function AsSet(ids: seq<string>): set<string> {
    set id | id in ids
  }

  predicate SameMetadata(t: ReplaceTx, g: Group) {
    && AverageCost.Without(t.symbol, '_') == AverageCost.Without(g.symbol, '_') && t.side == g.side
    && AsSet(t.oldIds) == AsSet(OldIds(g.cancels)) && t.newId == g.submit.clientOrderId
  }

  /** A group without a new id or an old one is dropped before anything is stored. */
  predicate Complete(g: Group) {
    g.submit.clientOrderId != "" && OldIds(g.cancels) != []
  }

  /** The transaction row is created on the first call. */
  function Begin(s: State, tx: string, g: Group): State {
    if tx in s.txs then s
    else s.(txs := s.txs[tx := ReplaceTx(AverageCost.Normalize(g.symbol), g.side, OldIds(g.cancels), g.submit.clientOrderId, Init)])
  }

  /** Whether a call on the transaction gets past the checks on the stored row. */
  predicate Proceeds(s: State, tx: string, g: Group) {
    Complete(g) && (tx in s.txs ==> SameMetadata(s.txs[tx], g) && !Final(s.txs[tx].state))
  }

  /** From the confirmation on. */
  function AfterConfirm(s: State, tx: string, g: Group, w: World, exchangeId: Action -> string): State {
    Conclude(Submit(UpdateTx(UpdateTx(s, tx, CancelConfirmed), tx, SubmitSent), Some(tx), g.submit, w, exchangeId), tx)
  }

  /** What the outcome of the submit makes of the transaction. */
  function Conclude(r: Submission, tx: string): State {
    if r.raised then r.state
    else if r.submitted > 0 || r.simulated > 0 then UpdateTx(r.state, tx, SubmitConfirmed)
    else if r.rejected > 0 then UpdateTx(r.state, tx, Failed)
    else r.state
  }

  /** From the listing on. */
  function AfterCancels(s: State, tx: string, g: Group, w: World, exchangeId: Action -> string): State {
    var listed := Listed(UpdateTx(s, tx, CancelSent), tx, g, w.listing);
    if Confirm(listed, g, w.listing).Confirmed? then AfterConfirm(listed, tx, g, w, exchangeId)
    else UpdateTx(listed, tx, BlockedReconcile)
  }

  /** `_execute_replace_group`. */
  function Replace(s: State, tx: string, g: Group, w: World, exchangeId: Action -> string): State {
    if !Proceeds(s, tx, g) then s
    else
      var begun := Begin(s, tx, g);
      if s.frozen then UpdateTx(begun, tx, BlockedUnknown)
      else
        var cancels := CancelAll(begun, Some(tx), g.cancels, w);
        if cancels.raised then cancels.state else AfterCancels(cancels.state, tx, g, w, exchangeId)
  }

  // --- what one action does

  /** No order is locally terminal that was not so before. */
  ghost predicate NoneClosed(s: State, s': State) {
    forall id :: IsTerminal(s', id) ==> IsTerminal(s, id)
  }

  lemma {:induction false} RequestEffects(s: State, id: string)
    requires !IsTerminal(s, id)
    ensures var s' := RecordCancelRequested(s, id);
            && s'.txs == s.txs && s'.frozen == s.frozen && s'.trace == s.trace
            && NoneClosed(s, s') && !IsTerminal(s', id)
  {
  }

  lemma {:induction false} SendEffects(s: State, tx: Option<string>, id: string, target: string, reply: CancelReply)
    requires !IsTerminal(s, id)
    ensures var s' := SendCancel(s, tx, id, target, reply).state;
            && s'.txs == s.txs && s'.frozen == s.frozen && s'.trace == s.trace + [CancelCall(tx, target)]
            && NoneClosed(s, s') && !IsTerminal(s', id)
  {
  }

  /** The step sent a cancel of an order that is still not terminal. */
  ghost predicate SentCancel(s: State, s': State, tx: Option<string>, id: string) {
    && |s'.trace| == |s.trace| + 1 && s'.trace[..|s.trace|] == s.trace
    && s'.trace[|s.trace|].CancelCall? && s'.trace[|s.trace|].tx == tx
    && id != "" && !IsTerminal(s', id)
  }

  lemma {:induction false} CancelEffects(s: State, tx: Option<string>, a: Action, w: World, reply: CancelReply)
    ensures var s' := Cancel(s, tx, a, w, reply).state;
            && s'.txs == s.txs && s'.frozen == s.frozen
            && (s'.trace == s.trace || (w.live && SentCancel(s, s', tx, a.clientOrderId)))
            && (w.live ==> NoneClosed(s, s'))
  {
    var id := a.clientOrderId;
    if id != "" && !(id in s.orders && TerminalAnyCase(s.orders[id].status)) && CancelTarget(s, a).Some? {
      RequestEffects(s, id);
      SendEffects(RecordCancelRequested(s, id), tx, id, CancelTarget(s, a).value, reply);
    }
  }

  /** The calls a step added are all cancels of the transaction. */
  ghost predicate AddsCancels(s: State, s': State, tx: Option<string>) {
    && |s.trace| <= |s'.trace| && s'.trace[..|s.trace|] == s.trace
    && forall i :: |s.trace| <= i < |s'.trace| ==> s'.trace[i].CancelCall? && s'.trace[i].tx == tx
  }

  /** Some order among those to cancel is not locally terminal. */
  ghost predicate SomeOpen(s: State, cancels: seq<Action>) {
    exists i :: 0 <= i < |cancels| && cancels[i].clientOrderId != "" && !IsTerminal(s, cancels[i].clientOrderId)
  }

  /** What cancels do: no transaction is touched; live, nothing is closed, and a call leaves its order unconfirmed. */
  ghost predicate OnlyCancelled(s: State, s': State, tx: Option<string>, cancels: seq<Action>, live: bool) {
    && s'.txs == s.txs && s'.frozen == s.frozen && AddsCancels(s, s', tx)
    && (!live ==> s'.trace == s.trace)
    && (live ==> NoneClosed(s, s') && (s'.trace != s.trace ==> SomeOpen(s', cancels)))
  }

  lemma {:induction false} OneMoreCancelled(s: State, before: State, s': State, tx: Option<string>, cancels: seq<Action>, a: Action, live: bool)
    requires OnlyCancelled(s, before, tx, cancels, live) && s'.txs == before.txs && s'.frozen == before.frozen
    requires s'.trace == before.trace || (live && SentCancel(before, s', tx, a.clientOrderId))
    requires live ==> NoneClosed(before, s')
    ensures OnlyCancelled(s, s', tx, cancels + [a], live)
  {
    if live && s'.trace != s.trace {
      if before.trace != s.trace {
        var i :| 0 <= i < |cancels| && cancels[i].clientOrderId != "" && !IsTerminal(before, cancels[i].clientOrderId);
        assert (cancels + [a])[i] == cancels[i];
      } else {
        assert (cancels + [a])[|cancels|] == a;
      }
    }
    assert forall i :: 0 <= i < |before.trace| ==> s'.trace[i] == before.trace[i];
  }

  lemma {:induction false} StillCancelled(s: State, s': State, tx: Option<string>, cancels: seq<Action>, a: Action, live: bool)
    requires OnlyCancelled(s, s', tx, cancels, live)
    ensures OnlyCancelled(s, s', tx, cancels + [a], live)
  {
    if live && s'.trace != s.trace {
      var i :| 0 <= i < |cancels| && cancels[i].clientOrderId != "" && !IsTerminal(s', cancels[i].clientOrderId);
      assert (cancels + [a])[i] == cancels[i];
    }
  }

  /** Cancels touch no transaction; live, they close nothing locally, and a call leaves its order unconfirmed. */
  lemma {:induction false} CancelAllEffects(s: State, tx: Option<string>, cancels: seq<Action>, w: World)
    ensures OnlyCancelled(s, CancelAll(s, tx, cancels, w).state, tx, cancels, w.live)
  {
    if cancels != [] {
      var n := |cancels| - 1;
      CancelAllEffects(s, tx, cancels[..n], w);
      var before := CancelAll(s, tx, cancels[..n], w);
      assert cancels == cancels[..n] + [cancels[n]];
      if before.raised {
        StillCancelled(s, before.state, tx, cancels[..n], cancels[n], w.live);
      } else {
        CancelEffects(before.state, tx, cancels[n], w, w.cancelReplies(n));
        OneMoreCancelled(s, before.state, CancelAll(s, tx, cancels, w).state, tx, cancels[..n], cancels[n], w.live);
      }
    }
  }

  /** Every order to cancel is neither listed as open nor, locally, anything but terminal. */
  ghost predicate AllGone(s: State, cancels: seq<Action>, open: set<string>) {
    forall i :: 0 <= i < |cancels| && cancels[i].clientOrderId != "" ==>
                  cancels[i].clientOrderId !in open && IsTerminal(s, cancels[i].clientOrderId)
  }

  lemma {:induction false} ConfirmedExactly(s: State, cancels: seq<Action>, open: set<string>)
    ensures ConfirmAll(s, cancels, open).Confirmed? <==> AllGone(s, cancels, open)
  {
    if cancels != [] {
      ConfirmedExactly(s, cancels[1..], open);
      var id := cancels[0].clientOrderId;
      if id == "" || (id !in open && IsTerminal(s, id)) {
        assert forall i :: 0 < i < |cancels| ==> cancels[i] == cancels[1..][i - 1];
      }
    }
  }

  /** The exchange answered a submit for good. */
  predicate Settled(reply: SubmitReply) {
    reply.Acknowledged? || reply.Rejected1123?
  }

  lemma {:induction false} SubmitEffects(s: State, tx: Option<string>, a: Action, w: World, exchangeId: Action -> string)
    ensures var r := Submit(s, tx, a, w, exchangeId);
            && r.state.txs == s.txs && r.state.frozen == s.frozen
            && (r.state.trace == s.trace
                || (w.live && !s.frozen && |r.state.trace| == |s.trace| + 1 && r.state.trace[..|s.trace|] == s.trace
                    && r.state.trace[|s.trace|].SubmitCall? && r.state.trace[|s.trace|].tx == tx
                    && (Settled(r.state.trace[|s.trace|].reply) <==> !r.raised && r.submitted + r.rejected > 0)))
  {
  }

  // --- what one call on a transaction does

  /** The row of a transaction, whatever its state. */
  ghost predicate SameRow(t: ReplaceTx, t': ReplaceTx) {
    t' == t.(state := t'.state)
  }

  /** The other transactions, and the identity of this one, stay as they are. */
  ghost predicate OnlyTx(s: State, s': State, tx: string) {
    && (forall t :: t in s.txs ==> t in s'.txs && (t != tx ==> s'.txs[t] == s.txs[t]) && SameRow(s.txs[t], s'.txs[t]))
    && (forall t :: t in s'.txs && t !in s.txs ==> t == tx)
  }

  lemma {:induction false} OnlyTxTwice(s: State, s': State, s'': State, tx: string)
    requires OnlyTx(s, s', tx) && OnlyTx(s', s'', tx)
    ensures OnlyTx(s, s'', tx)
  {
    forall t | t in s.txs ensures t in s''.txs && (t != tx ==> s''.txs[t] == s.txs[t]) && SameRow(s.txs[t], s''.txs[t]) {
      assert t in s'.txs && SameRow(s.txs[t], s'.txs[t]);
    }
  }

  lemma {:induction false} UpdateTxEffects(s: State, tx: string, state: TxState)
    ensures var s' := UpdateTx(s, tx, state);
            OnlyTx(s, s', tx) && s'.orders == s.orders && s'.frozen == s.frozen && s'.trace == s.trace
  {
  }

  /** The calls a step added all belong to the transaction. */
  ghost predicate CallsOf(t: seq<Call>, t': seq<Call>, tx: string) {
    && |t| <= |t'| && t'[..|t|] == t
    && forall i :: |t| <= i < |t'| ==> t'[i].tx == Some(tx)
  }

  /** Nothing was added, or one submit of the transaction, which is final if the exchange answered for good. */
  ghost predicate MaySubmit(t: seq<Call>, s': State, tx: string, live: bool) {
    || s'.trace == t
    || (|s'.trace| == |t| + 1 && s'.trace[..|t|] == t && IsSubmit(s'.trace[|t|], s', tx, live))
  }

  ghost predicate IsSubmit(call: Call, s': State, tx: string, live: bool) {
    && live && call.SubmitCall? && call.tx == Some(tx)
    && (Settled(call.reply) ==> tx in s'.txs && Final(s'.txs[tx].state))
  }

  lemma {:induction false} UpdateReaches(s: State, tx: string, state: TxState)
    requires tx in s.txs && Forward(s.txs[tx].state, state)
    ensures tx in UpdateTx(s, tx, state).txs && UpdateTx(s, tx, state).txs[tx].state == state
  {
  }

  lemma {:induction false} ConcludeEffects(s: State, r: Submission, tx: string)
    requires tx in s.txs && s.txs[tx].state.SubmitSent? && r.state.txs == s.txs && r.state.frozen == s.frozen
    ensures var s' := Conclude(r, tx);
            && OnlyTx(s, s', tx) && s'.frozen == s.frozen && s'.trace == r.state.trace && tx in s'.txs
            && (!r.raised && r.submitted + r.rejected > 0 ==> Final(s'.txs[tx].state))
  {
    if !r.raised {
      if r.submitted > 0 || r.simulated > 0 {
        ConcludeWith(s, r.state, tx, SubmitConfirmed);
      } else if r.rejected > 0 {
        ConcludeWith(s, r.state, tx, Failed);
      }
    }
  }

  /** Recording a final state. */
  lemma {:induction false} ConcludeWith(s: State, submitted: State, tx: string, state: TxState)
    requires tx in s.txs && s.txs[tx].state.SubmitSent? && submitted.txs == s.txs && Final(state)
    ensures var s' := UpdateTx(submitted, tx, state);
            && OnlyTx(s, s', tx) && s'.frozen == submitted.frozen && s'.trace == submitted.trace
            && tx in s'.txs && Final(s'.txs[tx].state)
  {
    UpdateTxEffects(submitted, tx, state);
    UpdateReaches(submitted, tx, state);
  }

  lemma {:induction false} AfterConfirmEffects(s: State, tx: string, g: Group, w: World, exchangeId: Action -> string)
    requires tx in s.txs && !Final(s.txs[tx].state)
    ensures var s' := AfterConfirm(s, tx, g, w, exchangeId);
            OnlyTx(s, s', tx) && s'.frozen == s.frozen && tx in s'.txs && MaySubmit(s.trace, s', tx, w.live)
  {
    var confirmed := UpdateTx(s, tx, CancelConfirmed);
    var sent := UpdateTx(confirmed, tx, SubmitSent);
    UpdateTxEffects(s, tx, CancelConfirmed);
    UpdateTxEffects(confirmed, tx, SubmitSent);
    OnlyTxTwice(s, confirmed, sent, tx);
    assert sent.txs[tx].state.SubmitSent?;
    SubmitAndConclude(sent, tx, g, w, exchangeId, AfterConfirm(s, tx, g, w, exchangeId));
    OnlyTxTwice(s, sent, AfterConfirm(s, tx, g, w, exchangeId), tx);
  }

  lemma {:induction false} SubmitAndConclude(sent: State, tx: string, g: Group, w: World, exchangeId: Action -> string, s': State)
    requires tx in sent.txs && sent.txs[tx].state.SubmitSent?
    requires s' == Conclude(Submit(sent, Some(tx), g.submit, w, exchangeId), tx)
    ensures OnlyTx(sent, s', tx) && s'.frozen == sent.frozen && tx in s'.txs && MaySubmit(sent.trace, s', tx, w.live)
  {
    SubmitEffects(sent, Some(tx), g.submit, w, exchangeId);
    ConcludeEffects(sent, Submit(sent, Some(tx), g.submit, w, exchangeId), tx);
  }

  /** The listing before a submit: it shows none of the old orders, and all of them are locally terminal. */
  ghost predicate ListingClear(s: State, call: Call, tx: string, g: Group) {
    && call.ListCall? && call.tx == Some(tx) && call.symbol == g.symbol && call.open.Some?
    && AllGone(s, g.cancels, call.open.value)
  }

  /** A listing was added; after it perhaps a submit, if the listing was clear. */
  ghost predicate ListsAndMaySubmit(s: State, s': State, tx: string, g: Group, live: bool) {
    var n := |s.trace|;
    && n < |s'.trace| <= n + 2 && s'.trace[..n] == s.trace
    && s'.trace[n].ListCall? && s'.trace[n].tx == Some(tx)
    && (|s'.trace| == n + 2 ==> ListingClear(s, s'.trace[n], tx, g) && IsSubmit(s'.trace[n + 1], s', tx, live))
  }

  lemma {:induction false} ListThenSubmit(s: State, listed: State, call: Call, s': State, tx: string, g: Group, live: bool)
    requires listed.trace == s.trace + [call] && call.ListCall? && call.tx == Some(tx)
    requires ListingClear(s, call, tx, g) && MaySubmit(listed.trace, s', tx, live)
    ensures ListsAndMaySubmit(s, s', tx, g, live)
  {
    var n := |s.trace|;
    assert s'.trace[..n + 1] == listed.trace;
    assert s'.trace[..n] == listed.trace[..n];
    assert s'.trace[n] == listed.trace[n];
  }

  lemma {:induction false} AfterCancelsEffects(s: State, tx: string, g: Group, w: World, exchangeId: Action -> string)
    requires tx in s.txs && !Final(s.txs[tx].state)
    ensures var s' := AfterCancels(s, tx, g, w, exchangeId);
            OnlyTx(s, s', tx) && s'.frozen == s.frozen && ListsAndMaySubmit(s, s', tx, g, w.live)
  {
    var sent := UpdateTx(s, tx, CancelSent);
    UpdateTxEffects(s, tx, CancelSent);
    var listed := Listed(sent, tx, g, w.listing);
    var s' := AfterCancels(s, tx, g, w, exchangeId);
    var call := ListCall(Some(tx), g.symbol, if w.listing.None? then None else Some(OpenIds(w.listing.value)));
    if Confirm(listed, g, w.listing).Confirmed? {
      ConfirmedExactly(listed, g.cancels, OpenIds(w.listing.value));
      AfterConfirmEffects(listed, tx, g, w, exchangeId);
      ListThenSubmit(s, listed, call, s', tx, g, w.live);
    } else {
      UpdateTxEffects(listed, tx, BlockedReconcile);
      ListOnly(s, listed, call, s', tx, g, w.live);
    }
    OnlyTxTwice(s, listed, s', tx);
  }

  lemma {:induction false} ListOnly(s: State, listed: State, call: Call, s': State, tx: string, g: Group, live: bool)
    requires listed.trace == s.trace + [call] && call.ListCall? && call.tx == Some(tx) && s'.trace == listed.trace
    ensures ListsAndMaySubmit(s, s', tx, g, live)
  {
  }

  /** A call that submits makes exactly two exchange calls: a clear listing and the submit. */
  ghost predicate SubmitsSafely(s: State, s': State, tx: string, g: Group) {
    var n := |s.trace|;
    && CallsOf(s.trace, s'.trace, tx)
    && forall i :: n <= i < |s'.trace| && s'.trace[i].SubmitCall? ==>
         && i == n + 1 && |s'.trace| == n + 2 && !s.frozen && IsSubmit(s'.trace[i], s', tx, true)
         && ListingClear(s, s'.trace[n], tx, g)
  }

  lemma {:induction false} BeginEffects(s: State, tx: string, g: Group)
    ensures var s' := Begin(s, tx, g);
            && OnlyTx(s, s', tx) && s'.orders == s.orders && s'.frozen == s.frozen && s'.trace == s.trace && tx in s'.txs
            && (tx !in s.txs ==> s'.txs[tx].state.Init? && s'.txs[tx].oldIds == OldIds(g.cancels))
            && (tx in s.txs ==> s' == s)
  {
  }

  /** Cancels, then a listing and perhaps a submit. */
  lemma {:induction false} CancelsThenRest(s: State, c: State, s': State, tx: string, g: Group, w: World)
    requires OnlyCancelled(s, c, Some(tx), g.cancels, w.live) && !s.frozen
    requires ListsAndMaySubmit(c, s', tx, g, w.live)
    ensures SubmitsSafely(s, s', tx, g)
  {
    var n, m := |s.trace|, |c.trace|;
    assert s'.trace[..n] == c.trace[..n];
    assert forall i :: n <= i < m ==> s'.trace[i] == c.trace[i];
    if |s'.trace| == m + 2 {
      assert c.trace == s.trace;
      assert AllGone(s, g.cancels, s'.trace[m].open.value);
    }
  }

  /** A call that ended while cancelling. */
  lemma {:induction false} CancelledOnly(s: State, begun: State, c: State, tx: string, g: Group, live: bool)
    requires OnlyTx(s, begun, tx) && begun.trace == s.trace && OnlyCancelled(begun, c, Some(tx), g.cancels, live)
    ensures OnlyTx(s, c, tx) && SubmitsSafely(s, c, tx, g)
  {
  }

  /** A call that went on to the listing. */
  lemma {:induction false} CancelledAndListed(s: State, begun: State, c: State, s': State, tx: string, g: Group, w: World)
    requires OnlyTx(s, begun, tx) && begun.trace == s.trace && begun.orders == s.orders && begun.frozen == s.frozen && !s.frozen
    requires OnlyCancelled(begun, c, Some(tx), g.cancels, w.live)
    requires OnlyTx(c, s', tx) && ListsAndMaySubmit(c, s', tx, g, w.live)
    ensures OnlyTx(s, s', tx) && OnlyTx(begun, s', tx) && SubmitsSafely(s, s', tx, g)
  {
    OnlyTxTwice(begun, c, s', tx);
    OnlyTxTwice(s, begun, s', tx);
    CancelsThenRest(begun, c, s', tx, g, w);
  }

  /** The stored row of the transaction carries the group's old ids. */
  lemma {:induction false} IdsKept(begun: State, s': State, tx: string, g: Group)
    requires tx in begun.txs && OnlyTx(begun, s', tx) && AsSet(begun.txs[tx].oldIds) == AsSet(OldIds(g.cancels))
    ensures tx in s'.txs && AsSet(s'.txs[tx].oldIds) == AsSet(OldIds(g.cancels))
  {
    assert SameRow(begun.txs[tx], s'.txs[tx]);
  }

  lemma {:induction false} ReplaceEffects(s: State, tx: string, g: Group, w: World, exchangeId: Action -> string)
    ensures var s' := Replace(s, tx, g, w, exchangeId);
            OnlyTx(s, s', tx) && SubmitsSafely(s, s', tx, g)
    ensures var s' := Replace(s, tx, g, w, exchangeId);
            if Proceeds(s, tx, g) then tx in s'.txs && AsSet(s'.txs[tx].oldIds) == AsSet(OldIds(g.cancels)) else s' == s
  {
    if Proceeds(s, tx, g) {
      var begun, s' := Begin(s, tx, g), Replace(s, tx, g, w, exchangeId);
      BeginEffects(s, tx, g);
      if s.frozen {
        UpdateTxEffects(begun, tx, BlockedUnknown);
        OnlyTxTwice(s, begun, s', tx);
      } else {
        var cancels := CancelAll(begun, Some(tx), g.cancels, w);
        CancelAllEffects(begun, Some(tx), g.cancels, w);
        if cancels.raised {
          CancelledOnly(s, begun, s', tx, g, w.live);
        } else {
          AfterCancelsEffects(cancels.state, tx, g, w, exchangeId);
          CancelledAndListed(s, begun, cancels.state, s', tx, g, w);
        }
      }
      IdsKept(begun, s', tx, g);
    }
  }

  // --- runs

  /** One thing that happens: a call on a transaction, a single action, or someone else's writes. */
  datatype Op =
    | ReplaceOp(tx: string, g: Group, w: World)
    | CancelOp(a: Action, w: World)
    | SubmitOp(a: Action, w: World)
    | OthersOp(orders: map<string, OrderRow>, frozen: bool)

  function Next(s: State, op: Op, exchangeId: Action -> string): State {
    match op
    case ReplaceOp(tx, g, w) => Replace(s, tx, g, w, exchangeId)
    case CancelOp(a, w) => Cancel(s, None, a, w, w.cancelReplies(0)).state
    case SubmitOp(a, w) => Submit(s, None, a, w, exchangeId).state
    case OthersOp(orders, frozen) => s.(orders := orders, frozen := frozen)
  }

  function Run(s: State, ops: seq<Op>, exchangeId: Action -> string): State {
    if ops == [] then s else Next(Run(s, ops[..|ops| - 1], exchangeId), ops[|ops| - 1], exchangeId)
  }

  const START := State(map[], map[], false, [])

  // --- what the calls carry

  /**
   The submit of an action: its symbol and side, under its exchange client id, at the price and quantity
   that may be sent for it under the rules, the required minimum and the cap.
   */
  ghost predicate SubmitOf(call: Call, tx: Option<string>, a: Action, w: World, exchangeId: Action -> string) {
    && call.SubmitCall? && call.tx == tx && call.symbol == a.symbol && call.side == a.side
    && call.clientId == exchangeId(a) && call.reply == w.submitReply
    && w.live && w.writesAllowed && w.rules.Some?
    && SizedWell(a.price, a.qty, call.price, call.qty, MinRequired(w.configuredMin, w.rules.value), w.cap, w.rules.value)
  }

  /** The cancel of an action: of the exchange order it names itself, otherwise of the one its stored row has. */
  ghost predicate CancelOf(s: State, call: Call, tx: Option<string>, a: Action) {
    && call.CancelCall? && call.tx == tx && a.clientOrderId != ""
    && (if a.exchangeOrderId != "" then call.exchangeOrderId == a.exchangeOrderId
        else a.clientOrderId in s.orders && s.orders[a.clientOrderId].exchangeOrderId == Some(call.exchangeOrderId))
  }

  /** The listing of a group: its symbol, and the ids listed apart from empty ones. */
  ghost predicate ListingOf(call: Call, tx: string, g: Group, w: World) {
    && call.ListCall? && call.tx == Some(tx) && call.symbol == g.symbol && call.open.Some? == w.listing.Some?
    && (call.open.Some? ==> forall id :: id in call.open.value <==> id != "" && id in w.listing.value)
  }

  /** The call is one the operation means to make, in this state. */
  ghost predicate Meant(s: State, op: Op, call: Call, exchangeId: Action -> string) {
    match op
    case ReplaceOp(tx, g, w) =>
      || (exists i :: 0 <= i < |g.cancels| && CancelOf(s, call, Some(tx), g.cancels[i]))
      || ListingOf(call, tx, g, w)
      || SubmitOf(call, Some(tx), g.submit, w, exchangeId)
    case CancelOp(a, w) => CancelOf(s, call, None, a)
    case SubmitOp(a, w) => SubmitOf(call, None, a, w, exchangeId)
    case OthersOp(_, _) => false
  }

  /** Only calls the operation means to make were added. */
  ghost predicate AddsMeant(start: State, op: Op, t: seq<Call>, t': seq<Call>, exchangeId: Action -> string) {
    && |t| <= |t'| && t'[..|t|] == t
    && forall i :: |t| <= i < |t'| ==> Meant(start, op, t'[i], exchangeId)
  }

  lemma {:induction false} AddsMeantTwice(start: State, op: Op, t: seq<Call>, t': seq<Call>, t'': seq<Call>, exchangeId: Action -> string)
    requires AddsMeant(start, op, t, t', exchangeId) && AddsMeant(start, op, t', t'', exchangeId)
    ensures AddsMeant(start, op, t, t'', exchangeId)
  {
    assert t''[..|t|] == t''[..|t'|][..|t|];
    assert forall i :: |t| <= i < |t'| ==> t''[i] == t''[..|t'|][i];
  }

  /** Nothing was added, or one call. */
  ghost predicate AddsAtMost(t: seq<Call>, t': seq<Call>, call: Call) {
    t' == t || t' == t + [call]
  }

  lemma {:induction false} SubmitSends(s: State, tx: Option<string>, a: Action, w: World, exchangeId: Action -> string) returns (call: Call)
    ensures var t, t' := s.trace, Submit(s, tx, a, w, exchangeId).state.trace;
            AddsAtMost(t, t', call) && (t' != t ==> SubmitOf(call, tx, a, w, exchangeId))
  {
    call := CancelCall(None, "");
    if w.rules.Some? {
      var sized := SizeAction(a.price, a.qty, w.configuredMin, w.cap, w.rules.value);
      SizedOrders(a.price, a.qty, w.configuredMin, w.cap, w.rules.value);
      if sized.Order? {
        call := SubmitCall(tx, a.symbol, a.side, exchangeId(a), sized.price, sized.qty, w.submitReply);
      }
    }
  }

  /** Rows have no exchange order ids but those they had. */
  ghost predicate NoNewExchangeIds(s: State, s': State) {
    forall id :: id in s'.orders && s'.orders[id].exchangeOrderId.Some? ==>
      id in s.orders && s.orders[id].exchangeOrderId == s'.orders[id].exchangeOrderId
  }

  lemma {:induction false} CancelSends(s: State, tx: Option<string>, a: Action, w: World, reply: CancelReply) returns (call: Call)
    ensures var s' := Cancel(s, tx, a, w, reply).state;
            AddsAtMost(s.trace, s'.trace, call) && (s'.trace != s.trace ==> CancelOf(s, call, tx, a)) && NoNewExchangeIds(s, s')
  {
    call := CancelCall(tx, if CancelTarget(s, a).Some? then CancelTarget(s, a).value else "");
  }

  lemma {:induction false} CancelAllSends(start: State, s: State, tx: string, g: Group, n: nat, w: World, exchangeId: Action -> string)
    requires n <= |g.cancels| && NoNewExchangeIds(start, s)
    ensures var s' := CancelAll(s, Some(tx), g.cancels[..n], w).state;
            AddsMeant(start, ReplaceOp(tx, g, w), s.trace, s'.trace, exchangeId) && NoNewExchangeIds(start, s')
  {
    if n > 0 {
      var before := CancelAll(s, Some(tx), g.cancels[..n - 1], w);
      CancelAllSends(start, s, tx, g, n - 1, w, exchangeId);
      assert g.cancels[..n][..n - 1] == g.cancels[..n - 1] && g.cancels[..n][n - 1] == g.cancels[n - 1];
      if !before.raised {
        var after := Cancel(before.state, Some(tx), g.cancels[n - 1], w, w.cancelReplies(n - 1)).state;
        var call := CancelSends(before.state, Some(tx), g.cancels[n - 1], w, w.cancelReplies(n - 1));
        OneMeant(start, ReplaceOp(tx, g, w), before.state.trace, after.trace, call, exchangeId);
        AddsMeantTwice(start, ReplaceOp(tx, g, w), s.trace, before.state.trace, after.trace, exchangeId);
      }
    }
  }

  lemma {:induction false} OneMeant(start: State, op: Op, t: seq<Call>, t': seq<Call>, call: Call, exchangeId: Action -> string)
    requires AddsAtMost(t, t', call) && (t' != t ==> Meant(start, op, call, exchangeId))
    ensures AddsMeant(start, op, t, t', exchangeId)
  {
  }

  lemma {:induction false} AfterConfirmSends(start: State, s: State, tx: string, g: Group, w: World, exchangeId: Action -> string)
    ensures AddsMeant(start, ReplaceOp(tx, g, w), s.trace, AfterConfirm(s, tx, g, w, exchangeId).trace, exchangeId)
  {
    var confirmed := UpdateTx(s, tx, CancelConfirmed);
    var sent := UpdateTx(confirmed, tx, SubmitSent);
    UpdateTxEffects(s, tx, CancelConfirmed);
    UpdateTxEffects(confirmed, tx, SubmitSent);
    var call := SubmitSends(sent, Some(tx), g.submit, w, exchangeId);
    ConcludeTrace(Submit(sent, Some(tx), g.submit, w, exchangeId), tx);
    OneMeant(start, ReplaceOp(tx, g, w), s.trace, AfterConfirm(s, tx, g, w, exchangeId).trace, call, exchangeId);
  }

  lemma {:induction false} AfterCancelsSends(start: State, s: State, tx: string, g: Group, w: World, exchangeId: Action -> string)
    ensures AddsMeant(start, ReplaceOp(tx, g, w), s.trace, AfterCancels(s, tx, g, w, exchangeId).trace, exchangeId)
  {
    var sent := UpdateTx(s, tx, CancelSent);
    UpdateTxEffects(s, tx, CancelSent);
    var listed, op := Listed(sent, tx, g, w.listing), ReplaceOp(tx, g, w);
    var call := listed.trace[|s.trace|];
    assert ListingOf(call, tx, g, w);
    OneMeant(start, op, s.trace, listed.trace, call, exchangeId);
    if Confirm(listed, g, w.listing).Confirmed? {
      AfterConfirmSends(start, listed, tx, g, w, exchangeId);
      AddsMeantTwice(start, op, s.trace, listed.trace, AfterCancels(s, tx, g, w, exchangeId).trace, exchangeId);
    } else {
      UpdateTxEffects(listed, tx, BlockedReconcile);
    }
  }

  lemma {:induction false} ReplaceSends(s: State, tx: string, g: Group, w: World, exchangeId: Action -> string)
    ensures AddsMeant(s, ReplaceOp(tx, g, w), s.trace, Replace(s, tx, g, w, exchangeId).trace, exchangeId)
  {
    if Proceeds(s, tx, g) {
      var begun := Begin(s, tx, g);
      BeginEffects(s, tx, g);
      UpdateTxEffects(begun, tx, BlockedUnknown);
      if !s.frozen {
        assert g.cancels[..|g.cancels|] == g.cancels;
        CancelAllSends(s, begun, tx, g, |g.cancels|, w, exchangeId);
        var cancels := CancelAll(begun, Some(tx), g.cancels, w);
        if !cancels.raised {
          AfterCancelsSends(s, cancels.state, tx, g, w, exchangeId);
          AddsMeantTwice(s, ReplaceOp(tx, g, w), s.trace, cancels.state.trace, Replace(s, tx, g, w, exchangeId).trace, exchangeId);
        }
      }
    }
  }

  /** Every operation makes only the calls it means to make. */
  lemma {:induction false} NextSends(s: State, op: Op, exchangeId: Action -> string)
    ensures AddsMeant(s, op, s.trace, Next(s, op, exchangeId).trace, exchangeId)
  {
    match op
    case ReplaceOp(tx, g, w) => ReplaceSends(s, tx, g, w, exchangeId);
    case CancelOp(a, w) =>
      var call := CancelSends(s, None, a, w, w.cancelReplies(0));
      OneMeant(s, op, s.trace, Next(s, op, exchangeId).trace, call, exchangeId);
    case SubmitOp(a, w) =>
      var call := SubmitSends(s, None, a, w, exchangeId);
      OneMeant(s, op, s.trace, Next(s, op, exchangeId).trace, call, exchangeId);
    case OthersOp(_, _) =>
  }

  /** Some operation of the run meant to make the call, in the state it found. */
  ghost predicate MeantInRun(ops: seq<Op>, call: Call, exchangeId: Action -> string) {
    exists k :: 0 <= k < |ops| && Meant(Run(START, ops[..k], exchangeId), ops[k], call, exchangeId)
  }

  lemma {:induction false} MeantEarlier(ops: seq<Op>, call: Call, exchangeId: Action -> string)
    requires ops != [] && MeantInRun(ops[..|ops| - 1], call, exchangeId)
    ensures MeantInRun(ops, call, exchangeId)
  {
    var before := ops[..|ops| - 1];
    var k :| 0 <= k < |before| && Meant(Run(START, before[..k], exchangeId), before[k], call, exchangeId);
    assert before[..k] == ops[..k];
  }

  lemma {:induction false} EveryCallIsMeant(ops: seq<Op>, exchangeId: Action -> string)
    ensures forall i :: 0 <= i < |Run(START, ops, exchangeId).trace| ==> MeantInRun(ops, Run(START, ops, exchangeId).trace[i], exchangeId)
  {
    if ops != [] {
      var n := |ops| - 1;
      var before, after := Run(START, ops[..n], exchangeId), Run(START, ops, exchangeId);
      EveryCallIsMeant(ops[..n], exchangeId);
      NextSends(before, ops[n], exchangeId);
      forall i | 0 <= i < |after.trace| ensures MeantInRun(ops, after.trace[i], exchangeId) {
        if i < |before.trace| {
          assert after.trace[i] == before.trace[i];
          MeantEarlier(ops, after.trace[i], exchangeId);
        }
      }
    }
  }

  // --- safety over runs

  /** A transaction's submit comes right after a listing without any of its old ids. */
  ghost predicate SubmitAfterListing(s: State, i: int)
    requires 0 <= i < |s.trace|
  {
    var call := s.trace[i];
    call.SubmitCall? && call.tx.Some? ==>
      && i > 0 && s.trace[i - 1].ListCall? && s.trace[i - 1].tx == call.tx && s.trace[i - 1].open.Some?
      && call.tx.value in s.txs && s.trace[i - 1].open.value !! AsSet(s.txs[call.tx.value].oldIds)
  }

  /** Once the exchange has answered a transaction's submit for good, the transaction is final and calls no more. */
  ghost predicate SettledIsLast(s: State, i: int)
    requires 0 <= i < |s.trace|
  {
    var call := s.trace[i];
    call.SubmitCall? && call.tx.Some? && Settled(call.reply) ==>
      && call.tx.value in s.txs && Final(s.txs[call.tx.value].state)
      && forall j :: i < j < |s.trace| ==> s.trace[j].tx != call.tx
  }

  ghost predicate Inv(s: State) {
    forall i :: 0 <= i < |s.trace| ==> SubmitAfterListing(s, i) && SettledIsLast(s, i)
  }

  lemma {:induction false} OldIdsAre(cancels: seq<Action>, id: string)
    ensures id in OldIds(cancels) <==> exists i :: 0 <= i < |cancels| && cancels[i].clientOrderId == id && id != ""
  {
    if cancels != [] {
      OldIdsAre(cancels[1..], id);
      if i :| 0 <= i < |cancels[1..]| && cancels[1..][i].clientOrderId == id {
        assert cancels[i + 1].clientOrderId == id;
      }
      if i :| 0 <= i < |cancels| && cancels[i].clientOrderId == id {
        assert i > 0 ==> cancels[1..][i - 1].clientOrderId == id;
      }
    }
  }

  lemma {:induction false} ClearOfOldIds(s: State, g: Group, open: set<string>)
    requires AllGone(s, g.cancels, open)
    ensures open !! AsSet(OldIds(g.cancels))
  {
    forall id | id in OldIds(g.cancels) ensures id !in open {
      OldIdsAre(g.cancels, id);
    }
  }

  /** Earlier calls keep what they had when a step adds calls of one transaction that was not final. */
  lemma {:induction false} OldCallsKept(s: State, s': State, tx: string, i: int)
    requires Inv(s) && OnlyTx(s, s', tx) && CallsOf(s.trace, s'.trace, tx) && 0 <= i < |s.trace|
    requires tx in s.txs ==> !Final(s.txs[tx].state)
    ensures SubmitAfterListing(s', i) && SettledIsLast(s', i)
  {
    assert forall j :: 0 <= j < |s.trace| ==> s'.trace[j] == s.trace[j];
    assert SubmitAfterListing(s, i) && SettledIsLast(s, i);
  }

  lemma {:induction false} NewCallsSafe(s: State, s': State, tx: string, g: Group, i: int)
    requires SubmitsSafely(s, s', tx, g) && |s.trace| <= i < |s'.trace|
    requires tx in s'.txs && AsSet(s'.txs[tx].oldIds) == AsSet(OldIds(g.cancels))
    ensures SubmitAfterListing(s', i) && SettledIsLast(s', i)
  {
    if s'.trace[i].SubmitCall? {
      ClearOfOldIds(s, g, s'.trace[i - 1].open.value);
    }
  }

  lemma {:induction false} ReplaceKeepsInv(s: State, tx: string, g: Group, w: World, exchangeId: Action -> string)
    requires Inv(s)
    ensures Inv(Replace(s, tx, g, w, exchangeId))
  {
    var s' := Replace(s, tx, g, w, exchangeId);
    ReplaceEffects(s, tx, g, w, exchangeId);
    if Proceeds(s, tx, g) {
      forall i | 0 <= i < |s'.trace| ensures SubmitAfterListing(s', i) && SettledIsLast(s', i) {
        if i < |s.trace| {
          OldCallsKept(s, s', tx, i);
        } else {
          NewCallsSafe(s, s', tx, g, i);
        }
      }
    }
  }

  /** A step that belongs to no transaction. */
  lemma {:induction false} OtherStepKeepsInv(s: State, s': State)
    requires Inv(s) && s'.txs == s.txs && |s.trace| <= |s'.trace| && s'.trace[..|s.trace|] == s.trace
    requires forall i :: |s.trace| <= i < |s'.trace| ==> s'.trace[i].tx.None?
    ensures Inv(s')
  {
    assert forall j :: 0 <= j < |s.trace| ==> s'.trace[j] == s.trace[j];
    forall i | 0 <= i < |s'.trace| ensures SubmitAfterListing(s', i) && SettledIsLast(s', i) {
      if i < |s.trace| {
        assert SubmitAfterListing(s, i) && SettledIsLast(s, i);
      }
    }
  }

  lemma {:induction false} NextKeepsInv(s: State, op: Op, exchangeId: Action -> string)
    requires Inv(s)
    ensures Inv(Next(s, op, exchangeId))
  {
    match op
    case ReplaceOp(tx, g, w) => ReplaceKeepsInv(s, tx, g, w, exchangeId);
    case CancelOp(a, w) =>
      CancelEffects(s, None, a, w, w.cancelReplies(0));
      OtherStepKeepsInv(s, Next(s, op, exchangeId));
    case SubmitOp(a, w) =>
      SubmitEffects(s, None, a, w, exchangeId);
      OtherStepKeepsInv(s, Next(s, op, exchangeId));
    case OthersOp(_, _) => OtherStepKeepsInv(s, Next(s, op, exchangeId));
  }

  /**
   Replace safety over every run, with any replies and any writes by others in between: every submit of
   a transaction comes right after a listing without any of the transaction's old ids, once the exchange
   has acknowledged or rejected it no further call is made for the transaction, and every call at all is
   one that some operation means to make: a submit carries the ids of its action and a price and quantity
   that may be sent for it, a cancel the order its action names or the stored row has.
   */
  lemma {:induction false} EveryRunIsSafe(ops: seq<Op>, exchangeId: Action -> string)
    ensures Inv(Run(START, ops, exchangeId))
    ensures forall i :: 0 <= i < |Run(START, ops, exchangeId).trace| ==> MeantInRun(ops, Run(START, ops, exchangeId).trace[i], exchangeId)
  {
    EveryCallIsMeant(ops, exchangeId);
    if ops != [] {
      EveryRunIsSafe(ops[..|ops| - 1], exchangeId);
      NextKeepsInv(Run(START, ops[..|ops| - 1], exchangeId), ops[|ops| - 1], exchangeId);
    }
  }

  /**
   One call, from any state: a call that submits makes exactly two exchange calls, a listing that shows
   none of the old orders and the submit, and finds every old order locally terminal when it starts. So
   a call that sends a cancel never sends the submit.
   */
  lemma {:induction false} SubmitNeedsClearListing(s: State, tx: string, g: Group, w: World, exchangeId: Action -> string)
    ensures SubmitsSafely(s, Replace(s, tx, g, w, exchangeId), tx, g)
  {
    ReplaceEffects(s, tx, g, w, exchangeId);
  }

  /** A final transaction stays as it is, and no step makes an exchange call for it. */
  lemma {:induction false} FinalStep(s: State, op: Op, exchangeId: Action -> string, tx: string)
    requires tx in s.txs && Final(s.txs[tx].state)
    ensures var s' := Next(s, op, exchangeId);
            && tx in s'.txs && s'.txs[tx] == s.txs[tx]
            && |s.trace| <= |s'.trace| && s'.trace[..|s.trace|] == s.trace
            && forall i :: |s.trace| <= i < |s'.trace| ==> s'.trace[i].tx != Some(tx)
  {
    match op
    case ReplaceOp(t, g, w) => ReplaceEffects(s, t, g, w, exchangeId);
    case CancelOp(a, w) => CancelEffects(s, None, a, w, w.cancelReplies(0));
    case SubmitOp(a, w) => SubmitEffects(s, None, a, w, exchangeId);
    case OthersOp(_, _) =>
  }

  /** Once SUBMIT_CONFIRMED or FAILED, a transaction makes no further exchange call, however the run goes on. */
  lemma {:induction false} FinalForever(s: State, ops: seq<Op>, exchangeId: Action -> string, tx: string)
    requires tx in s.txs && Final(s.txs[tx].state)
    ensures var s' := Run(s, ops, exchangeId);
            && tx in s'.txs && s'.txs[tx] == s.txs[tx]
            && |s.trace| <= |s'.trace| && s'.trace[..|s.trace|] == s.trace
            && forall i :: |s.trace| <= i < |s'.trace| ==> s'.trace[i].tx != Some(tx)
  {
    if ops != [] {
      var n := |ops| - 1;
      FinalForever(s, ops[..n], exchangeId, tx);
      var before := Run(s, ops[..n], exchangeId);
      FinalStep(before, ops[n], exchangeId, tx);
      var s' := Run(s, ops, exchangeId);
      assert s'.trace[..|s.trace|] == before.trace[..|s.trace|];
      assert forall i :: |s.trace| <= i < |before.trace| ==> s'.trace[i] == before.trace[i];
    }
  }

  // --- what the listing check does not see

  /**
   The listing carries exchange client ids, the check looks for internal ones. When all old orders are
   locally terminal, the check blocks exactly if a listed id is itself one of the old internal ids.
   */
  lemma {:induction false} ListingCheckComparesInternalIds(s: State, g: Group, listing: seq<string>)
    requires forall i :: 0 <= i < |g.cancels| && g.cancels[i].clientOrderId != "" ==> IsTerminal(s, g.cancels[i].clientOrderId)
    ensures Confirm(s, g, Some(listing)).Confirmed? <==> OpenIds(listing) !! AsSet(OldIds(g.cancels))
  {
    ConfirmedExactly(s, g.cancels, OpenIds(listing));
    forall id ensures id in OldIds(g.cancels) <==> exists i :: 0 <= i < |g.cancels| && g.cancels[i].clientOrderId == id && id != "" {
      OldIdsAre(g.cancels, id);
    }
  }

  /** The old orders, still open at the exchange under the ids they were submitted with. */
  function ListedAs(cancels: seq<Action>, exchangeId: Action -> string): seq<string> {
    seq(|cancels|, i requires 0 <= i < |cancels| => exchangeId(cancels[i]))
  }

  /**
   So old orders the exchange still lists under their own exchange ids are missed, exactly when none of
   those ids is also one of the internal ids. Exchange ids carry a prefix of their own, so this is the
   rule and not the exception.
   */
  lemma {:induction false} OpenOldOrdersAreMissed(s: State, g: Group, exchangeId: Action -> string)
    requires forall i :: 0 <= i < |g.cancels| ==> exchangeId(g.cancels[i]) != ""
    requires forall i :: 0 <= i < |g.cancels| && g.cancels[i].clientOrderId != "" ==> IsTerminal(s, g.cancels[i].clientOrderId)
    ensures Confirm(s, g, Some(ListedAs(g.cancels, exchangeId))).Confirmed?
            <==> forall i :: 0 <= i < |g.cancels| ==> exchangeId(g.cancels[i]) !in OldIds(g.cancels)
  {
    var listing := ListedAs(g.cancels, exchangeId);
    ListingCheckComparesInternalIds(s, g, listing);
    forall i | 0 <= i < |g.cancels| ensures exchangeId(g.cancels[i]) in OpenIds(listing) {
      assert listing[i] == exchangeId(g.cancels[i]);
    }
  }

  /** All old orders are locally terminal. */
  predicate AllTerminal(s: State, cancels: seq<Action>) {
    forall i :: 0 <= i < |cancels| && cancels[i].clientOrderId != "" ==> IsTerminal(s, cancels[i].clientOrderId)
  }

  lemma {:induction false} NothingToCancel(s: State, tx: Option<string>, cancels: seq<Action>, w: World)
    requires AllTerminal(s, cancels)
    ensures CancelAll(s, tx, cancels, w) == Step(s, 0, false)
  {
    if cancels != [] {
      NothingToCancel(s, tx, cancels[..|cancels| - 1], w);
    }
  }

  /** Live, with every gate open, no order in flight under its ids, and an order of valid size. */
  predicate GatesOpen(s: State, w: World, a: Action) {
    && w.live && w.writesAllowed && w.gate.GateOpen? && !Dedupes(s, w) && w.rules.Some?
    && SizeAction(a.price, a.qty, w.configuredMin, w.cap, w.rules.value).Order?
  }

  /** Nothing was added, or only a submit with the given reply. */
  ghost predicate Submits(s: State, s': State, reply: SubmitReply, yes: bool) {
    if yes then
      && |s'.trace| == |s.trace| + 1 && s'.trace[..|s.trace|] == s.trace
      && s'.trace[|s.trace|].SubmitCall? && s'.trace[|s.trace|].reply == reply
    else s'.trace == s.trace
  }

  lemma {:induction false} SubmitGoesOut(s: State, tx: Option<string>, a: Action, w: World, exchangeId: Action -> string)
    requires !s.frozen && a.clientOrderId != ""
    ensures Submits(s, Submit(s, tx, a, w, exchangeId).state, w.submitReply, GatesOpen(s, w, a))
  {
  }

  lemma {:induction false} ConcludeTrace(r: Submission, tx: string)
    ensures Conclude(r, tx).trace == r.state.trace
  {
  }

  lemma {:induction false} AfterConfirmSubmits(s: State, tx: string, g: Group, w: World, exchangeId: Action -> string)
    requires !s.frozen && g.submit.clientOrderId != ""
    ensures Submits(s, AfterConfirm(s, tx, g, w, exchangeId), w.submitReply, GatesOpen(s, w, g.submit))
  {
    var confirmed := UpdateTx(s, tx, CancelConfirmed);
    var sent := UpdateTx(confirmed, tx, SubmitSent);
    UpdateTxEffects(s, tx, CancelConfirmed);
    UpdateTxEffects(confirmed, tx, SubmitSent);
    SubmitGoesOut(sent, Some(tx), g.submit, w, exchangeId);
    ConcludeTrace(Submit(sent, Some(tx), g.submit, w, exchangeId), tx);
  }

  /** The listing succeeded and shows none of the old internal ids. */
  predicate ClearListing(w: World, g: Group) {
    w.listing.Some? && OpenIds(w.listing.value) !! AsSet(OldIds(g.cancels))
  }

  /** A step sent a submit. */
  ghost predicate AddsSubmit(s: State, s': State) {
    exists i :: |s.trace| <= i < |s'.trace| && s'.trace[i].SubmitCall?
  }

  lemma {:induction false} AfterCancelsSubmits(s: State, tx: string, g: Group, w: World, exchangeId: Action -> string)
    requires !s.frozen && g.submit.clientOrderId != "" && AllTerminal(s, g.cancels)
    ensures AddsSubmit(s, AfterCancels(s, tx, g, w, exchangeId)) <==> ClearListing(w, g) && GatesOpen(s, w, g.submit)
  {
    var sent := UpdateTx(s, tx, CancelSent);
    UpdateTxEffects(s, tx, CancelSent);
    var listed := Listed(sent, tx, g, w.listing);
    var s' := AfterCancels(s, tx, g, w, exchangeId);
    if w.listing.Some? {
      ListingCheckComparesInternalIds(listed, g, w.listing.value);
    }
    if Confirm(listed, g, w.listing).Confirmed? {
      AfterConfirmSubmits(listed, tx, g, w, exchangeId);
      ListedThenSubmitted(s, listed, s', w.submitReply, GatesOpen(listed, w, g.submit));
    } else {
      UpdateTxEffects(listed, tx, BlockedReconcile);
    }
  }

  lemma {:induction false} ListedThenSubmitted(s: State, listed: State, s': State, reply: SubmitReply, yes: bool)
    requires |listed.trace| == |s.trace| + 1 && listed.trace[|s.trace|].ListCall? && Submits(listed, s', reply, yes)
    ensures AddsSubmit(s, s') <==> yes
  {
  }

  /**
   Exactly when a call submits: it gets past the stored row, there is no freeze, the old orders are
   locally terminal, the listing shows none of their internal ids, and the gates are open.
   */
  lemma {:induction false} SubmitsExactly(s: State, tx: string, g: Group, w: World, exchangeId: Action -> string)
    ensures AddsSubmit(s, Replace(s, tx, g, w, exchangeId))
       <==> Ready(s, tx, g, w)
  {
    var begun := Begin(s, tx, g);
    BeginEffects(s, tx, g);
    ReplaceEffects(s, tx, g, w, exchangeId);
    if Proceeds(s, tx, g) && !s.frozen && AllTerminal(s, g.cancels) {
      NothingToCancel(begun, Some(tx), g.cancels, w);
      AfterCancelsSubmits(begun, tx, g, w, exchangeId);
    } else if !AllTerminal(s, g.cancels) {
      NoSubmitWhileOpen(s, Replace(s, tx, g, w, exchangeId), tx, g);
    } else if Proceeds(s, tx, g) {
      UpdateTxEffects(begun, tx, BlockedUnknown);
    }
  }

  lemma {:induction false} NoSubmitWhileOpen(s: State, s': State, tx: string, g: Group)
    requires SubmitsSafely(s, s', tx, g) && !AllTerminal(s, g.cancels)
    ensures !AddsSubmit(s, s')
  {
  }

  /** In particular when the listing shows every old order open, under exchange ids that are no internal ids. */
  lemma {:induction false} ReplacedWhileStillOpen(s: State, tx: string, g: Group, w: World, exchangeId: Action -> string)
    requires Proceeds(s, tx, g) && !s.frozen && GatesOpen(s, w, g.submit) && AllTerminal(s, g.cancels)
    requires w.listing == Some(ListedAs(g.cancels, exchangeId))
    requires forall i :: 0 <= i < |g.cancels| ==> exchangeId(g.cancels[i]) !in OldIds(g.cancels)
    ensures AddsSubmit(s, Replace(s, tx, g, w, exchangeId))
  {
    SubmitsExactly(s, tx, g, w, exchangeId);
  }

  // --- the next call on the same transaction

  /** A symbol that is upper case apart from its underscores. */
  predicate StableSymbol(symbol: string) {
    Upper(AverageCost.Without(symbol, '_')) == AverageCost.Without(symbol, '_')
  }

  lemma {:induction false} WithoutAbsent(s: string, c: char)
    requires c !in s
    ensures AverageCost.Without(s, c) == s
  {
    if s != [] {
      WithoutAbsent(s[1..], c);
    }
  }

  lemma {:induction false} WithoutRemoves(s: string, c: char)
    ensures c !in AverageCost.Without(s, c)
  {
    if s != [] {
      WithoutRemoves(s[1..], c);
    }
  }

  /** The stored symbol is compared without underscores, but as it was given: case matters. */
  lemma {:induction false} StoredSymbolMatches(symbol: string)
    ensures AverageCost.Without(AverageCost.Normalize(symbol), '_') == AverageCost.Without(symbol, '_') <==> StableSymbol(symbol)
  {
    var bare := AverageCost.Without(symbol, '_');
    WithoutRemoves(symbol, '_');
    forall i | 0 <= i < |Upper(bare)| ensures Upper(bare)[i] != '_' {
      assert bare[i] in bare;
    }
    WithoutAbsent(Upper(bare), '_');
  }

  /** A transaction the next call can find: stored before with the same metadata, or under a stable symbol. */
  predicate Recognized(s: State, tx: string, g: Group) {
    tx in s.txs || StableSymbol(g.symbol)
  }

  /** The stored row after a call that got past it. */
  lemma {:induction false} RowAfter(s: State, tx: string, g: Group, w: World, exchangeId: Action -> string)
    requires Proceeds(s, tx, g)
    ensures var s' := Replace(s, tx, g, w, exchangeId);
            tx in s'.txs && (SameMetadata(s'.txs[tx], g) <==> Recognized(s, tx, g))
  {
    BeginEffects(s, tx, g);
    StoredSymbolMatches(g.symbol);
    RowKept(s, tx, g, w, exchangeId);
  }

  lemma {:induction false} RowKept(s: State, tx: string, g: Group, w: World, exchangeId: Action -> string)
    requires Proceeds(s, tx, g)
    ensures OnlyTx(Begin(s, tx, g), Replace(s, tx, g, w, exchangeId), tx)
  {
    var begun, s' := Begin(s, tx, g), Replace(s, tx, g, w, exchangeId);
    BeginEffects(s, tx, g);
    if s.frozen {
      UpdateTxEffects(begun, tx, BlockedUnknown);
    } else {
      var cancels := CancelAll(begun, Some(tx), g.cancels, w);
      CancelAllEffects(begun, Some(tx), g.cancels, w);
      if !cancels.raised {
        AfterCancelsEffects(cancels.state, tx, g, w, exchangeId);
        OnlyTxTwice(begun, cancels.state, s', tx);
      }
    }
  }

  /**
   Whether the next call on a transaction can go on: exactly when this one did not end it and its row is
   recognized. A symbol that is not upper case is normalized when stored and never recognized again.
   */
  lemma {:induction false} NextCallProceeds(s: State, tx: string, g: Group, w: World, exchangeId: Action -> string)
    requires Proceeds(s, tx, g)
    ensures var s' := Replace(s, tx, g, w, exchangeId);
            tx in s'.txs && (Proceeds(s', tx, g) <==> Recognized(s, tx, g) && !Final(s'.txs[tx].state))
  {
    RowAfter(s, tx, g, w, exchangeId);
  }

  lemma {:induction false} NextKeepsRows(s: State, op: Op, exchangeId: Action -> string, tx: string)
    requires tx in s.txs
    ensures var s' := Next(s, op, exchangeId);
            tx in s'.txs && SameRow(s.txs[tx], s'.txs[tx])
  {
    match op
    case ReplaceOp(t, g, w) => ReplaceEffects(s, t, g, w, exchangeId);
    case CancelOp(a, w) => CancelEffects(s, None, a, w, w.cancelReplies(0));
    case SubmitOp(a, w) => SubmitEffects(s, None, a, w, exchangeId);
    case OthersOp(_, _) =>
  }

  lemma {:induction false} RunKeepsRows(s: State, ops: seq<Op>, exchangeId: Action -> string, tx: string)
    requires tx in s.txs
    ensures var s' := Run(s, ops, exchangeId);
            tx in s'.txs && SameRow(s.txs[tx], s'.txs[tx])
  {
    if ops != [] {
      var n := |ops| - 1;
      RunKeepsRows(s, ops[..n], exchangeId, tx);
      NextKeepsRows(Run(s, ops[..n], exchangeId), ops[n], exchangeId, tx);
    }
  }

  /**
   A replacement of a symbol that is not upper case gets one call: after its first call, however the run
   goes on, no call on the transaction has any effect. If the first call only cancelled, the
   replacement is never submitted.
   */
  lemma {:induction false} UnstableSymbolGetsOneCall(s: State, tx: string, g: Group, first: World, ops: seq<Op>, w: World, exchangeId: Action -> string)
    requires Complete(g) && tx !in s.txs && !StableSymbol(g.symbol)
    ensures var later := Run(Replace(s, tx, g, first, exchangeId), ops, exchangeId);
            Replace(later, tx, g, w, exchangeId) == later
  {
    var s' := Replace(s, tx, g, first, exchangeId);
    RowAfter(s, tx, g, first, exchangeId);
    RunKeepsRows(s', ops, exchangeId, tx);
  }

  /** The dedupe query answers truthfully: a row under the order's internal or exchange id, or none when there is none. */
  ghost predicate QueryAnswers(s: State, a: Action, w: World, exchangeId: Action -> string) {
    match w.found
    case Some(id) => Carries(s, id, a, exchangeId)
    case None => forall id :: !Carries(s, id, a, exchangeId)
  }

  ghost predicate Carries(s: State, id: string, a: Action, exchangeId: Action -> string) {
    id in s.orders && (id == a.clientOrderId || s.orders[id].exchangeClientId == Some(exchangeId(a)))
  }

  /** No other order carries the exchange id of this one. */
  ghost predicate OwnExchangeId(s: State, a: Action, exchangeId: Action -> string) {
    forall id :: Carries(s, id, a, exchangeId) ==> id == a.clientOrderId
  }

  /** What makes a call submit. */
  predicate Ready(s: State, tx: string, g: Group, w: World) {
    Proceeds(s, tx, g) && !s.frozen && AllTerminal(s, g.cancels) && ClearListing(w, g) && GatesOpen(s, w, g.submit)
  }

  /**
   The second call on a transaction, after a first one with any answers and whatever others wrote since:
   it submits exactly when the first call did not end the transaction, the row is recognized, the old
   orders have become locally terminal, and freeze, listing and gates allow it.
   */
  lemma {:induction false} SecondCallSubmits(s: State, tx: string, g: Group, first: World, orders: map<string, OrderRow>, frozen: bool,
                          w: World, exchangeId: Action -> string)
    requires Proceeds(s, tx, g)
    ensures var s' := Replace(s, tx, g, first, exchangeId);
            var between := s'.(orders := orders, frozen := frozen);
            && tx in s'.txs
            && (AddsSubmit(between, Replace(between, tx, g, w, exchangeId))
                <==> Recognized(s, tx, g) && !Final(s'.txs[tx].state) && !frozen && AllTerminal(between, g.cancels)
                     && ClearListing(w, g) && GatesOpen(between, w, g.submit))
  {
    NextCallProceeds(s, tx, g, first, exchangeId);
    var between := Replace(s, tx, g, first, exchangeId).(orders := orders, frozen := frozen);
    SubmitsExactly(between, tx, g, w, exchangeId);
  }

  /** What an uncertain submit leaves: the new order unknown, the transaction sent and not final. */
  ghost predicate LeftUncertain(s: State, s': State, tx: string, id: string) {
    && s'.orders == RecordStatus(s, id, Unknown).orders && s'.frozen == s.frozen
    && tx in s'.txs && !Final(s'.txs[tx].state)
  }

  lemma {:induction false} SubmitLeavesUncertain(s: State, tx: Option<string>, a: Action, w: World, exchangeId: Action -> string)
    requires !s.frozen && a.clientOrderId != "" && GatesOpen(s, w, a) && w.submitReply.SubmitUncertain?
    ensures var r := Submit(s, tx, a, w, exchangeId);
            && r.state.orders == RecordStatus(s, a.clientOrderId, Unknown).orders && r.state.txs == s.txs
            && r.state.frozen == s.frozen && !r.raised && r.submitted == 0 && r.simulated == 0 && r.rejected == 0
  {
  }

  lemma {:induction false} AfterConfirmUncertain(s: State, tx: string, g: Group, w: World, exchangeId: Action -> string)
    requires tx in s.txs && !Final(s.txs[tx].state) && !s.frozen && g.submit.clientOrderId != ""
    requires GatesOpen(s, w, g.submit) && w.submitReply.SubmitUncertain?
    ensures LeftUncertain(s, AfterConfirm(s, tx, g, w, exchangeId), tx, g.submit.clientOrderId)
  {
    var confirmed := UpdateTx(s, tx, CancelConfirmed);
    var sent := UpdateTx(confirmed, tx, SubmitSent);
    UpdateTxEffects(s, tx, CancelConfirmed);
    UpdateTxEffects(confirmed, tx, SubmitSent);
    SubmitLeavesUncertain(sent, Some(tx), g.submit, w, exchangeId);
  }

  lemma {:induction false} CallLeavesUncertain(s: State, tx: string, g: Group, w: World, exchangeId: Action -> string)
    requires Ready(s, tx, g, w) && w.submitReply.SubmitUncertain?
    ensures LeftUncertain(s, Replace(s, tx, g, w, exchangeId), tx, g.submit.clientOrderId)
  {
    var begun := Begin(s, tx, g);
    BeginEffects(s, tx, g);
    NothingToCancel(begun, Some(tx), g.cancels, w);
    var sent := UpdateTx(begun, tx, CancelSent);
    UpdateTxEffects(begun, tx, CancelSent);
    var listed := Listed(sent, tx, g, w.listing);
    ListingCheckComparesInternalIds(listed, g, w.listing.value);
    AfterConfirmUncertain(listed, tx, g, w, exchangeId);
  }

  /** An unknown row does not stop a second submit of the same order. */
  lemma {:induction false} UnknownIsNotDeduped(s: State, s': State, a: Action, w: World, exchangeId: Action -> string)
    requires a.clientOrderId != "" && s'.orders == RecordStatus(s, a.clientOrderId, Unknown).orders
    requires OwnExchangeId(s, a, exchangeId) && QueryAnswers(s', a, w, exchangeId)
    ensures !Dedupes(s', w)
  {
    assert Carries(s', a.clientOrderId, a, exchangeId);
    forall id | Carries(s', id, a, exchangeId) ensures id == a.clientOrderId {
      assert id != a.clientOrderId ==> Carries(s, id, a, exchangeId);
    }
  }

  /** The gates apart from the dedupe query. */
  predicate WorldOpen(w: World, a: Action) {
    && w.live && w.writesAllowed && w.gate.GateOpen? && w.rules.Some?
    && SizeAction(a.price, a.qty, w.configuredMin, w.cap, w.rules.value).Order?
  }

  /**
   A replacement whose submit ended uncertain is submitted again by the next call exactly when no freeze
   was set in between, the row is recognized, the new order is none of the old ones, and listing and
   gates allow it. The store's dedupe query does not stop it: the order is recorded as unknown.
   */
  lemma {:induction false} UncertainIsSubmittedAgain(s: State, tx: string, g: Group, first: World, frozen: bool, w: World, exchangeId: Action -> string)
    requires Ready(s, tx, g, first) && first.submitReply.SubmitUncertain? && OwnExchangeId(s, g.submit, exchangeId)
    requires QueryAnswers(Replace(s, tx, g, first, exchangeId), g.submit, w, exchangeId)
    ensures var between := Replace(s, tx, g, first, exchangeId).(frozen := frozen);
            AddsSubmit(between, Replace(between, tx, g, w, exchangeId))
            <==> !frozen && Recognized(s, tx, g) && g.submit.clientOrderId !in OldIds(g.cancels)
                 && ClearListing(w, g) && WorldOpen(w, g.submit)
  {
    CallLeavesUncertain(s, tx, g, first, exchangeId);
    NextCallProceeds(s, tx, g, first, exchangeId);
    AfterUncertain(s, Replace(s, tx, g, first, exchangeId), tx, g, frozen, w, exchangeId);
  }

  /** The same, from whatever state the uncertain submit left. */
  lemma {:induction false} AfterUncertain(s: State, s': State, tx: string, g: Group, frozen: bool, w: World, exchangeId: Action -> string)
    requires LeftUncertain(s, s', tx, g.submit.clientOrderId) && g.submit.clientOrderId != "" && AllTerminal(s, g.cancels)
    requires Proceeds(s', tx, g) <==> Recognized(s, tx, g)
    requires OwnExchangeId(s, g.submit, exchangeId) && QueryAnswers(s', g.submit, w, exchangeId)
    ensures var between := s'.(frozen := frozen);
            AddsSubmit(between, Replace(between, tx, g, w, exchangeId))
            <==> !frozen && Recognized(s, tx, g) && g.submit.clientOrderId !in OldIds(g.cancels)
                 && ClearListing(w, g) && WorldOpen(w, g.submit)
  {
    var between := s'.(frozen := frozen);
    SubmitsExactly(between, tx, g, w, exchangeId);
    UnknownIsNotDeduped(s, s', g.submit, w, exchangeId);
    TerminalAfterUncertain(s, between, g);
  }

  lemma {:induction false} TerminalAfterUncertain(s: State, s': State, g: Group)
    requires AllTerminal(s, g.cancels) && g.submit.clientOrderId != ""
    requires s'.orders == RecordStatus(s, g.submit.clientOrderId, Unknown).orders
    ensures AllTerminal(s', g.cancels) <==> g.submit.clientOrderId !in OldIds(g.cancels)
  {
    OldIdsAre(g.cancels, g.submit.clientOrderId);
  }
}
