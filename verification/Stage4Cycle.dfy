/**
 One stage 4 cycle: lifecycle actions are sorted into single actions and replace groups, the kill switch
 and the freeze filter them, and what is left is carried out in order.
 */
module Stage4Cycle {
  import opened Results
  import opened ReplaceProtocol

  datatype Kind = CancelKind | SubmitKind | OtherKind

  datatype Lifecycle = Lifecycle(kind: Kind, reason: string, action: Action)

  datatype Key = Key(symbol: string, side: string)

  function KeyOf(l: Lifecycle): Key {
    Key(l.action.symbol, l.action.side)
  }

  predicate ReplacesCancel(l: Lifecycle) {
    l.kind.CancelKind? && l.reason == "replace_cancel"
  }

  predicate ReplacesSubmit(l: Lifecycle) {
    l.kind.SubmitKind? && l.reason == "replace_submit"
  }

  datatype Bucket = Bucket(key: Key, cancels: seq<Lifecycle>, submits: seq<Lifecycle>, others: seq<Lifecycle>)

  predicate IsReplace(b: Bucket) {
    b.cancels != [] && b.submits != []
  }

  // --- replace groups

  /** The actions of one key that a predicate selects, in order. */
  function Select(actions: seq<Lifecycle>, key: Key, p: Lifecycle -> bool): seq<Lifecycle> {
    if actions == [] then []
    else
      var n := |actions| - 1;
      Select(actions[..n], key, p) + if KeyOf(actions[n]) == key && p(actions[n]) then [actions[n]] else []
  }

  predicate ReplacesNothing(l: Lifecycle) {
    !ReplacesCancel(l) && !ReplacesSubmit(l)
  }

  function BucketOf(actions: seq<Lifecycle>, key: Key): Bucket {
    Bucket(key, Select(actions, key, ReplacesCancel), Select(actions, key, ReplacesSubmit),
           Select(actions, key, ReplacesNothing))
  }

  /** The keys that occur, each once, in the order they first occur. */
  function Keys(actions: seq<Lifecycle>): seq<Key> {
    if actions == [] then []
    else
      var n := |actions| - 1;
      var before := Keys(actions[..n]);
      if KeyOf(actions[n]) in before then before else before + [KeyOf(actions[n])]
  }

  /** Single actions: those that replace nothing, and replacements that lack a counterpart. */
  function Regular(actions: seq<Lifecycle>, keys: seq<Key>): seq<Lifecycle> {
    if keys == [] then []
    else
      var n := |keys| - 1;
      var b := BucketOf(actions, keys[n]);
      Regular(actions, keys[..n]) + b.others + if IsReplace(b) then [] else b.cancels + b.submits
  }

  function Groups(actions: seq<Lifecycle>, keys: seq<Key>): seq<Bucket> {
    if keys == [] then []
    else
      var n := |keys| - 1;
      var b := BucketOf(actions, keys[n]);
      Groups(actions, keys[..n]) + if IsReplace(b) then [b] else []
  }

  function Add(b: Bucket, l: Lifecycle): Bucket {
    if ReplacesCancel(l) then b.(cancels := b.cancels + [l])
    else if ReplacesSubmit(l) then b.(submits := b.submits + [l])
    else b.(others := b.others + [l])
  }

  lemma {:induction false} SelectNext(actions: seq<Lifecycle>, l: Lifecycle, key: Key, p: Lifecycle -> bool)
    ensures Select(actions + [l], key, p)
         == if KeyOf(l) == key && p(l) then Select(actions, key, p) + [l] else Select(actions, key, p)
  {
    assert (actions + [l])[..|actions|] == actions;
    assert Select(actions, key, p) + [] == Select(actions, key, p);
  }

  lemma {:induction false} BucketNext(actions: seq<Lifecycle>, l: Lifecycle, key: Key)
    ensures BucketOf(actions + [l], key)
         == if KeyOf(l) == key then Add(BucketOf(actions, key), l) else BucketOf(actions, key)
  {
    SelectNext(actions, l, key, ReplacesCancel);
    SelectNext(actions, l, key, ReplacesSubmit);
    SelectNext(actions, l, key, ReplacesNothing);
  }

  lemma {:induction false} UnseenKey(actions: seq<Lifecycle>, key: Key)
    requires key !in Keys(actions)
    ensures BucketOf(actions, key) == Bucket(key, [], [], [])
  {
    if actions != [] {
      var n := |actions| - 1;
      UnseenKey(actions[..n], key);
      assert KeyOf(actions[n]) in Keys(actions);
    }
  }

  /** The dictionary of buckets, filled action by action. */
  method FillBuckets(actions: seq<Lifecycle>) returns (order: seq<Key>, buckets: map<Key, Bucket>)
    ensures order == Keys(actions)
    ensures forall key :: key in buckets <==> key in order
    ensures forall key :: key in buckets ==> buckets[key] == BucketOf(actions, key)
  {
    order, buckets := [], map[];
    for i := 0 to |actions|
      invariant order == Keys(actions[..i])
      invariant forall key :: key in buckets <==> key in order
      invariant forall key :: key in buckets ==> buckets[key] == BucketOf(actions[..i], key)
    {
      var l := actions[i];
      var key := KeyOf(l);
      assert actions[..i + 1] == actions[..i] + [l];
      assert actions[..i + 1][..i] == actions[..i];
      forall k ensures BucketOf(actions[..i + 1], k)
                    == if key == k then Add(BucketOf(actions[..i], k), l) else BucketOf(actions[..i], k) {
        BucketNext(actions[..i], l, k);
      }
      if key !in buckets {
        UnseenKey(actions[..i], key);
        order := order + [key];
        buckets := buckets[key := Bucket(key, [], [], [])];
      }
      buckets := buckets[key := Add(buckets[key], l)];
    }
    assert actions[..|actions|] == actions;
  }

  /** `_extract_replace_groups`. */
  method ExtractReplaceGroups(actions: seq<Lifecycle>) returns (regular: seq<Lifecycle>, groups: seq<Bucket>)
    ensures regular == Regular(actions, Keys(actions)) && groups == Groups(actions, Keys(actions))
  {
    var order, buckets := FillBuckets(actions);
    regular, groups := [], [];
    for i := 0 to |order|
      invariant regular == Regular(actions, order[..i]) && groups == Groups(actions, order[..i])
    {
      assert order[..i + 1][..i] == order[..i];
      var b := buckets[order[i]];
      regular := regular + b.others;
      if IsReplace(b) {
        groups := groups + [b];
      } else {
        regular := regular + (b.cancels + b.submits);
      }
    }
    assert order[..|order|] == order;
  }

  // --- nothing is lost

  /** How often an action occurs. */
  ghost function Times(actions: seq<Lifecycle>, x: Lifecycle): nat {
    if actions == [] then 0
    else
      var n := |actions| - 1;
      Times(actions[..n], x) + if actions[n] == x then 1 else 0
  }

  ghost function TimesIn(b: Bucket, x: Lifecycle): nat {
    Times(b.cancels, x) + Times(b.submits, x) + Times(b.others, x)
  }

  ghost function TimesInAll(actions: seq<Lifecycle>, keys: seq<Key>, x: Lifecycle): nat {
    if keys == [] then 0
    else TimesInAll(actions, keys[..|keys| - 1], x) + TimesIn(BucketOf(actions, keys[|keys| - 1]), x)
  }

  ghost function TimesGrouped(groups: seq<Bucket>, x: Lifecycle): nat {
    if groups == [] then 0
    else
      var b := groups[|groups| - 1];
      TimesGrouped(groups[..|groups| - 1], x) + Times(b.cancels, x) + Times(b.submits, x)
  }

  lemma {:induction false} TimesNext(actions: seq<Lifecycle>, more: seq<Lifecycle>, x: Lifecycle)
    ensures Times(actions + more, x) == Times(actions, x) + Times(more, x)
  {
    if more == [] {
      assert actions + more == actions;
    } else {
      var n := |more| - 1;
      assert (actions + more)[..|actions| + n] == actions + more[..n];
      TimesNext(actions, more[..n], x);
    }
  }

  ghost predicate Distinct(keys: seq<Key>) {
    forall i, j :: 0 <= i < j < |keys| ==> keys[i] != keys[j]
  }

  lemma {:induction false} KeysDistinct(actions: seq<Lifecycle>)
    ensures Distinct(Keys(actions)) && forall l :: l in actions ==> KeyOf(l) in Keys(actions)
  {
    if actions != [] {
      KeysDistinct(actions[..|actions| - 1]);
      assert actions == actions[..|actions| - 1] + [actions[|actions| - 1]];
    }
  }

  lemma {:induction false} TimesOne(actions: seq<Lifecycle>, l: Lifecycle, x: Lifecycle)
    ensures Times(actions + [l], x) == Times(actions, x) + if l == x then 1 else 0
  {
    assert (actions + [l])[..|actions|] == actions;
  }

  lemma {:induction false} TimesAdded(b: Bucket, l: Lifecycle, x: Lifecycle)
    ensures TimesIn(Add(b, l), x) == TimesIn(b, x) + if l == x then 1 else 0
  {
    if ReplacesCancel(l) {
      TimesOne(b.cancels, l, x);
    } else if ReplacesSubmit(l) {
      TimesOne(b.submits, l, x);
    } else {
      TimesOne(b.others, l, x);
    }
  }

  lemma {:induction false} TimesAfter(actions: seq<Lifecycle>, l: Lifecycle, keys: seq<Key>, x: Lifecycle)
    requires Distinct(keys)
    ensures TimesInAll(actions + [l], keys, x) == TimesInAll(actions, keys, x) + if KeyOf(l) in keys && l == x then 1 else 0
  {
    if keys != [] {
      var n := |keys| - 1;
      TimesAfter(actions, l, keys[..n], x);
      BucketNext(actions, l, keys[n]);
      TimesAdded(BucketOf(actions, keys[n]), l, x);
      KeyMember(keys, KeyOf(l));
      assert keys[n] !in keys[..n];
    }
  }

  lemma {:induction false} NoTimes(keys: seq<Key>, x: Lifecycle)
    ensures TimesInAll([], keys, x) == 0
  {
    if keys != [] {
      NoTimes(keys[..|keys| - 1], x);
    }
  }

  lemma {:induction false} BucketsHoldAll(actions: seq<Lifecycle>, keys: seq<Key>, x: Lifecycle)
    requires Distinct(keys) && forall l :: l in actions ==> KeyOf(l) in keys
    ensures TimesInAll(actions, keys, x) == Times(actions, x)
  {
    if actions == [] {
      NoTimes(keys, x);
    } else {
      var n := |actions| - 1;
      assert actions == actions[..n] + [actions[n]];
      BucketsHoldAll(actions[..n], keys, x);
      TimesAfter(actions[..n], actions[n], keys, x);
    }
  }

  /** A bucket's actions go to the single actions, or, as a replacement, to the groups. */
  lemma {:induction false} BucketIsSplit(regular: seq<Lifecycle>, groups: seq<Bucket>, b: Bucket, x: Lifecycle)
    ensures Times(regular + b.others + (b.cancels + b.submits), x) == Times(regular, x) + TimesIn(b, x)
    ensures Times(regular + b.others + [], x) + TimesGrouped(groups + [b], x)
         == Times(regular, x) + TimesGrouped(groups, x) + TimesIn(b, x)
  {
    TimesNext(regular, b.others, x);
    TimesNext(regular + b.others, b.cancels + b.submits, x);
    TimesNext(b.cancels, b.submits, x);
    assert regular + b.others + [] == regular + b.others;
    assert (groups + [b])[..|groups|] == groups;
  }

  lemma {:induction false} BucketsAreSplit(actions: seq<Lifecycle>, keys: seq<Key>, x: Lifecycle)
    ensures TimesInAll(actions, keys, x) == Times(Regular(actions, keys), x) + TimesGrouped(Groups(actions, keys), x)
  {
    if keys != [] {
      var n := |keys| - 1;
      BucketsAreSplit(actions, keys[..n], x);
      var groups := Groups(actions, keys[..n]);
      assert groups + [] == groups;
      BucketIsSplit(Regular(actions, keys[..n]), groups, BucketOf(actions, keys[n]), x);
    }
  }

  /** How often an action occurs among the single actions and in the groups made for the given keys. */
  ghost function TimesKept(actions: seq<Lifecycle>, keys: seq<Key>, x: Lifecycle): nat {
    Times(Regular(actions, keys), x) + TimesGrouped(Groups(actions, keys), x)
  }

  /** Every action is a single action or in a replace group, and none is both, repeated or lost. */
  lemma {:induction false} ActionsAreConserved(actions: seq<Lifecycle>, keys: seq<Key>, x: Lifecycle)
    requires keys == Keys(actions)
    ensures TimesKept(actions, keys, x) == Times(actions, x)
  {
    KeysDistinct(actions);
    BucketsHoldAll(actions, keys, x);
    BucketsAreSplit(actions, keys, x);
  }

  // --- the cycle

  /** What the cycle does with an action or a group. */
  datatype Command = DoCancel(a: Action) | DoSubmit(a: Action) | DoReplace(g: Group)

  datatype Switches = Switches(killSwitch: bool, freezeAll: bool)

  function GroupOf(b: Bucket): Group
    requires IsReplace(b)
  {
    Group(b.key.symbol, b.key.side, Actions(b.cancels), b.submits[|b.submits| - 1].action)
  }

  function Actions(ls: seq<Lifecycle>): seq<Action> {
    seq(|ls|, i requires 0 <= i < |ls| => ls[i].action)
  }

  /** With the kill switch or the freeze on, only cancels get through, and none when everything is frozen. */
  function Single(ls: seq<Lifecycle>, restricted: bool, freezeAll: bool): seq<Command> {
    if ls == [] then []
    else
      var n := |ls| - 1;
      Single(ls[..n], restricted, freezeAll)
      + match ls[n].kind
        case CancelKind => if restricted && freezeAll then [] else [DoCancel(ls[n].action)]
        case SubmitKind => if restricted then [] else [DoSubmit(ls[n].action)]
        case OtherKind => []
  }

  function Cancels(actions: seq<Action>): seq<Command> {
    seq(|actions|, i requires 0 <= i < |actions| => DoCancel(actions[i]))
  }

  function Replacing(groups: seq<Bucket>, restricted: bool, freezeAll: bool): seq<Command>
    requires forall i :: 0 <= i < |groups| ==> IsReplace(groups[i])
  {
    if groups == [] then []
    else
      var n := |groups| - 1;
      var g := GroupOf(groups[n]);
      Replacing(groups[..n], restricted, freezeAll)
      + if !restricted then [DoReplace(g)] else if freezeAll then [] else Cancels(g.cancels)
  }

  lemma {:induction false} GroupsReplace(actions: seq<Lifecycle>, keys: seq<Key>)
    ensures forall i :: 0 <= i < |Groups(actions, keys)| ==> IsReplace(Groups(actions, keys)[i])
  {
    if keys != [] {
      GroupsReplace(actions, keys[..|keys| - 1]);
    }
  }

  /** `execute_with_report`: the single actions first, then the groups. */
  function Commands(actions: seq<Lifecycle>, w: Switches, frozen: bool): seq<Command> {
    GroupsReplace(actions, Keys(actions));
    var restricted := w.killSwitch || frozen;
    Single(Regular(actions, Keys(actions)), restricted, w.freezeAll)
    + Replacing(Groups(actions, Keys(actions)), restricted, w.freezeAll)
  }

  /** Commands become steps of the replace protocol, each with its own answers from the world. */
  function Ops(commands: seq<Command>, worlds: nat -> World, txId: Group -> string): seq<Op> {
    seq(|commands|, i requires 0 <= i < |commands| =>
      match commands[i]
      case DoCancel(a) => CancelOp(a, worlds(i))
      case DoSubmit(a) => SubmitOp(a, worlds(i))
      case DoReplace(g) => ReplaceOp(txId(g), g, worlds(i)))
  }

  ghost predicate OnlyCancels(commands: seq<Command>) {
    forall i :: 0 <= i < |commands| ==> commands[i].DoCancel?
  }

  lemma {:induction false} SingleRestricted(ls: seq<Lifecycle>, freezeAll: bool)
    ensures OnlyCancels(Single(ls, true, freezeAll)) && (freezeAll ==> Single(ls, true, freezeAll) == [])
  {
    if ls != [] {
      SingleRestricted(ls[..|ls| - 1], freezeAll);
    }
  }

  lemma {:induction false} ReplacingRestricted(groups: seq<Bucket>, freezeAll: bool)
    requires forall i :: 0 <= i < |groups| ==> IsReplace(groups[i])
    ensures OnlyCancels(Replacing(groups, true, freezeAll)) && (freezeAll ==> Replacing(groups, true, freezeAll) == [])
  {
    if groups != [] {
      ReplacingRestricted(groups[..|groups| - 1], freezeAll);
    }
  }

  /** A run of cancels adds nothing but cancel calls, and touches no transaction. */
  lemma {:induction false} CancelsOnlyCancel(s: State, ops: seq<Op>, exchangeId: Action -> string)
    requires forall i :: 0 <= i < |ops| ==> ops[i].CancelOp?
    ensures var s' := Run(s, ops, exchangeId);
            s'.txs == s.txs && AddsCancels(s, s', None)
  {
    if ops != [] {
      var n := |ops| - 1;
      CancelsOnlyCancel(s, ops[..n], exchangeId);
      var before := Run(s, ops[..n], exchangeId);
      CancelEffects(before, None, ops[n].a, ops[n].w, ops[n].w.cancelReplies(0));
      OneMoreCancel(s, before, Run(s, ops, exchangeId), ops[n].a.clientOrderId);
    }
  }

  lemma {:induction false} OneMoreCancel(s: State, before: State, s': State, id: string)
    requires AddsCancels(s, before, None) && (s'.trace == before.trace || SentCancel(before, s', None, id))
    ensures AddsCancels(s, s', None)
  {
    assert s'.trace[..|s.trace|] == before.trace[..|s.trace|];
    assert forall i :: |s.trace| <= i < |before.trace| ==> s'.trace[i] == before.trace[i];
  }

  /**
   The kill switch and the freeze: while either is on, no part of a cycle that is carried out, however
   far it gets, submits anything or touches a transaction; and nothing is sent at all when everything is frozen.
   */
  lemma {:induction false} NothingSubmittedWhileRestricted(s: State, actions: seq<Lifecycle>, w: Switches, worlds: nat -> World,
                                        txId: Group -> string, exchangeId: Action -> string, done: nat)
    requires (w.killSwitch || s.frozen) && done <= |Commands(actions, w, s.frozen)|
    ensures var s' := Run(s, Ops(Commands(actions, w, s.frozen)[..done], worlds, txId), exchangeId);
            s'.txs == s.txs && AddsCancels(s, s', None) && (w.freezeAll ==> s' == s)
  {
    var groups := Groups(actions, Keys(actions));
    GroupsReplace(actions, Keys(actions));
    SingleRestricted(Regular(actions, Keys(actions)), w.freezeAll);
    ReplacingRestricted(groups, w.freezeAll);
    CancelsOnlyCancel(s, Ops(Commands(actions, w, s.frozen)[..done], worlds, txId), exchangeId);
  }

  // --- what is done when nothing is restricted

  lemma {:induction false} SelectMembers(actions: seq<Lifecycle>, key: Key, p: Lifecycle -> bool, l: Lifecycle)
    ensures l in Select(actions, key, p) <==> l in actions && KeyOf(l) == key && p(l)
  {
    if actions != [] {
      var n := |actions| - 1;
      SelectMembers(actions[..n], key, p, l);
      assert actions == actions[..n] + [actions[n]];
    }
  }

  /** Some action of the key is selected. */
  ghost predicate Occurs(actions: seq<Lifecycle>, key: Key, p: Lifecycle -> bool) {
    exists l :: l in actions && KeyOf(l) == key && p(l)
  }

  lemma {:induction false} SelectedSome(actions: seq<Lifecycle>, key: Key, p: Lifecycle -> bool)
    ensures Select(actions, key, p) != [] <==> Occurs(actions, key, p)
  {
    if Select(actions, key, p) != [] {
      SelectMembers(actions, key, p, Select(actions, key, p)[0]);
      assert Select(actions, key, p)[0] in Select(actions, key, p);
    }
    if l :| l in actions && KeyOf(l) == key && p(l) {
      SelectMembers(actions, key, p, l);
    }
  }

  /** The key has both a cancel and a submit that belong to a replacement. */
  ghost predicate Replaced(actions: seq<Lifecycle>, key: Key) {
    Occurs(actions, key, ReplacesCancel) && Occurs(actions, key, ReplacesSubmit)
  }

  lemma {:induction false} ReplacedExactly(actions: seq<Lifecycle>, key: Key)
    ensures IsReplace(BucketOf(actions, key)) <==> Replaced(actions, key)
  {
    SelectedSome(actions, key, ReplacesCancel);
    SelectedSome(actions, key, ReplacesSubmit);
  }

  lemma {:induction false} BucketMembers(actions: seq<Lifecycle>, key: Key, l: Lifecycle)
    ensures var b := BucketOf(actions, key);
            && (l in b.others <==> l in actions && KeyOf(l) == key && ReplacesNothing(l))
            && (l in b.cancels + b.submits <==> l in actions && KeyOf(l) == key && !ReplacesNothing(l))
  {
    SelectMembers(actions, key, ReplacesCancel, l);
    SelectMembers(actions, key, ReplacesSubmit, l);
    SelectMembers(actions, key, ReplacesNothing, l);
  }

  /** A single action of its key: it replaces nothing, or its key lacks the counterpart. */
  ghost predicate IsSingle(actions: seq<Lifecycle>, l: Lifecycle) {
    l in actions && (ReplacesNothing(l) || !Replaced(actions, KeyOf(l)))
  }

  /** What a key adds to the single actions. */
  function LeftOver(b: Bucket): seq<Lifecycle> {
    b.others + if IsReplace(b) then [] else b.cancels + b.submits
  }

  lemma {:induction false} LeftOverMembers(actions: seq<Lifecycle>, key: Key, l: Lifecycle)
    ensures l in LeftOver(BucketOf(actions, key)) <==> KeyOf(l) == key && IsSingle(actions, l)
  {
    BucketMembers(actions, key, l);
    ReplacedExactly(actions, key);
  }

  lemma {:induction false} RegularMembers(actions: seq<Lifecycle>, keys: seq<Key>, l: Lifecycle)
    ensures l in Regular(actions, keys) <==> KeyOf(l) in keys && IsSingle(actions, l)
  {
    if keys != [] {
      var n := |keys| - 1;
      RegularMembers(actions, keys[..n], l);
      LeftOverMembers(actions, keys[n], l);
      KeyMember(keys, KeyOf(l));
      assert l in Regular(actions, keys) <==> l in Regular(actions, keys[..n]) || l in LeftOver(BucketOf(actions, keys[n]));
    }
  }

  lemma {:induction false} KeyMember(keys: seq<Key>, key: Key)
    requires keys != []
    ensures key in keys <==> key in keys[..|keys| - 1] || key == keys[|keys| - 1]
  {
    assert keys == keys[..|keys| - 1] + [keys[|keys| - 1]];
  }

  lemma {:induction false} SelectLast(actions: seq<Lifecycle>, key: Key, p: Lifecycle -> bool) returns (i: nat)
    requires Select(actions, key, p) != []
    ensures i < |actions| && KeyOf(actions[i]) == key && p(actions[i])
    ensures actions[i] == Select(actions, key, p)[|Select(actions, key, p)| - 1]
    ensures forall j :: i < j < |actions| && KeyOf(actions[j]) == key ==> !p(actions[j])
  {
    var n := |actions| - 1;
    i := n;
    if KeyOf(actions[n]) != key || !p(actions[n]) {
      assert Select(actions[..n], key, p) + [] == Select(actions[..n], key, p);
      i := SelectLast(actions[..n], key, p);
    }
  }

  /** The replacement of a key submits the last of its submits, and cancels every order to be replaced. */
  lemma {:induction false} ReplacesWithLast(actions: seq<Lifecycle>, key: Key) returns (i: nat)
    requires Replaced(actions, key)
    ensures IsReplace(BucketOf(actions, key))
    ensures var g := GroupOf(BucketOf(actions, key));
            && g.symbol == key.symbol && g.side == key.side
            && i < |actions| && KeyOf(actions[i]) == key && ReplacesSubmit(actions[i]) && g.submit == actions[i].action
            && (forall j :: i < j < |actions| && KeyOf(actions[j]) == key ==> !ReplacesSubmit(actions[j]))
            && forall l :: l in actions && KeyOf(l) == key && ReplacesCancel(l) ==> l.action in g.cancels
  {
    ReplacedExactly(actions, key);
    i := SelectLast(actions, key, ReplacesSubmit);
    var b := BucketOf(actions, key);
    forall l | l in actions && KeyOf(l) == key && ReplacesCancel(l) ensures l.action in GroupOf(b).cancels {
      SelectMembers(actions, key, ReplacesCancel, l);
      var k :| 0 <= k < |b.cancels| && b.cancels[k] == l;
      assert GroupOf(b).cancels[k] == l.action;
    }
  }

  /** The command is the cancel or submit of this single action. */
  predicate DoneAs(c: Command, l: Lifecycle) {
    (l.kind.CancelKind? && c == DoCancel(l.action)) || (l.kind.SubmitKind? && c == DoSubmit(l.action))
  }

  /** Some of the actions is done by the command. */
  ghost predicate DoesOne(ls: seq<Lifecycle>, c: Command) {
    exists l :: l in ls && DoneAs(c, l)
  }

  lemma {:induction false} DoesOneMore(ls: seq<Lifecycle>, last: Lifecycle, c: Command)
    ensures DoesOne(ls + [last], c) <==> DoesOne(ls, c) || DoneAs(c, last)
  {
    assert last in ls + [last];
    if l :| l in ls && DoneAs(c, l) {
      assert l in ls + [last];
    }
  }

  lemma {:induction false} SingleMembers(ls: seq<Lifecycle>, freezeAll: bool, c: Command)
    ensures c in Single(ls, false, freezeAll) <==> DoesOne(ls, c)
  {
    if ls != [] {
      var n := |ls| - 1;
      SingleMembers(ls[..n], freezeAll, c);
      assert ls == ls[..n] + [ls[n]];
      DoesOneMore(ls[..n], ls[n], c);
    }
  }

  lemma {:induction false} GroupMembers(actions: seq<Lifecycle>, keys: seq<Key>, freezeAll: bool, c: Command)
    requires forall i :: 0 <= i < |Groups(actions, keys)| ==> IsReplace(Groups(actions, keys)[i])
    ensures c in Replacing(Groups(actions, keys), false, freezeAll) <==>
              exists key :: key in keys && IsReplace(BucketOf(actions, key)) && c == DoReplace(GroupOf(BucketOf(actions, key)))
  {
    if keys != [] {
      var n := |keys| - 1;
      var groups := Groups(actions, keys[..n]);
      GroupsReplace(actions, keys[..n]);
      GroupMembers(actions, keys[..n], freezeAll, c);
      assert keys == keys[..n] + [keys[n]];
      assert keys[n] in keys;
      if IsReplace(BucketOf(actions, keys[n])) {
        assert (groups + [BucketOf(actions, keys[n])])[..|groups|] == groups;
      } else {
        assert groups + [] == groups;
      }
    }
  }

  lemma {:induction false} KeysOccur(actions: seq<Lifecycle>, key: Key)
    ensures key in Keys(actions) <==> exists l :: l in actions && KeyOf(l) == key
  {
    if actions != [] {
      var n := |actions| - 1;
      KeysOccur(actions[..n], key);
      assert actions == actions[..n] + [actions[n]];
      assert actions[n] in actions;
    }
  }

  /**
   With nothing restricted, a command is given exactly for every single cancel and submit, and for every key
   that has both a cancel and a submit of a replacement.
   */
  lemma {:induction false} CommandsExactly(actions: seq<Lifecycle>, w: Switches, c: Command)
    requires !w.killSwitch
    ensures c in Commands(actions, w, false) <==>
              || (exists l :: IsSingle(actions, l) && DoneAs(c, l))
              || (exists key :: Replaced(actions, key) && IsReplace(BucketOf(actions, key)) && c == DoReplace(GroupOf(BucketOf(actions, key))))
  {
    var keys := Keys(actions);
    GroupsReplace(actions, keys);
    SingleMembers(Regular(actions, keys), w.freezeAll, c);
    GroupMembers(actions, keys, w.freezeAll, c);
    forall l ensures l in Regular(actions, keys) <==> IsSingle(actions, l) {
      RegularMembers(actions, keys, l);
      KeysOccur(actions, KeyOf(l));
    }
    forall key ensures key in keys && IsReplace(BucketOf(actions, key)) <==> Replaced(actions, key) {
      ReplacedExactly(actions, key);
      KeysOccur(actions, key);
    }
  }

  lemma {:induction false} SingleCancels(ls: seq<Lifecycle>, a: Action)
    ensures DoCancel(a) in Single(ls, true, false) <==> exists l :: l in ls && l.kind.CancelKind? && l.action == a
  {
    if ls != [] {
      var n := |ls| - 1;
      SingleCancels(ls[..n], a);
      assert ls == ls[..n] + [ls[n]];
      assert ls[n] in ls;
    }
  }

  lemma {:induction false} CancelsMember(b: Bucket, a: Action)
    requires IsReplace(b)
    ensures DoCancel(a) in Cancels(GroupOf(b).cancels) <==> exists l :: l in b.cancels && l.action == a
  {
    var cancels := Cancels(GroupOf(b).cancels);
    if DoCancel(a) in cancels {
      var i :| 0 <= i < |cancels| && cancels[i] == DoCancel(a);
      assert b.cancels[i] in b.cancels && b.cancels[i].action == a;
    }
    if l :| l in b.cancels && l.action == a {
      var i :| 0 <= i < |b.cancels| && b.cancels[i] == l;
      assert cancels[i] == DoCancel(a);
    }
  }

  /** Some cancel of a replacement of these keys is this one. */
  ghost predicate CancelledInGroup(actions: seq<Lifecycle>, keys: seq<Key>, a: Action) {
    exists l :: l in actions && KeyOf(l) in keys && Replaced(actions, KeyOf(l)) && ReplacesCancel(l) && l.action == a
  }

  lemma {:induction false} GroupCancels(actions: seq<Lifecycle>, keys: seq<Key>, a: Action)
    requires forall i :: 0 <= i < |Groups(actions, keys)| ==> IsReplace(Groups(actions, keys)[i])
    ensures DoCancel(a) in Replacing(Groups(actions, keys), true, false) <==> CancelledInGroup(actions, keys, a)
  {
    if keys != [] {
      var n := |keys| - 1;
      var groups, b := Groups(actions, keys[..n]), BucketOf(actions, keys[n]);
      GroupsReplace(actions, keys[..n]);
      GroupCancels(actions, keys[..n], a);
      ReplacedExactly(actions, keys[n]);
      forall l ensures l in b.cancels <==> l in actions && KeyOf(l) == keys[n] && ReplacesCancel(l) {
        SelectMembers(actions, keys[n], ReplacesCancel, l);
      }
      forall key ensures key in keys <==> key in keys[..n] || key == keys[n] {
        KeyMember(keys, key);
      }
      if IsReplace(b) {
        assert (groups + [b])[..|groups|] == groups;
        CancelsMember(b, a);
      } else {
        assert groups + [] == groups;
      }
    }
  }

  /** Restricted but not frozen altogether, every cancel goes on, whether it is part of a replacement or not. */
  lemma {:induction false} CancelsGoOn(actions: seq<Lifecycle>, w: Switches, frozen: bool, a: Action)
    requires (w.killSwitch || frozen) && !w.freezeAll
    ensures DoCancel(a) in Commands(actions, w, frozen) <==> exists l :: l in actions && l.kind.CancelKind? && l.action == a
  {
    var keys := Keys(actions);
    GroupsReplace(actions, keys);
    SingleCancels(Regular(actions, keys), a);
    GroupCancels(actions, keys, a);
    forall l ensures (l in Regular(actions, keys) <==> IsSingle(actions, l)) && (l in actions ==> KeyOf(l) in keys) {
      RegularMembers(actions, keys, l);
      KeysOccur(actions, KeyOf(l));
    }
  }
}
