/** Optional values, results that may be errors, and replaying a list of events one by one. */
module Results {

  datatype Option<+T> = None | Some(value: T)

  datatype Result<+T, +E> = Ok(value: T) | Err(error: E)

  /** Apply the events in order; the first error ends the replay. */
  function Replay<S, V, E>(state: S, events: seq<V>, step: (S, V) -> Result<S, E>): Result<S, E> {
    if events == [] then Ok(state)
    else
      var n := |events| - 1;
      match Replay(state, events[..n], step)
      case Err(error) => Err(error)
      case Ok(s) => step(s, events[n])
  }

  lemma {:induction false} ReplayConcat<S, V, E>(state: S, a: seq<V>, b: seq<V>, step: (S, V) -> Result<S, E>)
    ensures Replay(state, a + b, step)
         == match Replay(state, a, step)
            case Err(error) => Err(error)
            case Ok(s) => Replay(s, b, step)
  {
    if b == [] {
      assert a + b == a;
    } else {
      var n := |b| - 1;
      assert (a + b)[..|a| + n] == a + b[..n] && (a + b)[|a| + n] == b[n];
      ReplayConcat(state, a, b[..n], step);
    }
  }

  /** One more event. */
  lemma {:induction false} ReplayStep<S, V, E>(state: S, events: seq<V>, i: nat, step: (S, V) -> Result<S, E>)
    requires i < |events| && Replay(state, events[..i], step).Ok?
    ensures Replay(state, events[..i + 1], step) == step(Replay(state, events[..i], step).value, events[i])
  {
    assert events[..i + 1][..i] == events[..i];
  }

  /** Once it has failed, a replay stays failed. */
  lemma {:induction false} ReplayFailed<S, V, E>(state: S, events: seq<V>, i: nat, step: (S, V) -> Result<S, E>)
    requires i <= |events| && Replay(state, events[..i], step).Err?
    ensures Replay(state, events, step) == Replay(state, events[..i], step)
  {
    assert events == events[..i] + events[i..];
    ReplayConcat(state, events[..i], events[i..], step);
  }

  /** Fold a list from the left. */
  function Fold<S, V>(state: S, vs: seq<V>, next: (S, V) -> S): S {
    if vs == [] then state
    else
      var n := |vs| - 1;
      next(Fold(state, vs[..n], next), vs[n])
  }

  /** What holds at the start and is kept by every step holds of the fold. */
  lemma {:induction false} FoldKeeps<S(!new), V(!new)>(state: S, vs: seq<V>, next: (S, V) -> S, inv: (S, seq<V>) -> bool)
    requires inv(state, [])
    requires forall s, before, v :: v in vs && inv(s, before) ==> inv(next(s, v), before + [v])
    ensures inv(Fold(state, vs, next), vs)
  {
    if vs == [] {
      assert vs == [];
    } else {
      var n := |vs| - 1;
      FoldKeeps(state, vs[..n], next, inv);
      assert vs[n] in vs;
      assert vs == vs[..n] + [vs[n]];
    }
  }
}
