/** The init-once hook (`core.py`): `init` registers a callback, and
    every function wrapped by `_with_init` runs it before its first call.
    The module-level flag and callback are threaded through as an
    explicit state; a callback is named by an identifier, running it is
    recorded rather than performed, and how it behaves on a given call —
    returning, or raising an exception — is an input. */
module Core {
  import opened Wrappers

  type Callback = nat

  /** `_did_init` and `_init_callback`. */
  datatype InitState = InitState(didInit: bool, callback: Option<Callback>)

  /** The state at import time. */
  const Start := InitState(false, None)

  /** `init`: the callback replaces any earlier one and will run again on
      the next wrapped call. */
  function Init(s: InitState, cb: Callback): (t: InitState)
    ensures t.callback == Some(cb) && !t.didInit
  {
    InitState(false, Some(cb))
  }

  /** What the callback does when it is run on one call. */
  datatype Outcome = Returns | Raises

  /** What a wrapped call gives its caller: the function's result, or the
      callback's exception, which propagates before the function runs. */
  datatype CallResult<T> = Returned(value: T) | CallbackRaised

  /** One wrapped call: the state after it, the callback run before the
      function (if any), and what the caller gets. */
  datatype Step<T> = Step(state: InitState, ran: Option<Callback>, result: CallResult<T>)

  /** `_with_init`'s wrapper, given how the callback behaves on this call
      and the result the wrapped function returns. A raising callback
      leaves the flag unset, so the hook stays armed. */
  function Call<T>(s: InitState, outcome: Outcome, result: T): (r: Step<T>)
    ensures r.state.callback == s.callback
    ensures r.ran == (if s.didInit then None else s.callback)
    ensures r.result.CallbackRaised? <==> r.ran.Some? && outcome.Raises?
    ensures r.result.Returned? ==> r.result.value == result
    ensures r.state.didInit <==> r.result.Returned?
  {
    if s.didInit then Step(s, None, Returned(result))
    else if s.callback.Some? && outcome.Raises? then Step(s, s.callback, CallbackRaised)
    else Step(s.(didInit := true), s.callback, Returned(result))
  }

  /** A run of wrapped calls, one per outcome: the final state and the
      callbacks run, in order. Only the registered callback ever runs. */
  function Calls(s: InitState, outcomes: seq<Outcome>): (r: (InitState, seq<Callback>))
    ensures r.0.callback == s.callback
    ensures forall i | 0 <= i < |r.1| :: s.callback == Some(r.1[i])
    decreases |outcomes|
  {
    if |outcomes| == 0 then (s, [])
    else
      var step := Call(s, outcomes[0], ());
      var rest := Calls(step.state, outcomes[1..]);
      (rest.0, (if step.ran.Some? then [step.ran.value] else []) + rest.1)
  }

  /** After `init(cb)`, a run of wrapped calls whose first call sees the
      callback return runs `cb` exactly once, before the first of them,
      and leaves the callback registered. */
  lemma {:induction false} InitRunsOnce(s: InitState, cb: Callback, outcomes: seq<Outcome>)
    requires |outcomes| > 0 && outcomes[0].Returns?
    ensures Calls(Init(s, cb), outcomes).1 == [cb]
    ensures Calls(Init(s, cb), outcomes).0 == InitState(true, Some(cb))
  {
    AlreadyInitialised(InitState(true, Some(cb)), outcomes[1..]);
  }

  /** A raising callback leaves the hook armed: the caller gets the
      exception, the flag stays unset, and the next call runs the callback
      again. */
  lemma RaiseLeavesArmed<T>(s: InitState, cb: Callback, result: T, next: Outcome)
    ensures var first := Call(Init(s, cb), Raises, result);
      && first.result == CallbackRaised && first.state == Init(s, cb)
      && Call(first.state, next, result).ran == Some(cb)
  {
  }

  /** `n` copies of `x`. */
  function Times<T>(x: T, n: nat): (r: seq<T>)
    ensures |r| == n && forall i | 0 <= i < n :: r[i] == x
  {
    if n == 0 then [] else [x] + Times(x, n - 1)
  }

  /** If the callback raises on every call, it runs on every call and the
      flag is never set. */
  lemma {:induction false} AlwaysRaising(cb: Callback, n: nat)
    ensures Calls(InitState(false, Some(cb)), Times(Raises, n)) == (InitState(false, Some(cb)), Times(cb, n))
    decreases n
  {
    var t := InitState(false, Some(cb));
    if n > 0 {
      var os := Times(Raises, n);
      assert os == [Raises] + Times(Raises, n - 1);
      assert os[1..] == Times(Raises, n - 1);
      AlwaysRaising(cb, n - 1);
      assert Calls(t, os).1 == [cb] + Times(cb, n - 1);
    }
  }

  /** A callback that raises on the first `k` calls and then returns runs
      `k + 1` times in all; after that the flag is set and it never runs
      again. */
  lemma {:induction false} RaisesThenReturns(cb: Callback, k: nat, rest: seq<Outcome>)
    ensures Calls(InitState(false, Some(cb)), Times(Raises, k) + [Returns] + rest)
            == (InitState(true, Some(cb)), Times(cb, k + 1))
    decreases k
  {
    var t := InitState(false, Some(cb));
    var os := Times(Raises, k) + [Returns] + rest;
    if k == 0 {
      assert Times(Raises, 0) == [];
      assert os == [Returns] + rest;
      assert os[1..] == rest;
      AlreadyInitialised(InitState(true, Some(cb)), rest);
      assert Calls(t, os).1 == [cb] + [];
    } else {
      assert os == [Raises] + (Times(Raises, k - 1) + [Returns] + rest);
      assert os[1..] == Times(Raises, k - 1) + [Returns] + rest;
      RaisesThenReturns(cb, k - 1, rest);
      assert Calls(t, os).1 == [cb] + Times(cb, k);
    }
  }

  /** Once the flag is set, wrapped calls run nothing and change nothing. */
  lemma {:induction false} AlreadyInitialised(s: InitState, outcomes: seq<Outcome>)
    requires s.didInit
    ensures Calls(s, outcomes) == (s, [])
    decreases |outcomes|
  {
    if |outcomes| > 0 {
      var step := Call(s, outcomes[0], ());
      assert step.state == s && step.ran.None?;
      AlreadyInitialised(s, outcomes[1..]);
      var rest := Calls(step.state, outcomes[1..]);
      assert rest == (s, []);
      assert Calls(s, outcomes) == (rest.0, [] + rest.1);
      assert [] + rest.1 == [];
    }
  }

  /** With no callback registered the flag is still set by the first call,
      and nothing ever runs. */
  lemma {:induction false} NoCallback(s: InitState, outcomes: seq<Outcome>)
    requires s.callback.None? && |outcomes| > 0
    ensures Calls(s, outcomes) == (InitState(true, None), [])
  {
    var t := InitState(true, None);
    assert Call(s, outcomes[0], ()).state == t && Call(s, outcomes[0], ()).ran.None?;
    AlreadyInitialised(t, outcomes[1..]);
    assert Calls(s, outcomes).1 == [] + Calls(t, outcomes[1..]).1;
  }

  /** A second `init` re-arms the hook: the new callback runs once more,
      on the next wrapped call, and the old one does not. */
  lemma {:induction false} ReInit(s: InitState, first: Callback, second: Callback,
                                  before: seq<Outcome>, after: seq<Outcome>)
    requires |after| > 0 && after[0].Returns?
    ensures Calls(Init(Calls(Init(s, first), before).0, second), after).1 == [second]
  {
    InitRunsOnce(Calls(Init(s, first), before).0, second, after);
  }
}
