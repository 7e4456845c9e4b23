/**
 The one-shot cancellation object of core/cancellation.cpp.

 Every critical section is one atomic step, and every callback runs outside the lock, so a run is
 any interleaving of the steps of any number of cancelling and registering threads.
 */
module Cancellation {
  /** A callback is named by the order in which its registration passed the lock. */
  type Callback = nat

  datatype State = State(
    cancelled: bool,
    callbacks: seq<Callback>,          // stored, in registration order
    taken: seq<Callback>,              // swapped out by the winning Cancel and not run yet
    immediate: multiset<Callback>,     // registrations that found the flag set and have not run yet
    ran: seq<Callback>,                // every callback run so far
    ranByCancel: seq<Callback>,        // those of them run by the cancelling thread
    storedOrder: seq<Callback>,        // every callback ever stored, in registration order
    registered: nat                    // registrations so far
  )

  const INITIAL := State(false, [], [], multiset{}, [], [], [], 0)

  datatype Action =
    | Register               // the locked section of RegisterCallback
    | Cancel                 // the locked section of Cancel
    | RunTaken               // Cancel runs the next callback of its list
    | RunImmediate(cb: Callback)  // RegisterCallback runs its own callback

  predicate Enabled(s: State, a: Action) {
    match a
    case Register => true
    case Cancel => true
    case RunTaken => s.taken != []
    case RunImmediate(cb) => cb in s.immediate
  }

  function Apply(s: State, a: Action): State
    requires Enabled(s, a)
  {
    match a
    case Register =>
      if s.cancelled then
        s.(immediate := s.immediate + multiset{s.registered}, registered := s.registered + 1)
      else
        s.(callbacks := s.callbacks + [s.registered], storedOrder := s.storedOrder + [s.registered],
           registered := s.registered + 1)
    case Cancel =>
      if s.cancelled then s
      else s.(cancelled := true, taken := s.callbacks, callbacks := [])
    case RunTaken =>
      s.(taken := s.taken[1..], ran := s.ran + [s.taken[0]], ranByCancel := s.ranByCancel + [s.taken[0]])
    case RunImmediate(cb) =>
      s.(immediate := s.immediate - multiset{cb}, ran := s.ran + [cb])
  }

  ghost predicate Feasible(s: State, run: seq<Action>)
    decreases |run|
  {
    run == [] || (Enabled(s, run[0]) && Feasible(Apply(s, run[0]), run[1..]))
  }

  ghost function After(s: State, run: seq<Action>): State
    requires Feasible(s, run)
    decreases |run|
  {
    if run == [] then s else After(Apply(s, run[0]), run[1..])
  }

  /** Where a callback can be: stored, taken by Cancel, waiting in its registering thread, or run. */
  ghost function Places(s: State, cb: Callback): nat {
    multiset(s.callbacks)[cb] + multiset(s.taken)[cb] + s.immediate[cb] + multiset(s.ran)[cb]
  }

  ghost predicate EachInOnePlace(s: State) {
    forall cb: Callback :: Places(s, cb) == if cb < s.registered then 1 else 0
  }

  ghost predicate FlagRulesLists(s: State) {
    && (s.cancelled ==> s.callbacks == [])
    && (!s.cancelled ==> s.taken == [] && s.immediate == multiset{} && s.ran == [] && s.ranByCancel == [])
  }

  ghost predicate InRegistrationOrder(s: State) {
    && s.ranByCancel + s.taken + s.callbacks == s.storedOrder
    && (forall i :: 0 <= i < |s.storedOrder| ==> s.storedOrder[i] < s.registered)
    && (forall i, j :: 0 <= i < j < |s.storedOrder| ==> s.storedOrder[i] < s.storedOrder[j])
  }

  ghost predicate Inv(s: State) {
    EachInOnePlace(s) && FlagRulesLists(s) && InRegistrationOrder(s)
  }

  lemma RunTakenMovesCallback(s: State, cb: Callback)
    requires Enabled(s, RunTaken)
    ensures Places(Apply(s, RunTaken), cb) == Places(s, cb)
  {
    assert s.taken == [s.taken[0]] + s.taken[1..];
  }

  /** Conservation: a step moves callbacks between places and only Register adds one. */
  lemma StepMovesCallback(s: State, a: Action, cb: Callback)
    requires FlagRulesLists(s) && Enabled(s, a)
    ensures Places(Apply(s, a), cb) == Places(s, cb) + if a.Register? && cb == s.registered then 1 else 0
  {
    if a.RunTaken? {
      RunTakenMovesCallback(s, cb);
    }
  }

  lemma StepKeepsOrder(s: State, a: Action)
    requires FlagRulesLists(s) && InRegistrationOrder(s) && Enabled(s, a)
    ensures InRegistrationOrder(Apply(s, a))
  {
    var t := Apply(s, a);
    match a
    case Register =>
      if !s.cancelled {
        assert t.ranByCancel + t.taken + t.callbacks == s.ranByCancel + s.taken + s.callbacks + [s.registered];
      }
    case Cancel =>
      if !s.cancelled {
        assert t.ranByCancel + t.taken + t.callbacks == s.ranByCancel + s.taken + s.callbacks;
      }
    case RunTaken =>
      assert t.ranByCancel + t.taken == s.ranByCancel + s.taken;
    case RunImmediate(cb) =>
  }

  lemma StepKeepsInv(s: State, a: Action)
    requires Inv(s) && Enabled(s, a)
    ensures Inv(Apply(s, a))
  {
    StepKeepsOrder(s, a);
    var t := Apply(s, a);
    forall cb: Callback ensures Places(t, cb) == if cb < t.registered then 1 else 0 {
      assert Places(s, cb) == if cb < s.registered then 1 else 0;
      StepMovesCallback(s, a, cb);
    }
  }

  lemma {:induction false} RunKeepsInv(s: State, run: seq<Action>)
    requires Inv(s) && Feasible(s, run)
    ensures Inv(After(s, run))
    decreases |run|
  {
    if run != [] {
      StepKeepsInv(s, run[0]);
      RunKeepsInv(Apply(s, run[0]), run[1..]);
    }
  }

  /** No pending thread: the winning Cancel has emptied its list and no registration owes a call. */
  predicate Quiescent(s: State) {
    s.taken == [] && s.immediate == multiset{}
  }

  /**
   Over every interleaving from a new object: nothing runs before cancellation, nothing runs twice,
   the stored list is empty once cancelled, and at quiescence after Cancel every registered callback
   has run exactly once.
   */
  lemma EveryRunIsSafe(run: seq<Action>)
    requires Feasible(INITIAL, run)
    ensures var s := After(INITIAL, run);
            && (!s.cancelled ==> s.ran == [])
            && (s.cancelled ==> s.callbacks == [])
            && (forall cb: Callback :: multiset(s.ran)[cb] <= 1)
            && (s.cancelled && Quiescent(s) ==>
                  forall cb: Callback :: multiset(s.ran)[cb] == if cb < s.registered then 1 else 0)
  {
    RunKeepsInv(INITIAL, run);
    var s := After(INITIAL, run);
    assert forall cb: Callback :: multiset(s.ran)[cb] <= Places(s, cb);
  }

  /** What Cancel has run so far is a prefix of the stored callbacks, in registration order. */
  lemma CancelRunsInRegistrationOrder(run: seq<Action>)
    requires Feasible(INITIAL, run)
    ensures var s := After(INITIAL, run);
            && s.ranByCancel <= s.storedOrder
            && (forall i, j :: 0 <= i < j < |s.ranByCancel| ==> s.ranByCancel[i] < s.ranByCancel[j])
            && (s.cancelled && s.taken == [] ==> s.ranByCancel == s.storedOrder)
  {
    RunKeepsInv(INITIAL, run);
    var s := After(INITIAL, run);
    assert s.ranByCancel + s.taken + s.callbacks == s.ranByCancel + (s.taken + s.callbacks);
    forall i, j | 0 <= i < j < |s.ranByCancel|
      ensures s.ranByCancel[i] < s.ranByCancel[j]
    {
      assert s.ranByCancel[i] == s.storedOrder[i] && s.ranByCancel[j] == s.storedOrder[j];
    }
  }

  /** Cancellation is one-shot: no step clears the flag or changes which callbacks were stored. */
  lemma {:induction false} CancelledIsForever(s: State, run: seq<Action>)
    requires Inv(s) && s.cancelled && Feasible(s, run)
    ensures var t := After(s, run); t.cancelled && t.storedOrder == s.storedOrder && s.ran <= t.ran
    decreases |run|
  {
    if run != [] {
      StepKeepsInv(s, run[0]);
      CancelledIsForever(Apply(s, run[0]), run[1..]);
      assert s.ran <= Apply(s, run[0]).ran <= After(s, run).ran;
    }
  }

  /** The object itself; each method is one critical section or one call of a callback. */
  class CancellationRequest {
    var cancelled: bool
    var callbacks: seq<Callback>
    var registered: nat
    var toRun: seq<Callback>
    var owed: multiset<Callback>
    ghost var ran: seq<Callback>
    ghost var ranByCancel: seq<Callback>
    ghost var storedOrder: seq<Callback>

    ghost function Model(): State
      reads this
    {
      State(cancelled, callbacks, toRun, owed, ran, ranByCancel, storedOrder, registered)
    }

    constructor ()
      ensures Model() == INITIAL && Inv(Model())
    {
      cancelled, callbacks, registered, toRun, owed := false, [], 0, [], multiset{};
      ran, ranByCancel, storedOrder := [], [], [];
    }

    method RegisterCallback() returns (alreadyCancelled: bool)
      requires Inv(Model())
      modifies this
      ensures Model() == Apply(old(Model()), Register) && Inv(Model())
      ensures alreadyCancelled == old(cancelled)
    {
      ghost var before := Model();
      alreadyCancelled := false;
      if cancelled {
        alreadyCancelled := true;
        owed := owed + multiset{registered};
      } else {
        callbacks := callbacks + [registered];
        storedOrder := storedOrder + [registered];
      }
      registered := registered + 1;
      StepKeepsInv(before, Register);
    }

    method Cancel()
      requires Inv(Model())
      modifies this
      ensures Model() == Apply(old(Model()), Action.Cancel) && Inv(Model())
    {
      ghost var before := Model();
      StepKeepsInv(before, Action.Cancel);
      if cancelled {
        return;
      }
      cancelled := true;
      toRun, callbacks := callbacks, toRun;
    }

    method IsCancelled() returns (r: bool)
      ensures r == Model().cancelled
    {
      r := cancelled;
    }

    method RunNextTaken() returns (cb: Callback)
      requires Inv(Model()) && Enabled(Model(), RunTaken)
      modifies this
      ensures Model() == Apply(old(Model()), RunTaken) && Inv(Model())
      ensures cb == old(Model()).taken[0]
    {
      StepKeepsInv(Model(), RunTaken);
      cb := toRun[0];
      toRun := toRun[1..];
      ran, ranByCancel := ran + [cb], ranByCancel + [cb];
    }

    method RunOwn(cb: Callback)
      requires Inv(Model()) && Enabled(Model(), RunImmediate(cb))
      modifies this
      ensures Model() == Apply(old(Model()), RunImmediate(cb)) && Inv(Model())
    {
      StepKeepsInv(Model(), RunImmediate(cb));
      owed := owed - multiset{cb};
      ran := ran + [cb];
    }
  }
}
