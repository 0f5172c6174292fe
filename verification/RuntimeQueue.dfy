/**
 * The promise chain of `runForRuntimeKey`: how it orders the operations on one key over every
 * interleaving of calls, one atomic segment between two awaits per step (content-runtime.ts).
 */
module RuntimeQueue {
  import opened Wrappers

  /** A call is known by its index; its promise resolves when the call is done. */
  datatype Phase = Waiting(on: nat) | Running | Done

  datatype Call = Call(key: string, phase: Phase)

  datatype State = State(operationByKey: map<string, nat>, calls: seq<Call>)

  /** A finished operation may have succeeded or thrown: the queue does not tell them apart. */
  datatype Step = Enter(key: string) | Resume(id: nat) | Finish(id: nat, succeeded: bool)

  predicate Enabled(s: State, step: Step) {
    match step
    case Enter(_) => true
    case Resume(id) =>
      && id < |s.calls| && s.calls[id].phase.Waiting?
      && s.calls[id].phase.on < |s.calls| && s.calls[s.calls[id].phase.on].phase.Done?
    case Finish(id, _) => id < |s.calls| && s.calls[id].phase.Running?
  }

  function Apply(s: State, step: Step): State
    requires Enabled(s, step)
  {
    match step
    case Enter(key) =>
      var phase := if key in s.operationByKey then Waiting(s.operationByKey[key]) else Running;
      State(s.operationByKey[key := |s.calls|], s.calls + [Call(key, phase)])
    case Resume(id) =>
      s.(calls := s.calls[id := s.calls[id].(phase := Running)])
    case Finish(id, _) =>
      var key := s.calls[id].key;
      State(if key in s.operationByKey && s.operationByKey[key] == id
            then s.operationByKey - {key} else s.operationByKey,
            s.calls[id := s.calls[id].(phase := Done)])
  }

  predicate Runs(s: State, steps: seq<Step>)
    decreases |steps|
  {
    steps == [] || (Enabled(s, steps[0]) && Runs(Apply(s, steps[0]), steps[1..]))
  }

  function After(s: State, steps: seq<Step>): State
    requires Runs(s, steps)
    decreases |steps|
  {
    if steps == [] then s else After(Apply(s, steps[0]), steps[1..])
  }

  const EMPTY := State(map[], [])

  // ---------- The invariant ----------

  /** `j` entered after `i` on the same key. */
  predicate Follows(s: State, i: int, j: int) {
    0 <= i < j < |s.calls| && s.calls[i].key == s.calls[j].key
  }

  /** A waiting call waits for the call that entered just before it on its key. */
  ghost predicate WaitsForPrevious(s: State, i: nat)
    requires i < |s.calls|
  {
    s.calls[i].phase.Waiting? ==>
      var on := s.calls[i].phase.on;
      && Follows(s, on, i)
      && forall j | on < j < i :: s.calls[j].key != s.calls[i].key
  }

  /** A call that has started comes after all earlier calls on its key are done. */
  ghost predicate StartedInOrder(s: State, j: nat)
    requires j < |s.calls|
  {
    !s.calls[j].phase.Waiting? ==> forall i | Follows(s, i, j) :: s.calls[i].phase.Done?
  }

  /** The table names the last call of each key, as long as that call is not done. */
  ghost predicate TableNamesLast(s: State) {
    && (forall key | key in s.operationByKey ::
          var last := s.operationByKey[key];
          && last < |s.calls| && s.calls[last].key == key && !s.calls[last].phase.Done?
          && forall j | last < j < |s.calls| :: s.calls[j].key != key)
    && (forall i | 0 <= i < |s.calls| && !s.calls[i].phase.Done? ::
          s.calls[i].key in s.operationByKey)
  }

  ghost predicate Inv(s: State) {
    && (forall i | 0 <= i < |s.calls| :: WaitsForPrevious(s, i) && StartedInOrder(s, i))
    && TableNamesLast(s)
  }

  lemma EnterKeepsInv(s: State, key: string)
    requires Inv(s)
    ensures Inv(Apply(s, Enter(key)))
  {
    var t := Apply(s, Enter(key));
    forall i | 0 <= i < |t.calls| ensures WaitsForPrevious(t, i) && StartedInOrder(t, i) {
      if i < |s.calls| {
        assert WaitsForPrevious(s, i) && StartedInOrder(s, i);
        assert forall j | Follows(t, j, i) :: Follows(s, j, i);
      } else {
        assert forall j | Follows(t, j, i) :: t.calls[j] == s.calls[j] && s.calls[j].key == key;
      }
    }
  }

  lemma ResumeKeepsInv(s: State, id: nat)
    requires Inv(s) && Enabled(s, Resume(id))
    ensures Inv(Apply(s, Resume(id)))
  {
    var t := Apply(s, Resume(id));
    var on := s.calls[id].phase.on;
    assert WaitsForPrevious(s, id) && StartedInOrder(s, on);
    forall i | 0 <= i < |t.calls| ensures WaitsForPrevious(t, i) && StartedInOrder(t, i) {
      assert WaitsForPrevious(s, i) && StartedInOrder(s, i);
      forall j | Follows(t, j, i) && !t.calls[i].phase.Waiting?
        ensures t.calls[j].phase.Done?
      {
        assert Follows(s, j, i);
        if i == id {
          assert j <= on;
          assert j < on ==> Follows(s, j, on);
        }
      }
    }
  }

  lemma FinishKeepsInv(s: State, id: nat, succeeded: bool)
    requires Inv(s) && Enabled(s, Finish(id, succeeded))
    ensures Inv(Apply(s, Finish(id, succeeded)))
  {
    hide TableNamesLast;
    var t := Apply(s, Finish(id, succeeded));
    forall i | 0 <= i < |t.calls| ensures WaitsForPrevious(t, i) && StartedInOrder(t, i) {
      assert WaitsForPrevious(s, i) && StartedInOrder(s, i);
      assert forall j | Follows(t, j, i) :: Follows(s, j, i);
    }
    FinishKeepsTable(s, id, succeeded);
  }

  lemma FinishKeepsTable(s: State, id: nat, succeeded: bool)
    requires TableNamesLast(s) && Enabled(s, Finish(id, succeeded)) && StartedInOrder(s, id)
    ensures TableNamesLast(Apply(s, Finish(id, succeeded)))
  {
    assert forall i | 0 <= i < id && s.calls[i].key == s.calls[id].key :: Follows(s, i, id);
  }

  lemma {:induction false} InvAlways(s: State, steps: seq<Step>)
    requires Inv(s) && Runs(s, steps)
    ensures Inv(After(s, steps))
    decreases |steps|
  {
    if steps != [] {
      match steps[0] {
        case Enter(key) => EnterKeepsInv(s, key);
        case Resume(id) => ResumeKeepsInv(s, id);
        case Finish(id, succeeded) => FinishKeepsInv(s, id, succeeded);
      }
      InvAlways(Apply(s, steps[0]), steps[1..]);
    }
  }

  // ---------- What every interleaving keeps ----------

  /** Two operations on one key never overlap, and none starts before an earlier one is done. */
  lemma SerialInCallOrder(steps: seq<Step>, i: nat, j: nat)
    requires Runs(EMPTY, steps)
    requires Follows(After(EMPTY, steps), i, j)
    requires !After(EMPTY, steps).calls[j].phase.Waiting?
    ensures After(EMPTY, steps).calls[i].phase.Done?
  {
    InvAlways(EMPTY, steps);
    assert StartedInOrder(After(EMPTY, steps), j);
  }

  /** A key is in the table exactly while a call on it is outstanding. */
  lemma TableIsClean(steps: seq<Step>, key: string)
    requires Runs(EMPTY, steps)
    ensures
      var s := After(EMPTY, steps);
      key in s.operationByKey
      <==> exists i | 0 <= i < |s.calls| :: s.calls[i].key == key && !s.calls[i].phase.Done?
  {
    InvAlways(EMPTY, steps);
    var s := After(EMPTY, steps);
    if key in s.operationByKey {
      var last := s.operationByKey[key];
      assert s.calls[last].key == key && !s.calls[last].phase.Done?;
    }
  }

  /**
   * No call is left behind: while a call on a key is outstanding, the earliest such call is
   * running or can resume at once, whether the one before it succeeded or threw.
   */
  lemma NextAlwaysRuns(steps: seq<Step>, id: nat) returns (first: nat)
    requires Runs(EMPTY, steps)
    requires id < |After(EMPTY, steps).calls| && !After(EMPTY, steps).calls[id].phase.Done?
    ensures
      var s := After(EMPTY, steps);
      && first <= id && s.calls[first].key == s.calls[id].key
      && (s.calls[first].phase.Running? || Enabled(s, Resume(first)))
  {
    InvAlways(EMPTY, steps);
    var s := After(EMPTY, steps);
    first := id;
    while s.calls[first].phase.Waiting? && !s.calls[s.calls[first].phase.on].phase.Done?
      invariant first <= id && s.calls[first].key == s.calls[id].key
      invariant !s.calls[first].phase.Done?
      invariant WaitsForPrevious(s, first)
      decreases first
    {
      first := s.calls[first].phase.on;
      assert WaitsForPrevious(s, first);
    }
  }

  // ---------- The table and its calls ----------

  class Queue {
    var operationByKey: map<string, nat>
    var calls: seq<Call>

    function View(): State
      reads this
    {
      State(operationByKey, calls)
    }

    constructor ()
      ensures View() == EMPTY
    {
      operationByKey, calls := map[], [];
    }

    /** The call up to its first await: it queues behind the promise it finds, if any. */
    method Begin(key: string) returns (id: nat)
      requires Inv(View())
      modifies this
      ensures View() == Apply(old(View()), Enter(key)) && Inv(View())
      ensures id == |old(calls)|
      ensures calls[id].phase.Running?
              <==> forall i | 0 <= i < id :: calls[i].key == key ==> calls[i].phase.Done?
    {
      ghost var before := View();
      var previous := if key in operationByKey then Some(operationByKey[key]) else None;
      id := |calls|;
      operationByKey := operationByKey[key := id];
      calls := calls + [Call(key, if previous.Some? then Waiting(previous.value) else Running)];
      EnterKeepsInv(before, key);
      if previous.Some? {
        assert calls[previous.value].key == key && !calls[previous.value].phase.Done?;
      }
    }

    /** After the awaited promise resolved. */
    method Continue(id: nat)
      requires Inv(View()) && Enabled(View(), Resume(id))
      modifies this`calls
      ensures View() == Apply(old(View()), Resume(id)) && Inv(View())
      ensures forall i | 0 <= i < id :: calls[i].key == calls[id].key ==> calls[i].phase.Done?
    {
      ResumeKeepsInv(View(), id);
      calls := calls[id := calls[id].(phase := Running)];
      assert StartedInOrder(View(), id);
      assert forall i | 0 <= i < id && calls[i].key == calls[id].key :: Follows(View(), i, id);
    }

    /** The `finally` block. */
    method End(id: nat, succeeded: bool)
      requires Inv(View()) && Enabled(View(), Finish(id, succeeded))
      modifies this
      ensures View() == Apply(old(View()), Finish(id, succeeded)) && Inv(View())
    {
      FinishKeepsInv(View(), id, succeeded);
      var key := calls[id].key;
      calls := calls[id := calls[id].(phase := Done)];
      if key in operationByKey && operationByKey[key] == id {
        operationByKey := operationByKey - {key};
      }
    }
  }
}
