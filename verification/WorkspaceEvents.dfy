/**
 * The change stream of a Workspace (workspace-events.ts): coalesced changes and the followers that
 * wait for them, over every interleaving. A follower is an async generator; one step is what it
 * runs between two suspensions.
 */
module WorkspaceEvents {
  /** `resolved`: the promise that a blocked follower waits for has been resolved. */
  datatype Phase = Created | Blocked(resolved: bool) | Suspended | Finished

  /** `yielded`: the revisions that the consumer has been given, oldest first. */
  datatype Follower = Follower(phase: Phase, dirty: bool, aborted: bool, yielded: seq<nat>)

  /** `pending`: the timer is set. */
  datatype State = State(revision: nat, pending: bool, disposed: bool, followers: seq<Follower>)

  datatype Step =
    | Changed
    | Timer
    | Dispose
    | Follow
    | Pull(id: nat)
    | Wake(id: nat)
    | Abort(id: nat)
    | Return(id: nat)

  predicate Listening(f: Follower) {
    f.phase.Blocked? || f.phase.Suspended?
  }

  /** The `notify` closure: marks the follower and resolves the promise it may wait for. */
  function Notify(f: Follower): Follower {
    if !Listening(f) then f
    else f.(dirty := true, phase := if f.phase.Blocked? then Blocked(true) else f.phase)
  }

  function Yield(f: Follower, revision: nat): Follower {
    f.(dirty := false, phase := Suspended, yielded := f.yielded + [revision])
  }

  /** From the head of the loop to the next suspension. */
  function Advance(f: Follower, revision: nat): Follower {
    if f.aborted then f.(phase := Finished)
    else if !f.dirty then f.(phase := Blocked(false))
    else Yield(f, revision)
  }

  /** From behind the awaited promise to the next suspension. */
  function Resume(f: Follower, revision: nat): Follower {
    if f.aborted then f.(phase := Finished) else Yield(f, revision)
  }

  function Each(followers: seq<Follower>, change: Follower -> Follower): (r: seq<Follower>)
    ensures |r| == |followers|
    ensures forall i | 0 <= i < |followers| :: r[i] == change(followers[i])
  {
    seq(|followers|, i requires 0 <= i < |followers| => change(followers[i]))
  }

  /** An abort reaches a listening follower through its listener, any other through the flag. */
  function Aborted(f: Follower): Follower {
    Notify(f).(aborted := true)
  }

  predicate Enabled(s: State, step: Step) {
    match step
    case Changed => !s.disposed
    case Timer => s.pending && !s.disposed
    case Dispose => !s.disposed
    case Follow => true
    case Pull(id) =>
      id < |s.followers| && (s.followers[id].phase.Created? || s.followers[id].phase.Suspended?)
    case Wake(id) => id < |s.followers| && s.followers[id].phase == Blocked(true)
    case Abort(id) => id < |s.followers|
    case Return(id) => id < |s.followers| && s.followers[id].phase.Suspended?
  }

  function Apply(s: State, step: Step): State
    requires Enabled(s, step)
  {
    match step
    case Changed => s.(pending := true)
    case Timer =>
      s.(pending := false, revision := s.revision + 1, followers := Each(s.followers, Notify))
    case Dispose => s.(disposed := true, followers := Each(s.followers, Aborted))
    case Follow => s.(followers := s.followers + [Follower(Created, true, s.disposed, [])])
    case Pull(id) => s.(followers := s.followers[id := Advance(s.followers[id], s.revision)])
    case Wake(id) => s.(followers := s.followers[id := Resume(s.followers[id], s.revision)])
    case Abort(id) => s.(followers := s.followers[id := Aborted(s.followers[id])])
    case Return(id) => s.(followers := s.followers[id := s.followers[id].(phase := Finished)])
  }

  predicate Runs(s: State, steps: seq<Step>)
    decreases |steps|
  {
    steps == [] || (Enabled(s, steps[0]) && Runs(Apply(s, steps[0]), steps[1..]))
  }

  function After(s: State, steps: seq<Step>): State
    requires Runs(s, steps)
    decreases |steps|
  {
    if steps == [] then s else After(Apply(s, steps[0]), steps[1..])
  }

  const START := State(0, false, false, [])

  // ---------- The invariant ----------

  predicate Increasing(revisions: seq<nat>) {
    forall i, j | 0 <= i < j < |revisions| :: revisions[i] < revisions[j]
  }

  function Last(f: Follower): nat
    requires f.yielded != []
  {
    f.yielded[|f.yielded| - 1]
  }

  /** A follower is clean exactly when it has been given the current revision. */
  predicate Informed(f: Follower, revision: nat) {
    && Increasing(f.yielded)
    && (f.yielded != [] ==> Last(f) <= revision)
    && (f.phase.Created? ==> f.dirty && f.yielded == [])
    && (Listening(f) ==> f.yielded != [])
    && (!f.dirty && Listening(f) ==> Last(f) == revision)
    && (f.dirty && Listening(f) && !f.aborted ==> Last(f) < revision)
    && (f.phase.Blocked? ==> (f.phase.resolved <==> f.dirty))
    && (Listening(f) && f.aborted ==> f.dirty)
  }

  predicate Inv(s: State) {
    && (forall i | 0 <= i < |s.followers| :: Informed(s.followers[i], s.revision))
    && (forall i | 0 <= i < |s.followers| && s.disposed :: s.followers[i].aborted)
  }

  lemma NotifyInforms(f: Follower, revision: nat)
    requires Informed(f, revision)
    ensures Informed(Notify(f), revision + 1)
    ensures Informed(Aborted(f), revision)
  {
  }

  lemma PullInforms(f: Follower, revision: nat)
    requires Informed(f, revision) && (f.phase.Created? || f.phase.Suspended?)
    ensures Informed(Advance(f, revision), revision)
  {
  }

  lemma WakeInforms(f: Follower, revision: nat)
    requires Informed(f, revision) && f.phase == Blocked(true)
    ensures Informed(Resume(f, revision), revision)
  {
  }

  lemma StepKeepsInv(s: State, step: Step)
    requires Inv(s) && Enabled(s, step)
    ensures Inv(Apply(s, step))
  {
    hide Informed, Notify, Advance, Resume;
    match step {
      case Timer =>
        forall i | 0 <= i < |s.followers| ensures Informed(Notify(s.followers[i]), s.revision + 1) {
          NotifyInforms(s.followers[i], s.revision);
        }
      case Dispose =>
        forall i | 0 <= i < |s.followers| ensures Informed(Aborted(s.followers[i]), s.revision) {
          NotifyInforms(s.followers[i], s.revision);
        }
      case Follow => CreatedIsInformed(s.disposed, s.revision);
      case Pull(id) =>
        PullInforms(s.followers[id], s.revision);
        AbortStays(s.followers[id], s.revision);
      case Wake(id) =>
        WakeInforms(s.followers[id], s.revision);
        AbortStays(s.followers[id], s.revision);
      case Abort(id) => NotifyInforms(s.followers[id], s.revision);
      case Return(id) => ReturnInforms(s.followers[id], s.revision);
      case _ =>
    }
  }

  lemma CreatedIsInformed(aborted: bool, revision: nat)
    ensures Informed(Follower(Created, true, aborted, []), revision)
  {
  }

  lemma ReturnInforms(f: Follower, revision: nat)
    requires Informed(f, revision)
    ensures Informed(f.(phase := Finished), revision)
  {
  }

  lemma AbortStays(f: Follower, revision: nat)
    ensures Advance(f, revision).aborted == f.aborted && Resume(f, revision).aborted == f.aborted
  {
  }

  lemma {:induction false} InvAlways(s: State, steps: seq<Step>)
    requires Inv(s) && Runs(s, steps)
    ensures Inv(After(s, steps))
    decreases |steps|
  {
    hide Inv, Apply;
    if steps != [] {
      StepKeepsInv(s, steps[0]);
      InvAlways(Apply(s, steps[0]), steps[1..]);
    }
  }

  // ---------- What every interleaving keeps ----------

  /**
   * No wakeup is lost: a follower that waits for a promise nobody has resolved has been given
   * the current revision, unless it was aborted, and then the promise is resolved.
   */
  lemma NoLostWakeup(steps: seq<Step>, id: nat)
    requires Runs(START, steps) && id < |After(START, steps).followers|
    ensures
      var s := After(START, steps);
      var f := s.followers[id];
      f.phase == Blocked(false) ==> f.yielded != [] && Last(f) == s.revision && !f.aborted
  {
    hide Apply;
    InvAlways(START, steps);
    assert Informed(After(START, steps).followers[id], After(START, steps).revision);
  }

  /** What a follower is given increases strictly and never runs ahead of the changes. */
  lemma RevisionsIncrease(steps: seq<Step>, id: nat)
    requires Runs(START, steps) && id < |After(START, steps).followers|
    ensures
      var s := After(START, steps);
      && Increasing(s.followers[id].yielded)
      && forall i | 0 <= i < |s.followers[id].yielded| :: s.followers[id].yielded[i] <= s.revision
  {
    hide Apply;
    InvAlways(START, steps);
    var s := After(START, steps);
    var f := s.followers[id];
    assert Informed(f, s.revision);
    assert forall i | 0 <= i < |f.yielded| - 1 :: f.yielded[i] < f.yielded[|f.yielded| - 1];
  }

  /** Each change is counted by a later revision, or a timer is set that will count it. */
  lemma ChangesAreCounted(steps: seq<Step>, k: nat)
    requires Runs(START, steps) && k < |steps| && steps[k] == Changed
    ensures Runs(START, steps[..k])
    ensures
      var before, s := After(START, steps[..k]), After(START, steps);
      before.revision < s.revision
      || (s.pending && before.revision == s.revision
          && (!s.disposed ==> Enabled(s, Timer) && before.revision < Apply(s, Timer).revision))
  {
    hide Apply, Runs, After;
    RunsSplit(START, steps, k);
    var before := After(START, steps[..k]);
    RunsSplit(before, steps[k..], 1);
    assert steps[k..][1..] == steps[k + 1..] && steps[k..][..1] == [Changed];
    OneStep(before, Changed);
    ChangedSetsTimer(before);
    CountedOrPending(Apply(before, Changed), steps[k + 1..]);
    var s := After(START, steps);
    if !s.disposed && s.pending {
      TimerCounts(s);
    }
  }

  lemma OneStep(s: State, step: Step)
    requires Runs(s, [step])
    ensures Enabled(s, step) && After(s, [step]) == Apply(s, step)
  {
    hide Apply;
    assert [step][1..] == [];
  }

  lemma ChangedSetsTimer(s: State)
    requires Enabled(s, Changed)
    ensures Apply(s, Changed).pending && Apply(s, Changed).revision == s.revision
  {}

  lemma TimerCounts(s: State)
    requires s.pending && !s.disposed
    ensures Enabled(s, Timer) && Apply(s, Timer).revision == s.revision + 1
  {}

  lemma {:induction false} RunsSplit(s: State, steps: seq<Step>, k: nat)
    requires Runs(s, steps) && k <= |steps|
    ensures Runs(s, steps[..k]) && Runs(After(s, steps[..k]), steps[k..])
    ensures After(After(s, steps[..k]), steps[k..]) == After(s, steps)
    decreases k
  {
    hide Apply, Enabled;
    if k == 0 {
      assert steps[..k] == [] && steps[k..] == steps;
    } else {
      RunsSplit(Apply(s, steps[0]), steps[1..], k - 1);
      assert steps[..k][1..] == steps[1..][..k - 1] && steps[1..][k - 1..] == steps[k..];
    }
  }

  lemma {:induction false} CountedOrPending(s: State, steps: seq<Step>)
    requires Runs(s, steps)
    ensures s.revision <= After(s, steps).revision
    ensures s.pending && After(s, steps).revision == s.revision ==> After(s, steps).pending
    decreases |steps|
  {
    if steps != [] {
      CountedOrPending(Apply(s, steps[0]), steps[1..]);
    }
  }

  function Changes(steps: seq<Step>): nat {
    if steps == [] then 0 else (if steps[0].Changed? then 1 else 0) + Changes(steps[1..])
  }

  /** Changes are coalesced and none is invented: each revision counts at least one of its own. */
  lemma RevisionsAreChanges(steps: seq<Step>)
    requires Runs(START, steps)
    ensures After(START, steps).revision <= Changes(steps)
  {
    RevisionsSince(START, steps);
  }

  lemma {:induction false} RevisionsSince(s: State, steps: seq<Step>)
    requires Runs(s, steps)
    ensures
      var t := After(s, steps);
      t.revision + (if t.pending then 1 else 0)
      <= s.revision + (if s.pending then 1 else 0) + Changes(steps)
    decreases |steps|
  {
    if steps != [] {
      RevisionsSince(Apply(s, steps[0]), steps[1..]);
    }
  }

  /** A follower that is behind goes on by itself when it waits, or at the consumer's next pull. */
  lemma BehindMoves(steps: seq<Step>, id: nat)
    requires Runs(START, steps) && id < |After(START, steps).followers|
    requires Listening(After(START, steps).followers[id]) && !After(START, steps).followers[id].aborted
    ensures
      var s := After(START, steps);
      var f := s.followers[id];
      f.yielded != [] && (Last(f) < s.revision ==>
        var step := if f.phase.Blocked? then Wake(id) else Pull(id);
        && Enabled(s, step)
        && Apply(s, step).followers[id].yielded == f.yielded + [s.revision])
  {
    InvAlways(START, steps);
    InformedAt(After(START, steps), id);
    hide Inv, Runs, After;
  }

  lemma InformedAt(s: State, id: nat)
    requires Inv(s) && id < |s.followers|
    ensures Informed(s.followers[id], s.revision)
  {
  }

  /** Once the service is disposed, nothing is announced or counted any more and no follower yields. */
  lemma DisposedEnds(steps: seq<Step>, k: nat, id: nat)
    requires Runs(START, steps) && k < |steps| && steps[k] == Dispose
    ensures
      var s := After(START, steps);
      && s.disposed && !Enabled(s, Changed) && !Enabled(s, Timer) && !Enabled(s, Dispose)
      && (id < |s.followers| ==> s.followers[id].aborted)
    ensures
      var s := After(START, steps);
      && (Enabled(s, Pull(id)) ==>
            Apply(s, Pull(id)).followers[id] == s.followers[id].(phase := Finished))
      && (Enabled(s, Wake(id)) ==>
            Apply(s, Wake(id)).followers[id] == s.followers[id].(phase := Finished))
  {
    RunsSplit(START, steps, k);
    var before := After(START, steps[..k]);
    RunsSplit(before, steps[k..], 1);
    assert steps[k..][1..] == steps[k + 1..] && steps[k..][..1] == [Dispose];
    OneStep(before, Dispose);
    StaysDisposed(Apply(before, Dispose), steps[k + 1..]);
    InvAlways(START, steps);
    hide Runs, After;
  }

  lemma {:induction false} StaysDisposed(s: State, steps: seq<Step>)
    requires s.disposed && Runs(s, steps)
    ensures After(s, steps).disposed
    decreases |steps|
  {
    if steps != [] {
      StaysDisposed(Apply(s, steps[0]), steps[1..]);
    }
  }

  // ---------- The service and its fields ----------

  class ChangeFeed {
    var revision: nat
    var pending: bool
    var disposed: bool
    var followers: seq<Follower>

    ghost function View(): State
      reads this
    {
      State(revision, pending, disposed, followers)
    }

    ghost predicate Valid()
      reads this
    {
      Inv(View())
    }

    constructor ()
      ensures Valid() && View() == START
    {
      revision, pending, disposed, followers := 0, false, false, [];
    }

    /** `changed`: one timer for all changes until it fires. */
    method Announce()
      requires Valid() && Enabled(View(), Changed)
      modifies this`pending
      ensures Valid() && View() == Apply(old(View()), Changed)
    {
      if pending {
        return;
      }
      pending := true;
    }

    /** The timer: a new revision, and every listener called. */
    method Fire()
      requires Valid() && Enabled(View(), Timer)
      modifies this
      ensures Valid() && View() == Apply(old(View()), Timer)
    {
      StepKeepsInv(View(), Timer);
      hide Inv, Notify;
      ghost var first := followers;
      pending := false;
      revision := revision + 1;
      for i := 0 to |followers|
        invariant |followers| == |first|
        invariant forall k | 0 <= k < i :: followers[k] == Notify(first[k])
        invariant forall k | i <= k < |first| :: followers[k] == first[k]
        invariant revision == old(revision) + 1 && !pending && disposed == old(disposed)
      {
        if Listening(followers[i]) {
          followers := followers[i := Notify(followers[i])];
        } else {
          NotListening(followers[i]);
        }
      }
      assert followers == Each(first, Notify);
    }

    /** A call of `follow`: nothing runs before the first pull. */
    method Open() returns (id: nat)
      requires Valid()
      modifies this`followers
      ensures Valid() && View() == Apply(old(View()), Follow) && id == |old(followers)|
    {
      StepKeepsInv(View(), Follow);
      hide Inv;
      id := |followers|;
      followers := followers + [Follower(Created, true, disposed, [])];
    }

    /** The consumer asks for the next change: the loop runs to its next suspension. */
    method NextChange(id: nat) returns (change: seq<nat>)
      requires Valid() && Enabled(View(), Pull(id))
      modifies this`followers
      ensures Valid() && View() == Apply(old(View()), Pull(id))
      ensures followers[id].yielded == old(followers[id].yielded) + change
      ensures change == if followers[id].phase.Suspended? then [revision] else []
    {
      StepKeepsInv(View(), Pull(id));
      hide Inv;
      var f := followers[id];
      change := [];
      if f.aborted {
        f := f.(phase := Finished);
      } else if !f.dirty {
        f := f.(phase := Blocked(false));
      } else {
        change := [revision];
        f := f.(dirty := false, phase := Suspended, yielded := f.yielded + change);
      }
      followers := followers[id := f];
    }

    /** The awaited promise was resolved. */
    method Continue(id: nat) returns (change: seq<nat>)
      requires Valid() && Enabled(View(), Wake(id))
      modifies this`followers
      ensures Valid() && View() == Apply(old(View()), Wake(id))
      ensures followers[id].yielded == old(followers[id].yielded) + change
      ensures change == if followers[id].phase.Suspended? then [revision] else []
    {
      StepKeepsInv(View(), Wake(id));
      hide Inv;
      var f := followers[id];
      change := [];
      if f.aborted {
        f := f.(phase := Finished);
      } else {
        change := [revision];
        f := f.(dirty := false, phase := Suspended, yielded := f.yielded + change);
      }
      followers := followers[id := f];
    }
  }

  lemma NotListening(f: Follower)
    requires !Listening(f)
    ensures Notify(f) == f
  {
  }
}
