/**
 * The promise-chained updates of the connection record (`updateConnectionState` in
 * connection-state.ts): every interleaving of the two writers on one path, one atomic segment
 * between two awaits per step.
 */
module StateFile {
  import opened Wrappers
  import opened ConnectionState

  /** What the path holds. `Unreadable` stands for text that is not JSON. */
  datatype File = Missing | Unreadable | Holds(value: Value)

  /** A queued update is known by its index; its promise settles when the update has. */
  datatype Phase = Waiting(previous: Option<nat>) | Writing(state: State) | Settled(succeeded: bool)

  /** `left`: the `finally` block behind the promise has run; these blocks run in order. */
  datatype Job = Job(update: Update, phase: Phase, left: bool)

  /** `write` is the entry of `stateWrites` for this path. */
  datatype Store = Store(file: File, write: Option<nat>, jobs: seq<Job>)

  /** `readable` and `written` are the answers of the file system. */
  datatype Step =
    | Submit(update: Update)
    | Begin(id: nat, readable: bool)
    | Persist(id: nat, written: bool)
    | Leave(id: nat)

  /** `readConnectionState` */
  function Read(canonical: Canonical, file: File): Option<State> {
    match file
    case Missing => Some(State(None, None))
    case Unreadable => None
    case Holds(value) => ParseConnectionState(canonical, value)
  }

  function Put(s: Store, id: nat, phase: Phase): Store
    requires id < |s.jobs|
  {
    s.(jobs := s.jobs[id := s.jobs[id].(phase := phase)])
  }

  predicate Enabled(s: Store, step: Step) {
    match step
    case Submit(_) => true
    case Begin(id, _) =>
      && id < |s.jobs| && s.jobs[id].phase.Waiting?
      && var previous := s.jobs[id].phase.previous;
      previous.Some? ==> previous.value < |s.jobs| && s.jobs[previous.value].phase.Settled?
    case Persist(id, _) => id < |s.jobs| && s.jobs[id].phase.Writing?
    case Leave(id) =>
      && id < |s.jobs| && s.jobs[id].phase.Settled? && !s.jobs[id].left
      && (id == 0 || s.jobs[id - 1].left)
  }

  /** What reading the file and applying the update gives, or nothing where a promise rejects. */
  function Updated(canonical: Canonical, file: File, update: Update): Option<State> {
    match Read(canonical, file)
    case Some(current) => ApplyUpdate(canonical, update, current)
    case None => None
  }

  function Apply(canonical: Canonical, s: Store, step: Step): Store
    requires Enabled(s, step)
  {
    match step
    case Submit(update) =>
      s.(write := Some(|s.jobs|), jobs := s.jobs + [Job(update, Waiting(s.write), false)])
    case Begin(id, readable) =>
      var next := if readable then Updated(canonical, s.file, s.jobs[id].update) else None;
      Put(s, id, if next.Some? then Writing(next.value) else Settled(false))
    case Persist(id, written) =>
      Put(s, id, Settled(written))
      .(file := if written then Holds(StateValue(s.jobs[id].phase.state)) else s.file)
    case Leave(id) =>
      s.(write := if s.write == Some(id) then None else s.write,
         jobs := s.jobs[id := s.jobs[id].(left := true)])
  }

  predicate Runs(canonical: Canonical, s: Store, steps: seq<Step>)
    decreases |steps|
  {
    steps == []
    || (Enabled(s, steps[0]) && Runs(canonical, Apply(canonical, s, steps[0]), steps[1..]))
  }

  function After(canonical: Canonical, s: Store, steps: seq<Step>): Store
    requires Runs(canonical, s, steps)
    decreases |steps|
  {
    if steps == [] then s else After(canonical, Apply(canonical, s, steps[0]), steps[1..])
  }

  function Fresh(file: File): Store {
    Store(file, None, [])
  }

  /** Configured origins are canonical before they are queued, as `writeConfiguredOrigin` does. */
  ghost predicate AllQueueable(canonical: Canonical, steps: seq<Step>) {
    forall i | 0 <= i < |steps| :: steps[i].Submit? ==> Queueable(canonical, steps[i].update)
  }

  // ---------- The record that the successful updates make ----------

  predicate Succeeded(job: Job) {
    job.phase == Settled(true)
  }

  /** The successful updates, one after the other in the order of the calls. */
  function Fold(canonical: Canonical, s: State, jobs: seq<Job>): State
    decreases |jobs|
  {
    if jobs == [] then s
    else
      var before := Fold(canonical, s, jobs[..|jobs| - 1]);
      var job := jobs[|jobs| - 1];
      if Succeeded(job) then
        (match ApplyUpdate(canonical, job.update, before)
         case Some(after) => after
         case None => before)
      else before
  }

  /** Jobs with the same updates, of which the same ones succeeded. */
  predicate Alike(jobs: seq<Job>, other: seq<Job>) {
    && |jobs| == |other|
    && forall i | 0 <= i < |jobs| ::
         jobs[i].update == other[i].update && (Succeeded(jobs[i]) <==> Succeeded(other[i]))
  }

  lemma {:induction false} FoldAlike(canonical: Canonical, s: State, jobs: seq<Job>, other: seq<Job>)
    requires Alike(jobs, other)
    ensures Fold(canonical, s, jobs) == Fold(canonical, s, other)
    decreases |jobs|
  {
    if jobs != [] {
      FoldAlike(canonical, s, jobs[..|jobs| - 1], other[..|jobs| - 1]);
    }
  }

  /** The job `id` succeeds after all others that did: its update comes last. */
  lemma {:induction false} FoldNext(canonical: Canonical, s: State, jobs: seq<Job>, id: nat, job: Job)
    requires id < |jobs| && job.update == jobs[id].update && Succeeded(job)
    requires forall i | id <= i < |jobs| :: !Succeeded(jobs[i])
    requires ApplyUpdate(canonical, job.update, Fold(canonical, s, jobs)).Some?
    ensures Some(Fold(canonical, s, jobs[id := job]))
            == ApplyUpdate(canonical, job.update, Fold(canonical, s, jobs))
    decreases |jobs|
  {
    var n := |jobs| - 1;
    if id == n {
      assert jobs[id := job][..n] == jobs[..n];
    } else {
      FoldNext(canonical, s, jobs[..n], id, job);
      assert jobs[id := job][..n] == jobs[..n][id := job];
    }
  }

  // ---------- The invariant ----------

  /** A waiting update waits for the one called just before it, or for nothing. */
  predicate Linked(s: Store) {
    forall i | 0 <= i < |s.jobs| ::
      s.jobs[i].phase.Waiting? && s.jobs[i].phase.previous.Some?
      ==> s.jobs[i].phase.previous.value == i - 1
  }

  predicate Free(job: Job) {
    !job.phase.Waiting? || job.phase.previous.None?
  }

  /** An update that has started, or waits for nothing, comes after settled ones only. */
  predicate InOrder(s: Store) {
    forall i, j | 0 <= i < j < |s.jobs| && Free(s.jobs[j]) :: s.jobs[i].phase.Settled?
  }

  /** The table names the last update of the path until that one has left. */
  predicate Table(s: Store) {
    && (s.write.Some? ==> s.write.value == |s.jobs| - 1)
    && (s.write.Some? <==> s.jobs != [] && !s.jobs[|s.jobs| - 1].left)
    && (forall i | 0 <= i < |s.jobs| && s.jobs[i].left :: s.jobs[i].phase.Settled?)
    && forall i, j | 0 <= i < j < |s.jobs| && s.jobs[j].left :: s.jobs[i].left
  }

  /** An update that succeeded was acceptable. */
  predicate Acceptable(canonical: Canonical, job: Job) {
    Succeeded(job) && job.update.SetConnection? && job.update.active.Some?
    ==> Normalized(canonical, job.update.active.value).Some?
  }

  ghost predicate Updates(canonical: Canonical, s: Store) {
    forall i | 0 <= i < |s.jobs| ::
      Queueable(canonical, s.jobs[i].update) && Acceptable(canonical, s.jobs[i])
  }

  /** The file holds what it held first, changed by the successful updates. */
  ghost predicate Content(canonical: Canonical, file: File, s: Store) {
    match Read(canonical, file)
    case None =>
      && s.file == file
      && forall i | 0 <= i < |s.jobs| :: !s.jobs[i].phase.Writing? && !Succeeded(s.jobs[i])
    case Some(start) =>
      var record := Fold(canonical, start, s.jobs);
      && NormalState(canonical, record)
      && (s.file == Holds(StateValue(record)) || (s.file == file && record == start))
      && ((forall i | 0 <= i < |s.jobs| :: !Succeeded(s.jobs[i])) ==> s.file == file)
      && forall i | 0 <= i < |s.jobs| && s.jobs[i].phase.Writing? ::
           ApplyUpdate(canonical, s.jobs[i].update, record) == Some(s.jobs[i].phase.state)
  }

  ghost predicate Inv(canonical: Canonical, file: File, s: Store) {
    Linked(s) && InOrder(s) && Table(s) && Updates(canonical, s) && Content(canonical, file, s)
  }

  lemma ReadIsNormal(canonical: Canonical, file: File)
    requires Lawful(canonical) && Read(canonical, file).Some?
    ensures NormalState(canonical, Read(canonical, file).value)
  {
    if file.Holds? {
      ParsedIsNormal(canonical, file.value);
    }
    hide ParseConnectionState;
  }

  /** What reading the file gives is the record. */
  lemma ContentIsRead(canonical: Canonical, file: File, s: Store)
    requires Content(canonical, file, s)
    ensures Read(canonical, file).None? ==> Read(canonical, s.file).None?
    ensures Read(canonical, file).Some? ==>
              Read(canonical, s.file) == Some(Fold(canonical, Read(canonical, file).value, s.jobs))
  {
    hide ParseConnectionState, Fold, StateValue;
    if Read(canonical, file).Some? {
      ReadBack(canonical, Fold(canonical, Read(canonical, file).value, s.jobs));
    }
  }

  lemma SubmitKeepsShape(canonical: Canonical, s: Store, update: Update)
    requires Linked(s) && InOrder(s) && Table(s)
    ensures
      var t := Apply(canonical, s, Submit(update));
      Linked(t) && InOrder(t) && Table(t)
  {
    var t := Apply(canonical, s, Submit(update));
    assert forall i | 0 <= i < |s.jobs| :: t.jobs[i] == s.jobs[i];
  }

  lemma SubmitKeepsContent(canonical: Canonical, file: File, s: Store, update: Update)
    requires Updates(canonical, s) && Content(canonical, file, s) && Queueable(canonical, update)
    ensures
      var t := Apply(canonical, s, Submit(update));
      Updates(canonical, t) && Content(canonical, file, t)
  {
    hide ParseConnectionState, ApplyUpdate, StateValue, NormalState, Read, Queueable, Normalized;
    var t := Apply(canonical, s, Submit(update));
    assert t.jobs[..|s.jobs|] == s.jobs;
    assert forall i | 0 <= i < |s.jobs| :: t.jobs[i] == s.jobs[i];
  }

  lemma SubmitKeepsInv(canonical: Canonical, file: File, s: Store, update: Update)
    requires Inv(canonical, file, s) && Queueable(canonical, update)
    ensures Inv(canonical, file, Apply(canonical, s, Submit(update)))
  {
    hide Linked, InOrder, Table, Updates, Content, Queueable, Apply;
    SubmitKeepsShape(canonical, s, update);
    SubmitKeepsContent(canonical, file, s, update);
  }

  lemma BeginKeepsShape(canonical: Canonical, s: Store, id: nat, readable: bool)
    requires Linked(s) && InOrder(s) && Table(s) && Enabled(s, Begin(id, readable))
    ensures
      var t := Apply(canonical, s, Begin(id, readable));
      Linked(t) && InOrder(t) && Table(t)
    ensures forall i | id < i < |s.jobs| :: s.jobs[i].phase.Waiting?
  {
    hide Updated;
  }

  lemma BeginKeepsContent(canonical: Canonical, file: File, s: Store, id: nat, readable: bool)
    requires Updates(canonical, s) && Content(canonical, file, s) && Enabled(s, Begin(id, readable))
    ensures
      var t := Apply(canonical, s, Begin(id, readable));
      Updates(canonical, t) && Content(canonical, file, t)
  {
    hide ParseConnectionState, ApplyUpdate, StateValue, NormalState, Read, Queueable, Fold, Normalized;
    var t := Apply(canonical, s, Begin(id, readable));
    ContentIsRead(canonical, file, s);
    assert Alike(s.jobs, t.jobs);
    if Read(canonical, file).Some? {
      FoldAlike(canonical, Read(canonical, file).value, s.jobs, t.jobs);
    }
  }

  lemma BeginKeepsInv(canonical: Canonical, file: File, s: Store, id: nat, readable: bool)
    requires Inv(canonical, file, s) && Enabled(s, Begin(id, readable))
    ensures Inv(canonical, file, Apply(canonical, s, Begin(id, readable)))
    ensures forall i | id < i < |s.jobs| :: s.jobs[i].phase.Waiting?
  {
    hide Linked, InOrder, Table, Updates, Content, Enabled, Apply;
    BeginKeepsShape(canonical, s, id, readable);
    BeginKeepsContent(canonical, file, s, id, readable);
  }

  lemma AppliedIsAcceptable(canonical: Canonical, job: Job, s: State)
    requires ApplyUpdate(canonical, job.update, s).Some?
    ensures Acceptable(canonical, job)
  {
  }

  lemma PersistKeepsShape(canonical: Canonical, s: Store, id: nat, written: bool)
    requires Linked(s) && InOrder(s) && Table(s) && Enabled(s, Persist(id, written))
    ensures
      var t := Apply(canonical, s, Persist(id, written));
      Linked(t) && InOrder(t) && Table(t)
    ensures forall i | id < i < |s.jobs| :: s.jobs[i].phase.Waiting?
    ensures forall i | 0 <= i < id :: s.jobs[i].phase.Settled?
  {
    hide StateValue;
  }

  lemma PersistKeepsContent(canonical: Canonical, file: File, s: Store, id: nat, written: bool)
    requires Lawful(canonical) && Read(canonical, file).Some?
    requires Updates(canonical, s) && Content(canonical, file, s) && Enabled(s, Persist(id, written))
    requires forall i | 0 <= i < |s.jobs| && i != id :: !s.jobs[i].phase.Writing?
    requires forall i | id < i < |s.jobs| :: s.jobs[i].phase.Waiting?
    ensures
      var t := Apply(canonical, s, Persist(id, written));
      Updates(canonical, t) && Content(canonical, file, t)
  {
    hide ParseConnectionState, ApplyUpdate, StateValue, NormalState, Read, Queueable, Fold, Lawful,
         Normalized;
    var t := Apply(canonical, s, Persist(id, written));
    var start := Read(canonical, file).value;
    if written {
      FoldNext(canonical, start, s.jobs, id, t.jobs[id]);
      UpdateIsNormal(canonical, s.jobs[id].update, Fold(canonical, start, s.jobs));
      AppliedIsAcceptable(canonical, t.jobs[id], Fold(canonical, start, s.jobs));
      hide Acceptable;
      assert Succeeded(t.jobs[id]);
    } else {
      FoldAlike(canonical, start, s.jobs, t.jobs);
      assert forall i | 0 <= i < |s.jobs| && Succeeded(s.jobs[i]) :: Succeeded(t.jobs[i]);
    }
  }

  lemma NothingToPersist(canonical: Canonical, file: File, s: Store, id: nat, written: bool)
    requires Content(canonical, file, s) && Enabled(s, Persist(id, written))
    ensures Read(canonical, file).Some?
  {
    hide Read, Fold, NormalState, StateValue, ApplyUpdate;
  }

  lemma PersistKeepsInv(canonical: Canonical, file: File, s: Store, id: nat, written: bool)
    requires Lawful(canonical)
    requires Inv(canonical, file, s) && Enabled(s, Persist(id, written))
    ensures Inv(canonical, file, Apply(canonical, s, Persist(id, written)))
  {
    hide Linked, InOrder, Table, Updates, Content, Enabled, Apply, Read, Lawful;
    PersistKeepsShape(canonical, s, id, written);
    NothingToPersist(canonical, file, s, id, written);
    PersistKeepsContent(canonical, file, s, id, written);
  }

  lemma LeaveKeepsShape(canonical: Canonical, s: Store, id: nat)
    requires Linked(s) && InOrder(s) && Table(s) && Enabled(s, Leave(id))
    ensures
      var t := Apply(canonical, s, Leave(id));
      Linked(t) && InOrder(t) && Table(t)
  {
    LeaveKeepsTable(canonical, s, id);
    hide Table;
  }

  lemma LeaveKeepsTable(canonical: Canonical, s: Store, id: nat)
    requires Table(s) && Enabled(s, Leave(id))
    ensures Table(Apply(canonical, s, Leave(id)))
  {
    assert forall i | 0 <= i < id :: s.jobs[i].left;
  }

  lemma LeaveKeepsContent(canonical: Canonical, file: File, s: Store, id: nat)
    requires Updates(canonical, s) && Content(canonical, file, s) && Enabled(s, Leave(id))
    ensures
      var t := Apply(canonical, s, Leave(id));
      Updates(canonical, t) && Content(canonical, file, t)
  {
    hide ParseConnectionState, ApplyUpdate, StateValue, NormalState, Read, Queueable, Fold, Normalized;
    var t := Apply(canonical, s, Leave(id));
    assert Alike(s.jobs, t.jobs);
    if Read(canonical, file).Some? {
      FoldAlike(canonical, Read(canonical, file).value, s.jobs, t.jobs);
      assert forall i | 0 <= i < |s.jobs| && Succeeded(s.jobs[i]) :: Succeeded(t.jobs[i]);
    }
  }

  lemma LeaveKeepsInv(canonical: Canonical, file: File, s: Store, id: nat)
    requires Inv(canonical, file, s) && Enabled(s, Leave(id))
    ensures Inv(canonical, file, Apply(canonical, s, Leave(id)))
  {
    hide Linked, InOrder, Table, Updates, Content, Enabled, Apply;
    LeaveKeepsShape(canonical, s, id);
    LeaveKeepsContent(canonical, file, s, id);
  }

  /** A successful write makes the record what its update makes of it; no other step changes it. */
  lemma RecordMoves(canonical: Canonical, file: File, s: Store, step: Step)
    requires Inv(canonical, file, s) && Enabled(s, step) && Read(canonical, file).Some?
    ensures
      var start := Read(canonical, file).value;
      var before := Fold(canonical, start, s.jobs);
      var after := Fold(canonical, start, Apply(canonical, s, step).jobs);
      if step.Persist? && step.written
      then ApplyUpdate(canonical, s.jobs[step.id].update, before) == Some(after)
      else after == before
  {
    var start := Read(canonical, file).value;
    var t := Apply(canonical, s, step);
    hide ParseConnectionState, ApplyUpdate, StateValue, NormalState, Read, Queueable, Updated;
    hide Linked, InOrder, Table, Updates;
    if step.Submit? {
      assert t.jobs[..|s.jobs|] == s.jobs;
    } else if step.Persist? && step.written {
      PersistKeepsShape(canonical, s, step.id, true);
      FoldNext(canonical, start, s.jobs, step.id, t.jobs[step.id]);
    } else {
      hide Apply, Enabled, Content, Fold;
      NothingSucceeds(canonical, s, step);
      FoldAlike(canonical, start, s.jobs, t.jobs);
    }
  }

  lemma NothingSucceeds(canonical: Canonical, s: Store, step: Step)
    requires Enabled(s, step) && !step.Submit? && !(step.Persist? && step.written)
    ensures Alike(s.jobs, Apply(canonical, s, step).jobs)
  {
    hide ParseConnectionState, ApplyUpdate, StateValue, Read, Updated;
  }

  lemma FreshHasInv(canonical: Canonical, file: File)
    requires Lawful(canonical)
    ensures Inv(canonical, file, Fresh(file))
  {
    hide ParseConnectionState;
    if Read(canonical, file).Some? {
      ReadIsNormal(canonical, file);
    }
  }

  lemma {:induction false} InvAlways(canonical: Canonical, file: File, s: Store, steps: seq<Step>)
    requires Lawful(canonical) && AllQueueable(canonical, steps)
    requires Inv(canonical, file, s) && Runs(canonical, s, steps)
    ensures Inv(canonical, file, After(canonical, s, steps))
    decreases |steps|
  {
    hide Inv, Queueable, Apply;
    if steps != [] {
      match steps[0] {
        case Submit(update) => SubmitKeepsInv(canonical, file, s, update);
        case Begin(id, readable) => BeginKeepsInv(canonical, file, s, id, readable);
        case Persist(id, written) => PersistKeepsInv(canonical, file, s, id, written);
        case Leave(id) => LeaveKeepsInv(canonical, file, s, id);
      }
      InvAlways(canonical, file, Apply(canonical, s, steps[0]), steps[1..]);
    }
  }

  // ---------- What every interleaving keeps ----------

  /**
   * The file ends as the fold of the successful updates in call order, and reads back as that
   * record; while nothing succeeded it is untouched. A record that cannot be read fails every update.
   */
  lemma FileIsFold(canonical: Canonical, file: File, steps: seq<Step>)
    requires Lawful(canonical) && AllQueueable(canonical, steps)
    requires Runs(canonical, Fresh(file), steps)
    ensures
      var s := After(canonical, Fresh(file), steps);
      match Read(canonical, file)
      case None => s.file == file && forall i | 0 <= i < |s.jobs| :: !Succeeded(s.jobs[i])
      case Some(start) =>
        && Read(canonical, s.file) == Some(Fold(canonical, start, s.jobs))
        && ((forall i | 0 <= i < |s.jobs| :: !Succeeded(s.jobs[i])) ==> s.file == file)
  {
    hide Read, Fold;
    FreshHasInv(canonical, file);
    InvAlways(canonical, file, Fresh(file), steps);
    ContentIsRead(canonical, file, After(canonical, Fresh(file), steps));
  }

  /** Updates never overlap: each starts only after every earlier one has settled. */
  lemma OneAtATime(canonical: Canonical, file: File, steps: seq<Step>, i: nat, j: nat)
    requires Lawful(canonical) && AllQueueable(canonical, steps)
    requires Runs(canonical, Fresh(file), steps)
    requires i < j < |After(canonical, Fresh(file), steps).jobs|
    requires !After(canonical, Fresh(file), steps).jobs[j].phase.Waiting?
    ensures After(canonical, Fresh(file), steps).jobs[i].phase.Settled?
  {
    hide Content, Updates;
    FreshHasInv(canonical, file);
    InvAlways(canonical, file, Fresh(file), steps);
    assert Free(After(canonical, Fresh(file), steps).jobs[j]);
  }

  /** The first unsettled update is being written or can begin, whatever became of earlier ones. */
  lemma NeverBlocked(canonical: Canonical, file: File, s: Store, id: nat, readable: bool)
    requires Inv(canonical, file, s)
    requires id < |s.jobs| && !s.jobs[id].phase.Settled?
    requires forall i | 0 <= i < id :: s.jobs[i].phase.Settled?
    ensures s.jobs[id].phase.Writing? || Enabled(s, Begin(id, readable))
  {
    hide Content, Updates;
  }

  /**
   * An update whose turn has come is written exactly when the record can be read and its texts are
   * acceptable, and succeeds exactly when it is then written.
   */
  lemma SucceedsExactly(canonical: Canonical, file: File, s: Store, id: nat, readable: bool, written: bool)
    requires Inv(canonical, file, s) && Enabled(s, Begin(id, readable))
    ensures
      var t := Apply(canonical, s, Begin(id, readable));
      var goesOn := readable && Read(canonical, file).Some?
                    && (s.jobs[id].update.SetConnection? && s.jobs[id].update.active.Some? ==>
                          Normalized(canonical, s.jobs[id].update.active.value).Some?);
      if goesOn then
        && Enabled(t, Persist(id, written))
        && Apply(canonical, t, Persist(id, written)).jobs[id].phase == Settled(written)
      else t.jobs[id].phase == Settled(false) && t.file == s.file
  {
    hide Linked, InOrder, Table, Updates;
    ContentIsRead(canonical, file, s);
    hide Content, Read, Fold, Normalized;
  }

  /** The table keeps no entry once every update has left. */
  lemma TableEmpties(canonical: Canonical, file: File, s: Store)
    requires Inv(canonical, file, s)
    requires forall i | 0 <= i < |s.jobs| :: s.jobs[i].left
    ensures s.write.None?
  {
    hide Content, Updates;
  }

  // ---------- Neither writer loses the other's field ----------

  /** The origin that the last successful origin update set. */
  function LastOrigin(first: Option<string>, jobs: seq<Job>): Option<string>
    decreases |jobs|
  {
    if jobs == [] then first
    else
      var job := jobs[|jobs| - 1];
      if Succeeded(job) && job.update.SetOrigin? then Some(job.update.origin)
      else LastOrigin(first, jobs[..|jobs| - 1])
  }

  /** The connection that the last successful connection update set, up to trimming. */
  function LastActive(canonical: Canonical, first: Option<Connection>, jobs: seq<Job>): Option<Connection>
    decreases |jobs|
  {
    if jobs == [] then first
    else
      var job := jobs[|jobs| - 1];
      if Succeeded(job) && job.update.SetConnection? then
        (match job.update.active
         case Some(connection) => Normalized(canonical, connection)
         case None => None)
      else LastActive(canonical, first, jobs[..|jobs| - 1])
  }

  lemma {:induction false} FieldsAreLastWrites(canonical: Canonical, s: State, jobs: seq<Job>)
    requires forall i | 0 <= i < |jobs| :: Acceptable(canonical, jobs[i])
    ensures Fold(canonical, s, jobs)
            == State(LastOrigin(s.configuredOrigin, jobs), LastActive(canonical, s.active, jobs))
    decreases |jobs|
  {
    if jobs != [] {
      assert Acceptable(canonical, jobs[|jobs| - 1]);
      FieldsAreLastWrites(canonical, s, jobs[..|jobs| - 1]);
      hide Normalized;
    }
  }

  /**
   * After any run the record on disk has the origin of the last successful origin update and the
   * connection of the last successful connection update: neither writer undoes the other.
   */
  lemma NeitherFieldIsLost(canonical: Canonical, file: File, steps: seq<Step>)
    requires Lawful(canonical) && AllQueueable(canonical, steps)
    requires Runs(canonical, Fresh(file), steps) && Read(canonical, file).Some?
    ensures
      var start, s := Read(canonical, file).value, After(canonical, Fresh(file), steps);
      Read(canonical, s.file)
      == Some(State(LastOrigin(start.configuredOrigin, s.jobs), LastActive(canonical, start.active, s.jobs)))
  {
    hide Read, Fold, Acceptable;
    FreshHasInv(canonical, file);
    InvAlways(canonical, file, Fresh(file), steps);
    var s := After(canonical, Fresh(file), steps);
    ContentIsRead(canonical, file, s);
    FieldsAreLastWrites(canonical, Read(canonical, file).value, s.jobs);
  }

  // ---------- The file and its queue ----------

  class Record {
    const canonical: Canonical
    var file: File
    var write: Option<nat>
    var jobs: seq<Job>
    ghost const first: File

    ghost function View(): Store
      reads this
    {
      Store(file, write, jobs)
    }

    ghost predicate Valid()
      reads this
    {
      Lawful(canonical) && Inv(canonical, first, View())
    }

    constructor (canonical: Canonical, file: File)
      requires Lawful(canonical)
      ensures Valid() && View() == Fresh(file) && first == file && this.canonical == canonical
    {
      this.canonical, this.file, this.write, this.jobs, this.first :=
        canonical, file, None, [], file;
      new;
      FreshHasInv(canonical, file);
    }

    /** The call up to its first await: it queues behind the promise it finds, if any. */
    method Enter(update: Update) returns (id: nat)
      requires Valid() && Queueable(canonical, update)
      modifies this`write, this`jobs
      ensures Valid() && View() == Apply(canonical, old(View()), Submit(update))
      ensures id == |old(jobs)|
    {
      hide Inv, Queueable, Lawful;
      SubmitKeepsInv(canonical, first, View(), update);
      var previous := write;
      id := |jobs|;
      jobs := jobs + [Job(update, Waiting(previous), false)];
      write := Some(id);
    }

    /** After the promise before it settled: read the file and apply the update. */
    method ReadAndUpdate(id: nat, readable: bool) returns (next: Option<State>)
      requires Valid() && Enabled(View(), Begin(id, readable))
      modifies this`jobs
      ensures Valid() && View() == Apply(canonical, old(View()), Begin(id, readable))
      ensures next == if readable then Updated(canonical, file, jobs[id].update) else None
    {
      BeginKeepsInv(canonical, first, View(), id, readable);
      hide Inv;
      next := None;
      if readable {
        var current := Read(canonical, file);
        if current.Some? {
          next := ApplyUpdate(canonical, jobs[id].update, current.value);
        }
      }
      var phase := if next.Some? then Writing(next.value) else Settled(false);
      jobs := jobs[id := jobs[id].(phase := phase)];
    }

    /** The rename that replaces the file, or a failure of it or of a step before it. */
    method Replace(id: nat, written: bool)
      requires Valid() && Enabled(View(), Persist(id, written))
      modifies this`file, this`jobs
      ensures Valid() && View() == Apply(canonical, old(View()), Persist(id, written))
    {
      PersistKeepsInv(canonical, first, View(), id, written);
      hide Inv;
      if written {
        file := Holds(StateValue(jobs[id].phase.state));
      }
      jobs := jobs[id := jobs[id].(phase := Settled(written))];
    }

    /** The `finally` block. */
    method Exit(id: nat)
      requires Valid() && Enabled(View(), Leave(id))
      modifies this`write, this`jobs
      ensures Valid() && View() == Apply(canonical, old(View()), Leave(id))
    {
      LeaveKeepsInv(canonical, first, View(), id);
      hide Inv;
      if write == Some(id) {
        write := None;
      }
      jobs := jobs[id := jobs[id].(left := true)];
    }
  }
}
