/**
 * The connection switch of the Agent (workspace-auth-provider.ts): memory, disk and the provided
 * runtime over every interleaving of switches, changes of the configured origin and the queued
 * writes of both. One step is one atomic segment between two awaits.
 */
module ConnectionSwitch {
  import opened Wrappers
  import opened Sequences
  import opened Strings
  import opened ConnectionState
  import S = StateFile

  /** `runtimeHomeFor`: the digest of origin and user id is taken as the pair itself. */
  datatype Home = Bootstrap | HomeFor(origin: string, userId: string)

  datatype Runtime = Runtime(home: Home, version: nat)

  datatype Phase =
    | Queued
    | AwaitingOrigin(originWrite: Option<nat>)
    | MakingHome
    | Draining
    | Saving(job: nat)
    | Done(succeeded: bool)

  /** One call of `switchConnection`; each waits for the one before it. */
  datatype Operation = Operation(next: Option<Connection>, phase: Phase)

  /** Versions are drawn fresh: a counter that never repeats stands for the random ones. */
  datatype Provider = Provider(
    store: S.Store,
    active: Option<Connection>,
    configuredOrigin: string,
    originWrite: Option<nat>,
    originWriteError: bool,
    staged: bool,
    next: Option<Connection>,
    version: nat,
    provided: Option<Runtime>,
    operations: seq<Operation>)

  datatype Step =
    | OriginChange(configured: string)
    | Connect(connection: Connection)
    | Disconnect
    | Check(id: nat, settingsReset: bool)
    | Look(id: nat)
    | Stage(id: nat, homeMade: bool)
    | Drained(id: nat)
    | Finish(id: nat)
    | BeginWrite(job: nat, readable: bool)
    | PersistWrite(job: nat, written: bool)
    | LeaveWrite(job: nat)

  function HomeOf(canonical: Canonical, connection: Option<Connection>): Option<Home> {
    match connection
    case None => Some(Bootstrap)
    case Some(c) =>
      if Trim(c.identity.userId) == "" || canonical(c.origin).None? then None
      else Some(HomeFor(canonical(c.origin).value, c.identity.userId))
  }

  /** `provideRuntime` */
  function Provided(canonical: Canonical, active: Option<Connection>, version: nat): Option<Runtime> {
    match HomeOf(canonical, active)
    case Some(home) => Some(Runtime(home, version))
    case None => None
  }

  predicate Enabled(s: Provider, step: Step) {
    match step
    case OriginChange(_) => true
    case Connect(_) => true
    case Disconnect => true
    case Check(id, _) =>
      && id < |s.operations| && s.operations[id].phase.Queued?
      && (id == 0 || s.operations[id - 1].phase.Done?)
    case Look(id) =>
      && id < |s.operations| && s.operations[id].phase.AwaitingOrigin?
      && var write := s.operations[id].phase.originWrite;
      write.Some? ==> write.value < |s.store.jobs| && s.store.jobs[write.value].left
    case Stage(id, _) => id < |s.operations| && s.operations[id].phase.MakingHome?
    case Drained(id) => id < |s.operations| && s.operations[id].phase.Draining?
    case Finish(id) =>
      && id < |s.operations| && s.operations[id].phase.Saving?
      && s.operations[id].phase.job < |s.store.jobs| && s.store.jobs[s.operations[id].phase.job].left
      && s.store.jobs[s.operations[id].phase.job].phase.Settled?
    case BeginWrite(job, readable) => S.Enabled(s.store, S.Begin(job, readable))
    case PersistWrite(job, written) => S.Enabled(s.store, S.Persist(job, written))
    case LeaveWrite(job) => S.Enabled(s.store, S.Leave(job))
  }

  function Put(s: Provider, id: nat, phase: Phase): Provider
    requires id < |s.operations|
  {
    s.(operations := s.operations[id := s.operations[id].(phase := phase)])
  }

  function Submit(canonical: Canonical, s: Provider, update: Update): Provider {
    s.(store := S.Apply(canonical, s.store, S.Submit(update)))
  }

  function Apply(canonical: Canonical, s: Provider, step: Step): Provider
    requires Enabled(s, step)
  {
    match step
    case OriginChange(configured) =>
      (match canonical(configured)
       case Some(origin) =>
         if origin == s.configuredOrigin then s
         else
           SubmitOrigin(canonical, s, origin)
       case None => s)
    case Connect(connection) =>
      (match canonical(connection.origin)
       case Some(origin) =>
         s.(operations := s.operations + [Operation(Some(connection.(origin := origin)), Queued)])
       case None => s)
    case Disconnect => s.(operations := s.operations + [Operation(None, Queued)])
    case Check(id, settingsReset) =>
      Put(s, id, if settingsReset then AwaitingOrigin(s.originWrite) else Done(false))
    case Look(id) =>
      var goesOn := !s.originWriteError && HomeOf(canonical, s.operations[id].next).Some?;
      Put(s, id, if goesOn then MakingHome else Done(false))
    case Stage(id, homeMade) =>
      if homeMade then Put(s, id, Draining).(staged := true, next := s.operations[id].next)
      else Put(s, id, Done(false))
    case Drained(id) =>
      Put(Submit(canonical, s, SetConnection(s.next)), id, Saving(|s.store.jobs|)).(provided := None)
    case Finish(id) =>
      var written := S.Succeeded(s.store.jobs[s.operations[id].phase.job]);
      var active := if written then s.operations[id].next else s.active;
      Put(s, id, Done(written))
      .(active := active, version := s.version + 1,
        provided := Provided(canonical, active, s.version + 1), staged := false, next := None)
    case BeginWrite(job, readable) =>
      s.(store := S.Apply(canonical, s.store, S.Begin(job, readable)))
    case PersistWrite(job, written) =>
      s.(store := S.Apply(canonical, s.store, S.Persist(job, written)))
    case LeaveWrite(job) =>
      var entry := s.store.jobs[job];
      s.(store := S.Apply(canonical, s.store, S.Leave(job)),
         originWriteError := if entry.update.SetOrigin? then !S.Succeeded(entry) else s.originWriteError)
  }

  /** The provider with the connection on record, before anything has happened. */
  function Plain(canonical: Canonical, file: S.File, state: State, origin: string): Provider {
    Provider(S.Fresh(file), state.active, origin, None, false, false, None, 0,
             Provided(canonical, state.active, 0), [])
  }

  /**
   * The constructor: nothing where it throws. Where neither origin nor connection is on record,
   * a change of the origin may follow at once, as the first step of a run.
   */
  function Construct(canonical: Canonical, file: S.File, workspaceOrigin: string): Option<Provider> {
    match S.Read(canonical, file)
    case None => None
    case Some(state) =>
      var configured :=
        if state.configuredOrigin.Some? then state.configuredOrigin
        else if state.active.Some? then Some(state.active.value.origin)
        else canonical(workspaceOrigin);
      match configured
      case None => None
      case Some(origin) =>
        var plain := Plain(canonical, file, state, origin);
        if state.configuredOrigin.None? && state.active.Some?
        then Some(SubmitOrigin(canonical, plain, origin))
        else Some(plain)
  }

  predicate Runs(canonical: Canonical, s: Provider, steps: seq<Step>)
    decreases |steps|
  {
    steps == []
    || (Enabled(s, steps[0]) && Runs(canonical, Apply(canonical, s, steps[0]), steps[1..]))
  }

  function After(canonical: Canonical, s: Provider, steps: seq<Step>): Provider
    requires Runs(canonical, s, steps)
    decreases |steps|
  {
    if steps == [] then s else After(canonical, Apply(canonical, s, steps[0]), steps[1..])
  }

  // ---------- The connection that the finished switches make ----------

  /** The connection of the last successful switch. */
  function LastSwitch(first: Option<Connection>, operations: seq<Operation>): Option<Connection>
    decreases |operations|
  {
    if operations == [] then first
    else if operations[|operations| - 1].phase == Done(true) then operations[|operations| - 1].next
    else LastSwitch(first, operations[..|operations| - 1])
  }

  lemma {:induction false} LastSwitchStays(first: Option<Connection>, operations: seq<Operation>,
                                           id: nat, operation: Operation)
    requires id < |operations|
    requires operations[id].phase != Done(true) && operation.phase != Done(true)
    ensures LastSwitch(first, operations[id := operation]) == LastSwitch(first, operations)
    decreases |operations|
  {
    var n := |operations| - 1;
    if id == n {
      assert operations[id := operation][..n] == operations[..n];
    } else {
      LastSwitchStays(first, operations[..n], id, operation);
      assert operations[id := operation][..n] == operations[..n][id := operation];
    }
  }

  lemma {:induction false} LastSwitchNext(first: Option<Connection>, operations: seq<Operation>,
                                          id: nat, operation: Operation)
    requires id < |operations| && operation.phase == Done(true)
    requires forall i | id < i < |operations| :: operations[i].phase.Queued?
    ensures LastSwitch(first, operations[id := operation]) == operation.next
    decreases |operations|
  {
    var n := |operations| - 1;
    if id < n {
      LastSwitchNext(first, operations[..n], id, operation);
      assert operations[id := operation][..n] == operations[..n][id := operation];
    }
  }

  // ---------- The invariant ----------

  predicate InSwitch(operation: Operation) {
    operation.phase.Draining? || operation.phase.Saving?
  }

  predicate NeedsHome(operation: Operation) {
    operation.phase.MakingHome? || InSwitch(operation)
  }

  /** Switches start in call order, each after the earlier ones are done. */
  predicate Order(s: Provider) {
    && (forall i, j | 0 <= i < j < |s.operations| && !s.operations[j].phase.Queued? ::
          s.operations[i].phase.Done?)
    && (s.staged <==> exists i :: 0 <= i < |s.operations| && InSwitch(s.operations[i]))
    && (forall i | 0 <= i < |s.operations| && InSwitch(s.operations[i]) ::
          s.next == s.operations[i].next)
  }

  predicate SavedBy(s: Provider, id: int, job: int) {
    0 <= id < |s.operations| && s.operations[id].phase.Saving? && s.operations[id].phase.job == job
  }

  /** The only connection update that may still be under way is that of the current switch. */
  ghost predicate Jobs(s: Provider) {
    && (forall k | 0 <= k < |s.store.jobs| && s.store.jobs[k].update.SetConnection? ::
          (s.store.jobs[k].phase.Settled? && s.store.jobs[k].left) || exists i :: SavedBy(s, i, k))
    && (forall i | 0 <= i < |s.operations| && s.operations[i].phase.Saving? ::
          var job := s.operations[i].phase.job;
          job < |s.store.jobs| && s.store.jobs[job].update == SetConnection(s.operations[i].next))
    && (forall i | 0 <= i < |s.operations| && s.operations[i].phase.AwaitingOrigin? ::
          s.operations[i].phase.originWrite.Some? ==>
            s.operations[i].phase.originWrite.value < |s.store.jobs|)
  }

  /** The form in which a connection is on disk: its texts trimmed. */
  function OnDisk(canonical: Canonical, active: Option<Connection>): Option<Connection> {
    match active
    case Some(connection) => Normalized(canonical, connection)
    case None => None
  }

  predicate Storable(canonical: Canonical, active: Option<Connection>) {
    active.Some? ==> Normalized(canonical, active.value).Some?
  }

  predicate HasSaved(s: Provider, id: int) {
    && 0 <= id < |s.operations| && s.operations[id].phase.Saving?
    && s.operations[id].phase.job < |s.store.jobs|
    && S.Succeeded(s.store.jobs[s.operations[id].phase.job])
  }

  /** The disk has the connection in memory, or that of a switch just before its last segment. */
  ghost predicate Disk(canonical: Canonical, start: State, s: Provider) {
    var disk := S.Fold(canonical, start, s.store.jobs).active;
    && (forall i | HasSaved(s, i) ::
          disk == OnDisk(canonical, s.operations[i].next) && Storable(canonical, s.operations[i].next))
    && ((forall i :: !HasSaved(s, i)) ==> disk == OnDisk(canonical, s.active))
  }

  /** `connect` makes the origin canonical before the switch is queued. */
  predicate OriginFixed(canonical: Canonical, connection: Option<Connection>) {
    connection.Some? ==> canonical(connection.value.origin) == Some(connection.value.origin)
  }

  ghost predicate Memory(canonical: Canonical, start: State, s: Provider) {
    && OriginFixed(canonical, s.active)
    && (forall i | 0 <= i < |s.operations| :: OriginFixed(canonical, s.operations[i].next))
    && s.active == LastSwitch(start.active, s.operations)
    && Storable(canonical, s.active)
    && HomeOf(canonical, s.active).Some?
    && (forall i | 0 <= i < |s.operations| && NeedsHome(s.operations[i]) ::
          HomeOf(canonical, s.operations[i].next).Some?)
    && (!s.staged ==> s.provided == Provided(canonical, s.active, s.version))
  }

  /** The pending write is that of the configured origin, and the last of its kind. */
  ghost predicate Origin(s: Provider) {
    match s.originWrite
    case None => forall k | 0 <= k < |s.store.jobs| :: s.store.jobs[k].update.SetConnection?
    case Some(write) =>
      && write < |s.store.jobs| && s.store.jobs[write].update == SetOrigin(s.configuredOrigin)
      && forall k | write < k < |s.store.jobs| :: s.store.jobs[k].update.SetConnection?
  }

  /** Whether the last origin write that is over has failed. */
  predicate LastOriginFailed(jobs: seq<S.Job>)
    decreases |jobs|
  {
    if jobs == [] then false
    else
      var job := jobs[|jobs| - 1];
      if job.left && job.update.SetOrigin? then !S.Succeeded(job)
      else LastOriginFailed(jobs[..|jobs| - 1])
  }

  /** Jobs that are over are the same ones, with the same outcome. */
  predicate SameOver(jobs: seq<S.Job>, other: seq<S.Job>) {
    && |jobs| == |other|
    && forall i | 0 <= i < |jobs| ::
         && jobs[i].update == other[i].update && jobs[i].left == other[i].left
         && (jobs[i].left ==> other[i].phase == jobs[i].phase)
  }

  lemma {:induction false} SameOriginOutcome(jobs: seq<S.Job>, other: seq<S.Job>)
    requires SameOver(jobs, other)
    ensures LastOriginFailed(jobs) == LastOriginFailed(other)
    decreases |jobs|
  {
    if jobs != [] {
      SameOriginOutcome(jobs[..|jobs| - 1], other[..|jobs| - 1]);
    }
  }

  lemma {:induction false} NextOriginOutcome(jobs: seq<S.Job>, id: nat, job: S.Job)
    requires id < |jobs| && !jobs[id].left && job == jobs[id].(left := true)
    requires forall i | id < i < |jobs| :: !jobs[i].left
    ensures LastOriginFailed(jobs[id := job])
            == if job.update.SetOrigin? then !S.Succeeded(job) else LastOriginFailed(jobs)
    decreases |jobs|
  {
    var n := |jobs| - 1;
    if id == n {
      assert jobs[id := job][..n] == jobs[..n];
    } else {
      NextOriginOutcome(jobs[..n], id, job);
      assert jobs[id := job][..n] == jobs[..n][id := job];
    }
  }

  lemma NewOriginOutcome(jobs: seq<S.Job>, job: S.Job)
    requires !job.left
    ensures LastOriginFailed(jobs + [job]) == LastOriginFailed(jobs)
  {
    assert (jobs + [job])[..|jobs|] == jobs;
  }

  /** `originWriteError` is the outcome of the last origin write that is over. */
  predicate OriginError(s: Provider) {
    s.originWriteError == LastOriginFailed(s.store.jobs)
  }

  ghost predicate Inv(canonical: Canonical, file: S.File, s: Provider) {
    && S.Read(canonical, file).Some?
    && S.Inv(canonical, file, s.store)
    && Order(s) && Jobs(s) && Origin(s) && OriginError(s)
    && Disk(canonical, S.Read(canonical, file).value, s)
    && Memory(canonical, S.Read(canonical, file).value, s)
  }

  // ---------- Steps of the two callers ----------

  lemma CanonicalOrigin(canonical: Canonical, text: string)
    requires Lawful(canonical) && canonical(text).Some?
    ensures Queueable(canonical, SetOrigin(canonical(text).value))
  {
  }

  lemma SubmitKeepsDisk(canonical: Canonical, start: State, s: Provider, update: Update)
    requires Jobs(s) && Disk(canonical, start, s)
    ensures Disk(canonical, start, Submit(canonical, s, update))
  {
    hide ApplyUpdate, OnDisk, Storable;
    var t := Submit(canonical, s, update);
    assert t.store.jobs[..|s.store.jobs|] == s.store.jobs;
    assert forall i :: HasSaved(t, i) <==> HasSaved(s, i);
  }

  lemma SubmitKeepsStore(canonical: Canonical, file: S.File, s: Provider, update: Update)
    requires S.Inv(canonical, file, s.store) && Queueable(canonical, update)
    ensures S.Inv(canonical, file, Submit(canonical, s, update).store)
    ensures Submit(canonical, s, update).store.jobs
            == s.store.jobs + [S.Job(update, S.Waiting(s.store.write), false)]
    ensures OriginError(s) ==> OriginError(Submit(canonical, s, update))
  {
    NewOriginOutcome(s.store.jobs, S.Job(update, S.Waiting(s.store.write), false));
    hide LastOriginFailed;
    hide S.Inv, Queueable;
    S.SubmitKeepsInv(canonical, file, s.store, update);
  }

  lemma OriginChangeKeepsInv(canonical: Canonical, file: S.File, s: Provider, configured: string)
    requires Lawful(canonical) && Inv(canonical, file, s)
    ensures Inv(canonical, file, Apply(canonical, s, OriginChange(configured)))
  {
    hide Inv, Lawful, S.Apply, Queueable;
    if canonical(configured).Some? && canonical(configured).value != s.configuredOrigin {
      CanonicalOrigin(canonical, configured);
      SubmitOriginKeepsInv(canonical, file, s, canonical(configured).value);
    }
  }

  /** The configured origin is set and its write queued. */
  function SubmitOrigin(canonical: Canonical, s: Provider, origin: string): Provider {
    Submit(canonical, s, SetOrigin(origin))
    .(configuredOrigin := origin, originWrite := Some(|s.store.jobs|))
  }

  lemma SubmitOriginKeepsInv(canonical: Canonical, file: S.File, s: Provider, origin: string)
    requires Inv(canonical, file, s) && Queueable(canonical, SetOrigin(origin))
    ensures Inv(canonical, file, SubmitOrigin(canonical, s, origin))
  {
    hide S.Inv, S.Read, S.Apply, S.Fold, Queueable, OnDisk, Storable, HomeOf, LastSwitch, Disk;
    hide LastOriginFailed, Memory;
    var t, update := SubmitOrigin(canonical, s, origin), SetOrigin(origin);
    SubmitKeepsStore(canonical, file, s, update);
    SubmitKeepsDisk(canonical, S.Read(canonical, file).value, s, update);
    var u := Submit(canonical, s, update);
    assert forall i, k :: SavedBy(t, i, k) <==> SavedBy(s, i, k);
    SameDisk(canonical, S.Read(canonical, file).value, u, t);
    SameMemory(canonical, S.Read(canonical, file).value, s, t);
  }

  lemma SameMemory(canonical: Canonical, start: State, s: Provider, t: Provider)
    requires Memory(canonical, start, s)
    requires t == s.(store := t.store, configuredOrigin := t.configuredOrigin, originWrite := t.originWrite)
    ensures Memory(canonical, start, t)
  {
    hide OnDisk, Storable, HomeOf, LastSwitch;
  }

  /** `Disk` depends on the file, the connection in memory and the switches only. */
  lemma SameDisk(canonical: Canonical, start: State, s: Provider, t: Provider)
    requires Disk(canonical, start, s)
    requires t.store == s.store && t.active == s.active && t.operations == s.operations
    ensures Disk(canonical, start, t)
  {
    hide OnDisk, Storable, S.Fold;
    assert forall i :: HasSaved(t, i) <==> HasSaved(s, i);
  }

  lemma QueueKeepsOrder(s: Provider, t: Provider, next: Option<Connection>)
    requires Order(s) && t == s.(operations := s.operations + [Operation(next, Queued)])
    ensures Order(t)
  {
    assert forall i :: 0 <= i < |s.operations| ==> t.operations[i] == s.operations[i];
    assert s.staged ==> exists i :: 0 <= i < |s.operations| && InSwitch(t.operations[i]);
  }

  lemma QueueKeepsJobs(s: Provider, t: Provider, next: Option<Connection>)
    requires Jobs(s) && t == s.(operations := s.operations + [Operation(next, Queued)])
    ensures Jobs(t)
  {
    assert forall i :: 0 <= i < |s.operations| ==> t.operations[i] == s.operations[i];
    assert forall i, k :: SavedBy(t, i, k) <==> SavedBy(s, i, k);
  }

  lemma QueueKeepsDisk(canonical: Canonical, start: State, s: Provider, t: Provider,
                       next: Option<Connection>)
    requires Disk(canonical, start, s)
    requires t == s.(operations := s.operations + [Operation(next, Queued)])
    ensures Disk(canonical, start, t)
  {
    hide S.Fold, OnDisk, Storable;
    assert forall i :: HasSaved(t, i) <==> HasSaved(s, i);
  }

  lemma QueueKeepsInv(canonical: Canonical, file: S.File, s: Provider, next: Option<Connection>)
    requires Inv(canonical, file, s) && OriginFixed(canonical, next)
    ensures Inv(canonical, file, s.(operations := s.operations + [Operation(next, Queued)]))
  {
    hide S.Inv, S.Read, OnDisk, Storable, HomeOf, LastSwitch, LastOriginFailed, Order, Jobs, Disk;
    var t := s.(operations := s.operations + [Operation(next, Queued)]);
    var start := S.Read(canonical, file).value;
    QueueKeepsOrder(s, t, next);
    QueueKeepsJobs(s, t, next);
    QueueKeepsDisk(canonical, start, s, t, next);
    LastSwitchQueued(start.active, s.operations, next);
  }

  lemma LastSwitchQueued(first: Option<Connection>, operations: seq<Operation>, next: Option<Connection>)
    ensures LastSwitch(first, operations + [Operation(next, Queued)]) == LastSwitch(first, operations)
  {
    assert (operations + [Operation(next, Queued)])[..|operations|] == operations;
  }

  // ---------- Segments of a switch ----------

  /** A switch that is not staged moves on, fails or is staged. */
  predicate Outside(phase: Phase) {
    phase.Queued? || phase.AwaitingOrigin? || phase.MakingHome? || phase == Done(false)
  }

  /** The switch `id` moves on outside the staged part. */
  lemma MoveKeepsInv(canonical: Canonical, file: S.File, s: Provider, id: nat, phase: Phase)
    requires Inv(canonical, file, s) && id < |s.operations|
    requires Outside(s.operations[id].phase) && Outside(phase) && !phase.Queued?
    requires forall i | 0 <= i < id :: s.operations[i].phase.Done?
    requires !s.operations[id].phase.Done?
    requires phase.AwaitingOrigin? ==> phase.originWrite == s.originWrite
    requires phase.MakingHome? ==> HomeOf(canonical, s.operations[id].next).Some?
    ensures Inv(canonical, file, Put(s, id, phase))
  {
    hide LastOriginFailed;
    hide S.Inv, S.Read, S.Fold, OnDisk, Storable, HomeOf, LastSwitch;
    var t := Put(s, id, phase);
    assert forall i, k :: SavedBy(t, i, k) <==> SavedBy(s, i, k);
    assert forall i :: HasSaved(t, i) <==> HasSaved(s, i);
    assert forall i | 0 <= i < |s.operations| :: InSwitch(t.operations[i]) <==> InSwitch(s.operations[i]);
    LastSwitchStays(S.Read(canonical, file).value.active, s.operations, id, t.operations[id]);
  }

  lemma EarlierDone(s: Provider, id: nat)
    requires Order(s) && id < |s.operations|
    requires !s.operations[id].phase.Queued? || id == 0 || s.operations[id - 1].phase.Done?
    ensures forall i | 0 <= i < id :: s.operations[i].phase.Done?
    ensures !s.operations[id].phase.Done? ==>
              forall i | id < i < |s.operations| :: s.operations[i].phase.Queued?
  {
    if !s.operations[id].phase.Done? {
      forall i | id < i < |s.operations| ensures s.operations[i].phase.Queued? {
        assert s.operations[id].phase.Done? || s.operations[i].phase.Queued?;
      }
    }
  }

  lemma CheckKeepsInv(canonical: Canonical, file: S.File, s: Provider, id: nat, settingsReset: bool)
    requires Inv(canonical, file, s) && Enabled(s, Check(id, settingsReset))
    ensures Inv(canonical, file, Apply(canonical, s, Check(id, settingsReset)))
  {
    InOrder(canonical, file, s);
    hide Inv;
    EarlierDone(s, id);
    MoveKeepsInv(canonical, file, s, id,
                 if settingsReset then AwaitingOrigin(s.originWrite) else Done(false));
  }

  lemma InOrder(canonical: Canonical, file: S.File, s: Provider)
    requires Inv(canonical, file, s)
    ensures Order(s)
  {
  }

  lemma LookKeepsInv(canonical: Canonical, file: S.File, s: Provider, id: nat)
    requires Inv(canonical, file, s) && Enabled(s, Look(id))
    ensures Inv(canonical, file, Apply(canonical, s, Look(id)))
  {
    InOrder(canonical, file, s);
    hide Inv, HomeOf;
    EarlierDone(s, id);
    MoveKeepsInv(canonical, file, s, id, Apply(canonical, s, Look(id)).operations[id].phase);
  }

  lemma StageKeepsInv(canonical: Canonical, file: S.File, s: Provider, id: nat, homeMade: bool)
    requires Inv(canonical, file, s) && Enabled(s, Stage(id, homeMade))
    ensures Inv(canonical, file, Apply(canonical, s, Stage(id, homeMade)))
  {
    hide LastOriginFailed;
    hide S.Inv, S.Read, S.Fold, OnDisk, Storable, HomeOf, LastSwitch, Normalized;
    var t := Apply(canonical, s, Stage(id, homeMade));
    EarlierDone(s, id);
    if t.operations[id].phase.Done? {
      MoveKeepsInv(canonical, file, s, id, Done(false));
    } else {
      assert forall i, k :: SavedBy(t, i, k) <==> SavedBy(s, i, k);
      assert forall i :: HasSaved(t, i) <==> HasSaved(s, i);
      assert InSwitch(t.operations[id]);
      LastSwitchStays(S.Read(canonical, file).value.active, s.operations, id, t.operations[id]);
    }
  }

  lemma DrainedKeepsJobs(canonical: Canonical, s: Provider, id: nat)
    requires Order(s) && Jobs(s) && Origin(s) && Enabled(s, Drained(id))
    ensures Jobs(Apply(canonical, s, Drained(id))) && Origin(Apply(canonical, s, Drained(id)))
  {
    hide HomeOf;
    var t := Apply(canonical, s, Drained(id));
    EarlierDone(s, id);
    assert InSwitch(s.operations[id]) && SavedBy(t, id, |s.store.jobs|);
    assert forall i, k | SavedBy(s, i, k) :: SavedBy(t, i, k);
    assert forall i | 0 <= i < |s.operations| && i != id :: t.operations[i] == s.operations[i];
  }

  lemma DrainedKeepsDisk(canonical: Canonical, start: State, s: Provider, id: nat)
    requires Order(s) && Jobs(s) && Disk(canonical, start, s) && Enabled(s, Drained(id))
    ensures Disk(canonical, start, Apply(canonical, s, Drained(id)))
  {
    hide S.Fold, OnDisk, Storable, HomeOf;
    var t, u := Apply(canonical, s, Drained(id)), Submit(canonical, s, SetConnection(s.next));
    SubmitKeepsDisk(canonical, start, s, SetConnection(s.next));
    EarlierDone(s, id);
    assert forall i :: !HasSaved(s, i);
    assert forall i :: !HasSaved(t, i) && !HasSaved(u, i);
  }

  lemma DrainedKeepsInv(canonical: Canonical, file: S.File, s: Provider, id: nat)
    requires Inv(canonical, file, s) && Enabled(s, Drained(id))
    ensures Inv(canonical, file, Apply(canonical, s, Drained(id)))
  {
    hide S.Inv, S.Read, OnDisk, Storable, HomeOf, LastSwitch, LastOriginFailed, S.Apply;
    hide Jobs, Disk, Origin;
    var start := S.Read(canonical, file).value;
    var t := Apply(canonical, s, Drained(id));
    EarlierDone(s, id);
    assert InSwitch(s.operations[id]) && InSwitch(t.operations[id]);
    SubmitKeepsStore(canonical, file, s, SetConnection(s.next));
    DrainedKeepsJobs(canonical, s, id);
    DrainedKeepsDisk(canonical, start, s, id);
    LastSwitchStays(start.active, s.operations, id, t.operations[id]);
  }

  lemma FinishKeepsJobs(canonical: Canonical, s: Provider, id: nat)
    requires Order(s) && Jobs(s) && Enabled(s, Finish(id))
    ensures Order(Apply(canonical, s, Finish(id))) && Jobs(Apply(canonical, s, Finish(id)))
  {
    hide Provided;
    var t := Apply(canonical, s, Finish(id));
    EarlierDone(s, id);
    assert InSwitch(s.operations[id]);
    assert forall i, k | SavedBy(s, i, k) :: i == id && k == s.operations[id].phase.job;
  }

  lemma FinishKeepsDisk(canonical: Canonical, start: State, s: Provider, id: nat)
    requires Enabled(s, Finish(id)) && Order(s) && Disk(canonical, start, s)
    ensures
      S.Succeeded(s.store.jobs[s.operations[id].phase.job]) ==> Storable(canonical, s.operations[id].next)
    ensures Disk(canonical, start, Apply(canonical, s, Finish(id)))
  {
    hide S.Fold, OnDisk, Storable, Provided;
    var t := Apply(canonical, s, Finish(id));
    EarlierDone(s, id);
    if S.Succeeded(s.store.jobs[s.operations[id].phase.job]) {
      assert HasSaved(s, id);
    } else {
      assert forall i :: !HasSaved(s, i);
    }
    assert forall i :: !HasSaved(t, i);
  }

  lemma FinishKeepsInv(canonical: Canonical, file: S.File, s: Provider, id: nat)
    requires Inv(canonical, file, s) && Enabled(s, Finish(id))
    ensures Inv(canonical, file, Apply(canonical, s, Finish(id)))
  {
    hide LastOriginFailed, S.Inv, S.Read, OnDisk, Storable, HomeOf, LastSwitch, Jobs, Disk;
    var start := S.Read(canonical, file).value;
    var t := Apply(canonical, s, Finish(id));
    EarlierDone(s, id);
    assert InSwitch(s.operations[id]);
    FinishKeepsJobs(canonical, s, id);
    FinishKeepsDisk(canonical, start, s, id);
    if S.Succeeded(s.store.jobs[s.operations[id].phase.job]) {
      LastSwitchNext(start.active, s.operations, id, t.operations[id]);
    } else {
      LastSwitchStays(start.active, s.operations, id, t.operations[id]);
    }
  }

  // ---------- Steps of the queued writes ----------

  /** A step of the queued writes touches neither the switches nor the connection in memory. */
  predicate SameButStore(s: Provider, t: Provider) {
    t == s.(store := t.store, originWriteError := t.originWriteError)
  }

  /** The updates stay, and what has settled and left stays so. */
  predicate JobsGrow(s: S.Store, t: S.Store) {
    && |s.jobs| == |t.jobs|
    && forall k | 0 <= k < |s.jobs| ::
         && s.jobs[k].update == t.jobs[k].update
         && (s.jobs[k].phase.Settled? ==> t.jobs[k].phase == s.jobs[k].phase)
         && (s.jobs[k].left ==> t.jobs[k].left)
  }

  lemma StoreStepKeepsShape(s: Provider, t: Provider)
    requires SameButStore(s, t) && JobsGrow(s.store, t.store)
    requires Jobs(s) && Origin(s)
    ensures Jobs(t) && Origin(t)
  {
    assert forall i, k :: SavedBy(t, i, k) <==> SavedBy(s, i, k);
  }

  lemma QuietStepKeepsDisk(canonical: Canonical, start: State, s: Provider, t: Provider)
    requires SameButStore(s, t) && |t.store.jobs| == |s.store.jobs|
    requires forall k | 0 <= k < |s.store.jobs| ::
               S.Succeeded(s.store.jobs[k]) <==> S.Succeeded(t.store.jobs[k])
    requires S.Fold(canonical, start, t.store.jobs) == S.Fold(canonical, start, s.store.jobs)
    requires Disk(canonical, start, s)
    ensures Disk(canonical, start, t)
  {
    hide OnDisk, Storable, S.Fold;
    assert forall i :: HasSaved(t, i) <==> HasSaved(s, i);
  }

  lemma WrittenKeepsDisk(canonical: Canonical, file: S.File, s: Provider, job: nat)
    requires Inv(canonical, file, s) && Enabled(s, PersistWrite(job, true))
    ensures Disk(canonical, S.Read(canonical, file).value, Apply(canonical, s, PersistWrite(job, true)))
  {
    hide S.Inv, S.Read, S.Fold, OnDisk, Storable, HomeOf, LastSwitch, Normalized;
    var start := S.Read(canonical, file).value;
    var t := Apply(canonical, s, PersistWrite(job, true));
    S.RecordMoves(canonical, file, s.store, S.Persist(job, true));
    UpdateMovesActive(canonical, s.store.jobs[job].update, S.Fold(canonical, start, s.store.jobs));
    if s.store.jobs[job].update.SetConnection? {
      var id :| SavedBy(s, id, job);
      assert HasSaved(t, id);
      EarlierDone(s, id);
      assert forall i | HasSaved(t, i) :: i == id;
    } else {
      assert forall i :: HasSaved(t, i) <==> HasSaved(s, i);
    }
  }

  /** What a successful update does to the connection on record. */
  lemma UpdateMovesActive(canonical: Canonical, u: Update, s: State)
    requires ApplyUpdate(canonical, u, s).Some?
    ensures
      var after := ApplyUpdate(canonical, u, s).value.active;
      if u.SetConnection? then after == OnDisk(canonical, u.active) && Storable(canonical, u.active)
      else after == s.active
  {
  }

  lemma QuietStepKeepsOriginError(s: Provider, t: Provider)
    requires OriginError(s) && t.originWriteError == s.originWriteError
    requires SameOver(s.store.jobs, t.store.jobs)
    ensures OriginError(t)
  {
    SameOriginOutcome(s.store.jobs, t.store.jobs);
    hide LastOriginFailed;
  }

  lemma LeaveKeepsOriginError(canonical: Canonical, s: Provider, job: nat)
    requires OriginError(s) && S.Table(s.store) && Enabled(s, LeaveWrite(job))
    ensures OriginError(Apply(canonical, s, LeaveWrite(job)))
  {
    NextOriginOutcome(s.store.jobs, job, s.store.jobs[job].(left := true));
    hide LastOriginFailed;
  }

  lemma StoreTable(canonical: Canonical, file: S.File, store: S.Store)
    requires S.Inv(canonical, file, store)
    ensures S.Table(store)
  {
  }

  lemma BeginWriteKeepsInv(canonical: Canonical, file: S.File, s: Provider, job: nat, readable: bool)
    requires Inv(canonical, file, s) && Enabled(s, BeginWrite(job, readable))
    ensures Inv(canonical, file, Apply(canonical, s, BeginWrite(job, readable)))
  {
    hide S.Inv, S.Read, S.Fold, OnDisk, Storable, HomeOf, LastSwitch, Normalized, S.Updated;
    hide Disk, Jobs, Origin, OriginError;
    var t := Apply(canonical, s, BeginWrite(job, readable));
    StoreTable(canonical, file, s.store);
    assert SameOver(s.store.jobs, t.store.jobs);
    QuietStepKeepsOriginError(s, t);
    S.BeginKeepsInv(canonical, file, s.store, job, readable);
    S.RecordMoves(canonical, file, s.store, S.Begin(job, readable));
    StoreStepKeepsShape(s, t);
    QuietStepKeepsDisk(canonical, S.Read(canonical, file).value, s, t);
  }

  lemma PersistWriteKeepsInv(canonical: Canonical, file: S.File, s: Provider, job: nat, written: bool)
    requires Lawful(canonical)
    requires Inv(canonical, file, s) && Enabled(s, PersistWrite(job, written))
    ensures Inv(canonical, file, Apply(canonical, s, PersistWrite(job, written)))
  {
    hide S.Inv, S.Read, S.Fold, OnDisk, Storable, HomeOf, LastSwitch, Normalized, Lawful;
    hide Disk, Jobs, Origin, OriginError;
    var t := Apply(canonical, s, PersistWrite(job, written));
    StoreTable(canonical, file, s.store);
    assert SameOver(s.store.jobs, t.store.jobs);
    QuietStepKeepsOriginError(s, t);
    S.PersistKeepsInv(canonical, file, s.store, job, written);
    StoreStepKeepsShape(s, t);
    if written {
      WrittenKeepsDisk(canonical, file, s, job);
    } else {
      S.RecordMoves(canonical, file, s.store, S.Persist(job, written));
      QuietStepKeepsDisk(canonical, S.Read(canonical, file).value, s, t);
    }
  }

  lemma LeaveWriteKeepsInv(canonical: Canonical, file: S.File, s: Provider, job: nat)
    requires Inv(canonical, file, s) && Enabled(s, LeaveWrite(job))
    ensures Inv(canonical, file, Apply(canonical, s, LeaveWrite(job)))
  {
    hide S.Inv, S.Read, S.Fold, OnDisk, Storable, HomeOf, LastSwitch, Normalized;
    hide Disk, Jobs, Origin, OriginError;
    var t := Apply(canonical, s, LeaveWrite(job));
    StoreTable(canonical, file, s.store);
    LeaveKeepsOriginError(canonical, s, job);
    S.LeaveKeepsInv(canonical, file, s.store, job);
    S.RecordMoves(canonical, file, s.store, S.Leave(job));
    StoreStepKeepsShape(s, t);
    QuietStepKeepsDisk(canonical, S.Read(canonical, file).value, s, t);
  }

  // ---------- Every run ----------

  lemma StepKeepsInv(canonical: Canonical, file: S.File, s: Provider, step: Step)
    requires Lawful(canonical) && Inv(canonical, file, s) && Enabled(s, step)
    ensures Inv(canonical, file, Apply(canonical, s, step))
  {
    hide Inv, Lawful, S.Apply, HomeOf;
    match step {
      case OriginChange(configured) => OriginChangeKeepsInv(canonical, file, s, configured);
      case Connect(connection) =>
        if canonical(connection.origin).Some? {
          var next := connection.(origin := canonical(connection.origin).value);
          CanonicalOrigin(canonical, connection.origin);
          QueueKeepsInv(canonical, file, s, Some(next));
        }
      case Disconnect => QueueKeepsInv(canonical, file, s, None);
      case Check(id, settingsReset) => CheckKeepsInv(canonical, file, s, id, settingsReset);
      case Look(id) => LookKeepsInv(canonical, file, s, id);
      case Stage(id, homeMade) => StageKeepsInv(canonical, file, s, id, homeMade);
      case Drained(id) => DrainedKeepsInv(canonical, file, s, id);
      case Finish(id) => FinishKeepsInv(canonical, file, s, id);
      case BeginWrite(job, readable) => BeginWriteKeepsInv(canonical, file, s, job, readable);
      case PersistWrite(job, written) => PersistWriteKeepsInv(canonical, file, s, job, written);
      case LeaveWrite(job) => LeaveWriteKeepsInv(canonical, file, s, job);
    }
  }

  lemma {:induction false} InvAlways(canonical: Canonical, file: S.File, s: Provider, steps: seq<Step>)
    requires Lawful(canonical) && Inv(canonical, file, s) && Runs(canonical, s, steps)
    ensures Inv(canonical, file, After(canonical, s, steps))
    decreases |steps|
  {
    hide Inv, Lawful, Apply;
    if steps != [] {
      StepKeepsInv(canonical, file, s, steps[0]);
      InvAlways(canonical, file, Apply(canonical, s, steps[0]), steps[1..]);
    }
  }

  /** A connection in normal form has a home and is on disk as it is in memory. */
  lemma NormalIsStorable(canonical: Canonical, active: Option<Connection>)
    requires active.Some? ==> NormalConnection(canonical, active.value)
    ensures HomeOf(canonical, active).Some? && Storable(canonical, active)
    ensures OnDisk(canonical, active) == active && OriginFixed(canonical, active)
  {
    if active.Some? {
      NormalConnectionStays(canonical, active.value);
      TrimIdentity(active.value.identity.userId);
    }
    hide Normalized, Trim, Trimmed;
  }

  lemma ConstructHasInv(canonical: Canonical, file: S.File, workspaceOrigin: string)
    requires Lawful(canonical) && Construct(canonical, file, workspaceOrigin).Some?
    ensures Inv(canonical, file, Construct(canonical, file, workspaceOrigin).value)
  {
    hide Inv, S.Read, Lawful, Provided, SubmitOrigin, Queueable, NormalState;
    var state := S.Read(canonical, file).value;
    var s := Construct(canonical, file, workspaceOrigin).value;
    S.ReadIsNormal(canonical, file);
    if state.configuredOrigin.None? && state.active.Some? {
      var origin := state.active.value.origin;
      var plain := Plain(canonical, file, state, origin);
      PlainHasInv(canonical, file, state, origin);
      NormalOriginIsQueueable(canonical, state);
      SubmitOriginKeepsInv(canonical, file, plain, origin);
    } else {
      PlainHasInv(canonical, file, state, s.configuredOrigin);
    }
  }

  lemma PlainHasInv(canonical: Canonical, file: S.File, state: State, origin: string)
    requires Lawful(canonical) && S.Read(canonical, file) == Some(state)
    ensures Inv(canonical, file, Plain(canonical, file, state, origin))
  {
    hide S.Read, HomeOf, OnDisk, Storable, NormalConnection, S.Inv, Lawful, OriginFixed, Provided;
    S.ReadIsNormal(canonical, file);
    NormalIsStorable(canonical, state.active);
    S.FreshHasInv(canonical, file);
    assert forall i :: !HasSaved(Plain(canonical, file, state, origin), i);
  }

  lemma Constructed(canonical: Canonical, file: S.File, state: State, origin: string,
                    workspaceOrigin: string)
    requires S.Read(canonical, file) == Some(state)
    requires Some(origin) == if state.configuredOrigin.Some? then state.configuredOrigin
                             else if state.active.Some? then Some(state.active.value.origin)
                             else canonical(workspaceOrigin)
    ensures
      var writes := state.configuredOrigin.None? && state.active.Some?;
      Construct(canonical, file, workspaceOrigin) == Some(Provider(
        if writes then S.Apply(canonical, S.Fresh(file), S.Submit(SetOrigin(origin))) else S.Fresh(file),
        state.active, origin, if writes then Some(0) else None, false, false, None, 0,
        Provided(canonical, state.active, 0), []))
  {
    hide S.Read, Provided, S.Apply;
  }

  lemma NormalOriginIsQueueable(canonical: Canonical, s: State)
    requires NormalState(canonical, s) && s.active.Some?
    ensures Queueable(canonical, SetOrigin(s.active.value.origin))
  {
  }

  /** A state that a run of the provider reaches, from the record it found at its start. */
  ghost predicate Reaches(canonical: Canonical, file: S.File, workspaceOrigin: string,
                          steps: seq<Step>, s: Provider) {
    && Lawful(canonical)
    && Construct(canonical, file, workspaceOrigin).Some?
    && Runs(canonical, Construct(canonical, file, workspaceOrigin).value, steps)
    && s == After(canonical, Construct(canonical, file, workspaceOrigin).value, steps)
  }

  lemma ReachedHasInv(canonical: Canonical, file: S.File, workspaceOrigin: string,
                      steps: seq<Step>, s: Provider)
    requires Reaches(canonical, file, workspaceOrigin, steps, s)
    ensures Inv(canonical, file, s)
  {
    hide Inv, Lawful;
    ConstructHasInv(canonical, file, workspaceOrigin);
    InvAlways(canonical, file, Construct(canonical, file, workspaceOrigin).value, steps);
  }

  /**
   * Outside a switch, memory, disk and the provided runtime are in step: the record on disk has
   * the connection in memory, up to trimming, and the runtime its home and the current version.
   */
  lemma MemoryDiskAndRuntimeAgree(canonical: Canonical, file: S.File, workspaceOrigin: string,
                                  steps: seq<Step>, s: Provider)
    requires Reaches(canonical, file, workspaceOrigin, steps, s) && !s.staged
    ensures
      && S.Read(canonical, s.store.file).Some?
      && S.Read(canonical, s.store.file).value.active == OnDisk(canonical, s.active)
      && HomeOf(canonical, s.active).Some?
      && s.provided == Some(Runtime(HomeOf(canonical, s.active).value, s.version))
  {
    hide S.Read, S.Inv, HomeOf, OnDisk, Storable, S.Fold, Disk, Jobs, Origin, OriginError;
    ReachedHasInv(canonical, file, workspaceOrigin, steps, s);
    assert forall i | 0 <= i < |s.operations| :: !InSwitch(s.operations[i]);
    assert forall i :: !HasSaved(s, i);
    UnsavedAgree(canonical, file, s);
  }

  lemma StoreContent(canonical: Canonical, file: S.File, store: S.Store)
    requires S.Inv(canonical, file, store)
    ensures S.Content(canonical, file, store)
  {
  }

  /**
   * Switches never overlap, and what is in memory is the connection of the last one that
   * succeeded, in the order of the calls: a failed one leaves the connection as it was, in
   * memory and, by the lemma above, on disk.
   */
  lemma SwitchesTakeEffectInOrder(canonical: Canonical, file: S.File, workspaceOrigin: string,
                                  steps: seq<Step>, s: Provider)
    requires Reaches(canonical, file, workspaceOrigin, steps, s)
    ensures s.active == LastSwitch(S.Read(canonical, file).value.active, s.operations)
    ensures Nexts(s.operations) == Calls(canonical, steps)
    ensures forall i, j | 0 <= i < j < |s.operations| && !s.operations[j].phase.Queued? ::
              s.operations[i].phase.Done?
  {
    hide HomeOf, S.Read, S.Inv, Disk, Jobs, Origin, OriginError, Calls, SubmitOrigin;
    ReachedHasInv(canonical, file, workspaceOrigin, steps, s);
    CallsAreQueued(canonical, Construct(canonical, file, workspaceOrigin).value, steps);
    NothingConstructed(canonical, file, workspaceOrigin);
  }

  /** The calls of a run, in their order: what each asks to be connected to. */
  function Calls(canonical: Canonical, steps: seq<Step>): seq<Option<Connection>> {
    if steps == [] then [] else CallOf(canonical, steps[0]) + Calls(canonical, steps[1..])
  }

  function CallOf(canonical: Canonical, step: Step): seq<Option<Connection>> {
    match step
    case Connect(connection) =>
      (match canonical(connection.origin)
       case Some(origin) => [Some(Connection(origin, connection.identity, connection.sessionToken))]
       case None => [])
    case Disconnect => [None]
    case _ => []
  }

  function Nexts(operations: seq<Operation>): (nexts: seq<Option<Connection>>)
    ensures |nexts| == |operations|
    ensures forall i | 0 <= i < |operations| :: nexts[i] == operations[i].next
  {
    seq(|operations|, i requires 0 <= i < |operations| => operations[i].next)
  }

  /** The operations are those there were, as they were called, and one for each call since. */
  lemma {:induction false} CallsAreQueued(canonical: Canonical, s: Provider, steps: seq<Step>)
    requires Runs(canonical, s, steps)
    ensures Nexts(After(canonical, s, steps).operations)
            == Nexts(s.operations) + Calls(canonical, steps)
    decreases |steps|
  {
    hide Apply, Enabled, CallOf, Nexts;
    if steps == [] {
      assert Nexts(s.operations) + [] == Nexts(s.operations);
    } else {
      CallIsQueued(canonical, s, steps[0]);
      CallsAreQueued(canonical, Apply(canonical, s, steps[0]), steps[1..]);
      Associates(Nexts(s.operations), CallOf(canonical, steps[0]), Calls(canonical, steps[1..]));
    }
  }

  lemma CallIsQueued(canonical: Canonical, s: Provider, step: Step)
    requires Enabled(s, step)
    ensures Nexts(Apply(canonical, s, step).operations) == Nexts(s.operations) + CallOf(canonical, step)
  {
    hide HomeOf, S.Apply, Provided;
    var before, after := s.operations, Apply(canonical, s, step).operations;
    if |after| == |before| {
      assert Nexts(before) + [] == Nexts(before);
      assert forall i | 0 <= i < |before| :: after[i].next == before[i].next;
      assert Nexts(after) == Nexts(before);
    } else {
      assert after == before + [after[|before|]];
      assert Nexts(after) == Nexts(before) + [after[|before|].next];
    }
  }

  /**
   * A call whose switch succeeded and after which no switch has succeeded decides: memory, disk
   * and runtime are those of what was asked for. After a logout that is no connection at all.
   */
  lemma LastSuccessDecides(canonical: Canonical, file: S.File, workspaceOrigin: string,
                           steps: seq<Step>, s: Provider, k: nat)
    requires Reaches(canonical, file, workspaceOrigin, steps, s)
    requires k < |s.operations| && s.operations[k].phase == Done(true)
    requires forall i | k < i < |s.operations| :: s.operations[i].phase != Done(true)
    ensures k < |Calls(canonical, steps)| && s.active == Calls(canonical, steps)[k]
    ensures !s.staged ==>
      && S.Read(canonical, s.store.file).Some? && s.provided.Some?
      && S.Read(canonical, s.store.file).value.active == OnDisk(canonical, Calls(canonical, steps)[k])
      && Some(s.provided.value.home) == HomeOf(canonical, Calls(canonical, steps)[k])
    ensures !s.staged && Calls(canonical, steps)[k].None? ==>
      && s.active.None? && S.Read(canonical, s.store.file).value.active.None?
      && s.provided.value.home == Bootstrap
  {
    hide HomeOf, OnDisk, S.Read, Calls, Reaches, LastSwitch;
    SwitchesTakeEffectInOrder(canonical, file, workspaceOrigin, steps, s);
    ReachedHasInv(canonical, file, workspaceOrigin, steps, s);
    RecordIsRead(canonical, file, s);
    hide Inv;
    LastSuccess(S.Read(canonical, file).value.active, s.operations, k);
    if !s.staged {
      MemoryDiskAndRuntimeAgree(canonical, file, workspaceOrigin, steps, s);
    }
    NoConnection(canonical);
  }

  lemma RecordIsRead(canonical: Canonical, file: S.File, s: Provider)
    requires Inv(canonical, file, s)
    ensures S.Read(canonical, file).Some?
  {
    hide S.Read, S.Inv, Order, Jobs, Origin, OriginError, Disk, Memory;
  }

  lemma NoConnection(canonical: Canonical)
    ensures HomeOf(canonical, None) == Some(Bootstrap) && OnDisk(canonical, None) == None
  {}

  lemma {:induction false} LastSuccess(first: Option<Connection>, operations: seq<Operation>, k: nat)
    requires k < |operations| && operations[k].phase == Done(true)
    requires forall i | k < i < |operations| :: operations[i].phase != Done(true)
    ensures LastSwitch(first, operations) == operations[k].next
    decreases |operations|
  {
    if k < |operations| - 1 {
      LastSuccess(first, operations[..|operations| - 1], k);
    }
  }

  /** Inside a switch the old connection stays in memory until the write has settled. */
  lemma FailedWriteRestores(canonical: Canonical, file: S.File, workspaceOrigin: string,
                            steps: seq<Step>, s: Provider, id: nat)
    requires Enabled(s, Finish(id)) && !S.Succeeded(s.store.jobs[s.operations[id].phase.job])
    requires Reaches(canonical, file, workspaceOrigin, steps, s)
    ensures
      var t := Apply(canonical, s, Finish(id));
      && t.active == s.active && !t.staged && t.version != s.version
      && HomeOf(canonical, s.active).Some? && S.Read(canonical, s.store.file).Some?
      && t.provided == Some(Runtime(HomeOf(canonical, s.active).value, t.version))
      && t.store == s.store
      && S.Read(canonical, s.store.file).value.active == OnDisk(canonical, s.active)
  {
    hide Reaches, Inv, S.Read, HomeOf, OnDisk;
    ReachedHasInv(canonical, file, workspaceOrigin, steps, s);
    NothingSaved(canonical, file, s, id);
    UnsavedAgree(canonical, file, s);
    InOrder(canonical, file, s);
  }

  lemma NothingSaved(canonical: Canonical, file: S.File, s: Provider, id: nat)
    requires Enabled(s, Finish(id)) && !S.Succeeded(s.store.jobs[s.operations[id].phase.job])
    requires Inv(canonical, file, s)
    ensures forall i :: !HasSaved(s, i)
  {
    InOrder(canonical, file, s);
    hide Inv, Order;
    EarlierDone(s, id);
    forall i ensures !HasSaved(s, i) {
      assert HasSaved(s, i) ==> i == id;
    }
  }

  /** While no switch has been written that has not finished yet, memory and disk agree. */
  lemma UnsavedAgree(canonical: Canonical, file: S.File, s: Provider)
    requires Inv(canonical, file, s) && forall i :: !HasSaved(s, i)
    ensures HomeOf(canonical, s.active).Some? && S.Read(canonical, s.store.file).Some?
    ensures S.Read(canonical, s.store.file).value.active == OnDisk(canonical, s.active)
  {
    hide S.Read, S.Inv, HomeOf, OnDisk, Storable, S.Fold, LastSwitch, HasSaved, Order, Jobs, Origin;
    StoreContent(canonical, file, s.store);
    S.ContentIsRead(canonical, file, s.store);
  }

  /**
   * A switch goes on to make its home exactly when the home has a name and the last origin write
   * that is over has not failed; otherwise it ends with everything as it was.
   */
  lemma LooksExactly(canonical: Canonical, file: S.File, workspaceOrigin: string,
                     steps: seq<Step>, s: Provider, id: nat)
    requires Reaches(canonical, file, workspaceOrigin, steps, s) && Enabled(s, Look(id))
    ensures
      var goesOn := HomeOf(canonical, s.operations[id].next).Some? && !LastOriginFailed(s.store.jobs);
      Apply(canonical, s, Look(id)) == Put(s, id, if goesOn then MakingHome else Done(false))
  {
    ReachedHasInv(canonical, file, workspaceOrigin, steps, s);
    hide S.Inv, S.Read, HomeOf, LastOriginFailed, Disk, Memory, Jobs, Reaches;
  }

  predicate PastLook(s: Provider, id: nat) {
    id < |s.operations| && (NeedsHome(s.operations[id]) || s.operations[id].phase == Done(true))
  }

  /** The step `k` of the run was the look of the switch `id`, and it found nothing wrong. */
  ghost predicate LookedAt(canonical: Canonical, s: Provider, steps: seq<Step>, id: nat, k: nat) {
    && k < |steps| && steps[k] == Look(id) && Runs(canonical, s, steps[..k])
    && LooksFine(canonical, After(canonical, s, steps[..k]), id)
  }

  predicate LooksFine(canonical: Canonical, s: Provider, id: nat) {
    && id < |s.operations| && HomeOf(canonical, s.operations[id].next).Some?
    && !LastOriginFailed(s.store.jobs)
  }

  lemma OnlyLookPasses(canonical: Canonical, s: Provider, step: Step, id: nat)
    requires OriginError(s) && Enabled(s, step)
    requires !PastLook(s, id) && PastLook(Apply(canonical, s, step), id)
    ensures step == Look(id) && LooksFine(canonical, s, id)
  {
    hide HomeOf, S.Apply, S.Succeeded, LastOriginFailed, Provided, S.Enabled;
  }

  lemma {:induction false} LookedBefore(canonical: Canonical, file: S.File, s: Provider,
                                        steps: seq<Step>, id: nat) returns (k: nat)
    requires Lawful(canonical) && Inv(canonical, file, s) && Runs(canonical, s, steps)
    requires !PastLook(s, id) && PastLook(After(canonical, s, steps), id)
    ensures LookedAt(canonical, s, steps, id, k)
    decreases |steps|
  {
    hide Inv, Lawful, Apply, PastLook, LooksFine;
    var t := Apply(canonical, s, steps[0]);
    if PastLook(t, id) {
      OriginInv(canonical, file, s);
      OnlyLookPasses(canonical, s, steps[0], id);
      k := 0;
    } else {
      StepKeepsInv(canonical, file, s, steps[0]);
      var i := LookedBefore(canonical, file, t, steps[1..], id);
      k := i + 1;
      assert steps[..k] == [steps[0]] + steps[1..][..i];
    }
  }

  lemma OriginInv(canonical: Canonical, file: S.File, s: Provider)
    requires Inv(canonical, file, s)
    ensures OriginError(s)
  {
    hide OriginError;
  }

  /**
   * A switch is staged exactly when its home could be made, and before that, when it looked, the
   * last origin write that was over had not failed; otherwise it ends with everything as it was.
   */
  lemma StagedExactly(canonical: Canonical, file: S.File, workspaceOrigin: string,
                      steps: seq<Step>, s: Provider, id: nat, homeMade: bool) returns (k: nat)
    requires Reaches(canonical, file, workspaceOrigin, steps, s) && Enabled(s, Stage(id, homeMade))
    ensures LookedAt(canonical, Construct(canonical, file, workspaceOrigin).value, steps, id, k)
    ensures
      var t := Apply(canonical, s, Stage(id, homeMade));
      && (t.staged <==> homeMade) && !s.staged
      && t.active == s.active && t.store == s.store && t.provided == s.provided
      && (t.staged ==> t.next == s.operations[id].next && t.operations[id].phase.Draining?)
      && (!t.staged ==> t == Put(s, id, Done(false)))
  {
    hide LookedAt, HomeOf, S.Read, Construct, Runs, After, Inv;
    ConstructHasInv(canonical, file, workspaceOrigin);
    NothingConstructed(canonical, file, workspaceOrigin);
    k := LookedBefore(canonical, file, Construct(canonical, file, workspaceOrigin).value, steps, id);
    ReachedHasInv(canonical, file, workspaceOrigin, steps, s);
    InOrder(canonical, file, s);
    EarlierDone(s, id);
    assert forall i | 0 <= i < |s.operations| :: !InSwitch(s.operations[i]);
  }

  lemma NothingConstructed(canonical: Canonical, file: S.File, workspaceOrigin: string)
    requires Construct(canonical, file, workspaceOrigin).Some?
    ensures Construct(canonical, file, workspaceOrigin).value.operations == []
  {
    hide S.Read, Provided, S.Apply;
  }

  /** Once the write of the configured origin has succeeded, the disk has that very origin. */
  lemma ConfiguredOriginIsStored(canonical: Canonical, file: S.File, workspaceOrigin: string,
                                 steps: seq<Step>, s: Provider)
    requires Reaches(canonical, file, workspaceOrigin, steps, s) && s.originWrite.Some?
    requires s.originWrite.value < |s.store.jobs| && S.Succeeded(s.store.jobs[s.originWrite.value])
    ensures S.Read(canonical, s.store.file).Some?
    ensures S.Read(canonical, s.store.file).value.configuredOrigin == Some(s.configuredOrigin)
  {
    hide S.Read, HomeOf, OnDisk, Storable, S.Fold, S.Content, S.Acceptable, Disk, Memory;
    ReachedHasInv(canonical, file, workspaceOrigin, steps, s);
    StoreContent(canonical, file, s.store);
    S.ContentIsRead(canonical, file, s.store);
    var start := S.Read(canonical, file).value;
    S.FieldsAreLastWrites(canonical, start, s.store.jobs);
    LastOriginIs(start.configuredOrigin, s.store.jobs, s.originWrite.value);
  }

  /** After a restart the configured origin is the same, once its write has succeeded. */
  lemma RestartKeepsOrigin(canonical: Canonical, file: S.File, workspaceOrigin: string,
                           steps: seq<Step>, s: Provider, otherOrigin: string)
    requires Reaches(canonical, file, workspaceOrigin, steps, s) && s.originWrite.Some?
    requires s.originWrite.value < |s.store.jobs| && S.Succeeded(s.store.jobs[s.originWrite.value])
    ensures
      var again := Construct(canonical, s.store.file, otherOrigin);
      && again.Some? && again.value.configuredOrigin == s.configuredOrigin
      && again.value.originWrite == None && again.value.store == S.Fresh(s.store.file)
  {
    hide Reaches, S.Read, Provided;
    ConfiguredOriginIsStored(canonical, file, workspaceOrigin, steps, s);
  }

  lemma {:induction false} LastOriginIs(first: Option<string>, jobs: seq<S.Job>, id: nat)
    requires id < |jobs| && S.Succeeded(jobs[id]) && jobs[id].update.SetOrigin?
    requires forall k | id < k < |jobs| :: jobs[k].update.SetConnection?
    ensures S.LastOrigin(first, jobs) == Some(jobs[id].update.origin)
    decreases |jobs|
  {
    if id < |jobs| - 1 {
      LastOriginIs(first, jobs[..|jobs| - 1], id);
    }
  }

  /**
   * After a restart the same connection, up to trimming, is active again. It runs in the same
   * home exactly when the user id carries no outer white space: the home is named by the id as
   * given, the record holds it trimmed.
   */
  lemma RestartKeepsHomeExactly(canonical: Canonical, file: S.File, workspaceOrigin: string,
                                steps: seq<Step>, s: Provider)
    requires Reaches(canonical, file, workspaceOrigin, steps, s) && !s.staged && s.active.Some?
    ensures
      var again := Construct(canonical, s.store.file, workspaceOrigin);
      && again.Some? && again.value.active == OnDisk(canonical, s.active)
      && s.provided.Some? && again.value.provided.Some?
      && (again.value.provided.value.home == s.provided.value.home
          <==> Trim(s.active.value.identity.userId) == s.active.value.identity.userId)
  {
    hide Inv, Lawful, S.Read, HomeOf, OnDisk, Trim, Construct, OriginFixed, Storable, Runs, After;
    MemoryDiskAndRuntimeAgree(canonical, file, workspaceOrigin, steps, s);
    ReachedHasInv(canonical, file, workspaceOrigin, steps, s);
    ActiveIsKept(canonical, file, s);
    HomeAgain(canonical, workspaceOrigin, s);
  }

  lemma HomeAgain(canonical: Canonical, workspaceOrigin: string, s: Provider)
    requires Lawful(canonical) && S.Read(canonical, s.store.file).Some? && s.active.Some?
    requires S.Read(canonical, s.store.file).value.active == OnDisk(canonical, s.active)
    requires OriginFixed(canonical, s.active) && Storable(canonical, s.active)
    requires HomeOf(canonical, s.active).Some?
    requires s.provided == Some(Runtime(HomeOf(canonical, s.active).value, s.version))
    ensures
      var again := Construct(canonical, s.store.file, workspaceOrigin);
      && again.Some? && again.value.active == OnDisk(canonical, s.active)
      && again.value.provided.Some?
      && (again.value.provided.value.home == s.provided.value.home
          <==> Trim(s.active.value.identity.userId) == s.active.value.identity.userId)
  {
    hide Lawful, S.Read, HomeOf, Normalized, Trim, Construct;
    HomeOnDisk(canonical, s.active.value);
    ConstructFromRecord(canonical, s.store.file, workspaceOrigin);
  }

  lemma ActiveIsKept(canonical: Canonical, file: S.File, s: Provider)
    requires Inv(canonical, file, s)
    ensures OriginFixed(canonical, s.active) && Storable(canonical, s.active)
  {
    hide OriginFixed, Storable;
  }

  /** A record with a connection makes a provider with that connection and its home. */
  lemma ConstructFromRecord(canonical: Canonical, file: S.File, workspaceOrigin: string)
    requires S.Read(canonical, file).Some? && S.Read(canonical, file).value.active.Some?
    ensures
      var p := Construct(canonical, file, workspaceOrigin);
      && p.Some? && p.value.active == S.Read(canonical, file).value.active
      && p.value.provided == Provided(canonical, p.value.active, 0)
  {
    hide S.Read, Provided, S.Apply;
  }

  lemma HomeOnDisk(canonical: Canonical, c: Connection)
    requires Lawful(canonical) && Normalized(canonical, c).Some? && HomeOf(canonical, Some(c)).Some?
    requires OriginFixed(canonical, Some(c))
    ensures
      var stored := Normalized(canonical, c);
      && HomeOf(canonical, stored).Some?
      && (HomeOf(canonical, stored) == HomeOf(canonical, Some(c))
          <==> Trim(c.identity.userId) == c.identity.userId)
  {
    var stored := Normalized(canonical, c).value;
    var v, i := ConnectionValue(c), IdentityValue(c.identity);
    assert Member(v, "identity") == Some(i) && Member(v, "origin") == Some(Text(c.origin));
    assert Member(i, "userId") == Some(Text(c.identity.userId));
    assert stored.identity.userId == Trim(c.identity.userId);
    TrimIdentity(c.origin);
    TrimTwice(c.identity.userId);
  }

  // ---------- Two runs ----------

  lemma {:induction false} RunsNext(canonical: Canonical, s: Provider, steps: seq<Step>, step: Step)
    requires Runs(canonical, s, steps) && Enabled(After(canonical, s, steps), step)
    ensures Runs(canonical, s, steps + [step])
    ensures After(canonical, s, steps + [step]) == Apply(canonical, After(canonical, s, steps), step)
    decreases |steps|
  {
    hide Enabled, Apply;
    if steps != [] {
      RunsNext(canonical, Apply(canonical, s, steps[0]), steps[1..], step);
      assert (steps + [step])[1..] == steps[1..] + [step];
    }
  }

  lemma ReachesNext(canonical: Canonical, file: S.File, workspaceOrigin: string, steps: seq<Step>,
                    s: Provider, step: Step)
    requires Reaches(canonical, file, workspaceOrigin, steps, s) && Enabled(s, step)
    ensures Reaches(canonical, file, workspaceOrigin, steps + [step], Apply(canonical, s, step))
  {
    RunsNext(canonical, Construct(canonical, file, workspaceOrigin).value, steps, step);
    hide Lawful, Construct, Enabled, Apply, Runs, After;
  }

  /** Two origins that are canonical already; everything else is no web address. */
  function TwoOrigins(text: string): Option<string> {
    if text == "http://a" || text == "http://b" then Some(text) else None
  }

  /** A user id that begins with a space. */
  const SPACED := Connection("http://a", Identity(" u", "u", None), "t")

  const START := Provider(S.Fresh(S.Missing), None, "http://a", None, false, false, None, 0,
                          Some(Runtime(Bootstrap, 0)), [])

  function Switching(phase: Phase): Provider {
    START.(operations := [Operation(Some(SPACED), phase)])
  }

  lemma TwoOriginsAreLawful()
    ensures Lawful(TwoOrigins)
  {}

  lemma SpacedIsTrimmed()
    ensures Trim(" u") == "u" && Trim("u") == "u" && Trim("t") == "t" && Trim("http://a") == "http://a"
  {
    assert TrimStart(" u") == "u" && TrimEnd("u") == "u";
    TrimIdentity("u");
    TrimIdentity("t");
    TrimIdentity("http://a");
  }

  lemma SpacedHasHome()
    ensures HomeOf(TwoOrigins, Some(SPACED)) == Some(HomeFor("http://a", " u"))
    ensures Trim(" u") == "u"
  {
    SpacedIsTrimmed();
    hide Trim;
  }

  lemma SpacedOnRecord()
    ensures Normalized(TwoOrigins, SPACED)
            == Some(SPACED.(identity := SPACED.identity.(userId := "u")))
  {
    SpacedIsTrimmed();
    hide Trim;
    var v, i := ConnectionValue(SPACED), IdentityValue(SPACED.identity);
    assert Member(v, "identity") == Some(i) && Member(v, "origin") == Some(Text("http://a"));
    assert Member(i, "userId") == Some(Text(" u")) && Member(i, "username") == Some(Text("u"));
    assert Member(v, "sessionToken") == Some(Text("t")) && Member(i, "displayName") == None;
  }

  /** A run of `TwoOrigins` from no record, and where it ends. */
  ghost predicate Leads(steps: seq<Step>, s: Provider) {
    Reaches(TwoOrigins, S.Missing, "http://a", steps, s)
  }

  lemma Starts()
    ensures Leads([], START)
  {
    TwoOriginsAreLawful();
    hide Lawful;
    assert Construct(TwoOrigins, S.Missing, "http://a") == Some(START);
  }

  lemma LeadsNext(steps: seq<Step>, s: Provider, step: Step)
    requires Leads(steps, s) && Enabled(s, step)
    ensures Leads(steps + [step], Apply(TwoOrigins, s, step))
  {
    hide Enabled, Apply, Reaches;
    ReachesNext(TwoOrigins, S.Missing, "http://a", steps, s, step);
  }

  const LOOKING := [Connect(SPACED), Check(0, true), Look(0)]

  lemma LookedFirst()
    ensures Leads(LOOKING, Switching(MakingHome))
  {
    Starts();
    SpacedHasHome();
    hide Leads, HomeOf, Lawful, Normalized;
    LeadsNext([], START, Connect(SPACED));
    assert Apply(TwoOrigins, START, Connect(SPACED)) == Switching(Queued);
    LeadsNext([] + [Connect(SPACED)], Switching(Queued), Check(0, true));
    assert Apply(TwoOrigins, Switching(Queued), Check(0, true)) == Switching(AwaitingOrigin(None));
    LeadsNext([] + [Connect(SPACED)] + [Check(0, true)], Switching(AwaitingOrigin(None)), Look(0));
    assert Apply(TwoOrigins, Switching(AwaitingOrigin(None)), Look(0)) == Switching(MakingHome);
    assert LOOKING == [] + [Connect(SPACED)] + [Check(0, true)] + [Look(0)];
  }

  /** What the write of the origin `http://b` has become: its job and the field for its error. */
  function ChangingOrigin(job: S.Phase, left: bool): Provider {
    Switching(MakingHome)
    .(store := S.Store(S.Missing, if left then None else Some(0),
                       [S.Job(SetOrigin("http://b"), job, left)]),
      configuredOrigin := "http://b", originWrite := Some(0), originWriteError := left)
  }

  const WHILE_MAKING_HOME :=
    [OriginChange("http://b"), BeginWrite(0, true), PersistWrite(0, false), LeaveWrite(0)]

  /**
   * The origin is looked at before the home is made and not again: a write that fails meanwhile
   * does not keep the switch from being staged.
   */
  lemma StagedAfterLateFailure()
    ensures exists s: Provider ::
              && Leads(LOOKING + WHILE_MAKING_HOME + [Stage(0, true)], s)
              && s.staged && s.originWriteError && LastOriginFailed(s.store.jobs)
  {
    OriginChanging();
    hide Leads, HomeOf, Lawful, Normalized, LOOKING;
    var changing := LOOKING + [OriginChange("http://b")] + [BeginWrite(0, true)];
    var s2 := ChangingOrigin(S.Writing(State(Some("http://b"), None)), false);
    var s3, s4 := ChangingOrigin(S.Settled(false), false), ChangingOrigin(S.Settled(false), true);
    LeadsNext(changing, s2, PersistWrite(0, false));
    assert Apply(TwoOrigins, s2, PersistWrite(0, false)) == s3;
    LeadsNext(changing + [PersistWrite(0, false)], s3, LeaveWrite(0));
    assert Apply(TwoOrigins, s3, LeaveWrite(0)) == s4;
    assert changing + [PersistWrite(0, false)] + [LeaveWrite(0)] == LOOKING + WHILE_MAKING_HOME;
    LeadsNext(LOOKING + WHILE_MAKING_HOME, s4, Stage(0, true));
    assert LastOriginFailed(s4.store.jobs);
  }

  lemma OriginChanging()
    ensures Leads(LOOKING + [OriginChange("http://b")] + [BeginWrite(0, true)],
                  ChangingOrigin(S.Writing(State(Some("http://b"), None)), false))
  {
    LookedFirst();
    hide Leads, HomeOf, Lawful, Normalized, LOOKING;
    var s0, s1 := Switching(MakingHome), ChangingOrigin(S.Waiting(None), false);
    var s2 := ChangingOrigin(S.Writing(State(Some("http://b"), None)), false);
    LeadsNext(LOOKING, s0, OriginChange("http://b"));
    assert Apply(TwoOrigins, s0, OriginChange("http://b")) == s1;
    LeadsNext(LOOKING + [OriginChange("http://b")], s1, BeginWrite(0, true));
    assert Apply(TwoOrigins, s1, BeginWrite(0, true)) == s2;
  }

  const ON_RECORD := State(None, Some(SPACED.(identity := SPACED.identity.(userId := "u"))))

  /** The switch to `SPACED` while its write is under way. */
  function Writing(job: S.Phase, left: bool): Provider {
    Switching(Saving(0))
    .(store := S.Store(if job == S.Settled(true) then S.Holds(StateValue(ON_RECORD)) else S.Missing,
                       if left then None else Some(0),
                       [S.Job(SetConnection(Some(SPACED)), job, left)]),
      staged := true, next := Some(SPACED), provided := None)
  }

  const WRITTEN := Writing(S.Settled(true), true).(
    active := Some(SPACED), staged := false, next := None, version := 1,
    provided := Some(Runtime(HomeFor("http://a", " u"), 1)),
    operations := [Operation(Some(SPACED), Done(true))])

  const WRITING :=
    [Stage(0, true), Drained(0), BeginWrite(0, true), PersistWrite(0, true), LeaveWrite(0), Finish(0)]

  const DRAINED := [Stage(0, true), Drained(0), BeginWrite(0, true)]

  lemma WriteBegun()
    ensures Leads(LOOKING + DRAINED, Writing(S.Writing(ON_RECORD), false))
  {
    LookedFirst();
    SpacedOnRecord();
    hide Leads, Normalized, StateValue;
    var s1 := Switching(Draining).(staged := true, next := Some(SPACED));
    var s2 := Writing(S.Waiting(None), false);
    LeadsNext(LOOKING, Switching(MakingHome), Stage(0, true));
    assert Apply(TwoOrigins, Switching(MakingHome), Stage(0, true)) == s1;
    LeadsNext(LOOKING + [Stage(0, true)], s1, Drained(0));
    assert Apply(TwoOrigins, s1, Drained(0)) == s2;
    LeadsNext(LOOKING + [Stage(0, true)] + [Drained(0)], s2, BeginWrite(0, true));
    assert Apply(TwoOrigins, s2, BeginWrite(0, true)) == Writing(S.Writing(ON_RECORD), false);
    assert LOOKING + [Stage(0, true)] + [Drained(0)] + [BeginWrite(0, true)] == LOOKING + DRAINED;
  }

  lemma Written()
    ensures Leads(LOOKING + WRITING, WRITTEN)
  {
    WriteBegun();
    SpacedHasHome();
    hide Leads, HomeOf, Trim, StateValue;
    var reached := LOOKING + DRAINED;
    var s3 := Writing(S.Writing(ON_RECORD), false);
    var s4, s5 := Writing(S.Settled(true), false), Writing(S.Settled(true), true);
    LeadsNext(reached, s3, PersistWrite(0, true));
    assert Apply(TwoOrigins, s3, PersistWrite(0, true)) == s4;
    LeadsNext(reached + [PersistWrite(0, true)], s4, LeaveWrite(0));
    assert Apply(TwoOrigins, s4, LeaveWrite(0)) == s5;
    LeadsNext(reached + [PersistWrite(0, true)] + [LeaveWrite(0)], s5, Finish(0));
    assert Apply(TwoOrigins, s5, Finish(0)) == WRITTEN;
    assert reached + [PersistWrite(0, true)] + [LeaveWrite(0)] + [Finish(0)] == LOOKING + WRITING;
  }

  /** A user id that begins with a space: after a restart, the same user has another home. */
  lemma RestartMovesHome()
    ensures Leads(LOOKING + WRITING, WRITTEN) && !WRITTEN.staged
    ensures
      var again := Construct(TwoOrigins, WRITTEN.store.file, "http://a");
      && again.Some? && again.value.provided.Some?
      && again.value.provided.value.home != WRITTEN.provided.value.home
  {
    Written();
    SpacedHasHome();
    hide Lawful, Trim, Construct, Normalized;
    RestartKeepsHomeExactly(TwoOrigins, S.Missing, "http://a", LOOKING + WRITING, WRITTEN);
  }

  // ---------- Every switch ends ----------

  /** The steps that no caller takes: segments of switches and of queued writes. */
  predicate Internal(step: Step) {
    !step.OriginChange? && !step.Connect? && !step.Disconnect?
  }

  function SwitchWork(operation: Operation): nat {
    match operation.phase
    case Queued => 8
    case AwaitingOrigin(_) => 7
    case MakingHome => 6
    case Draining => 5
    case Saving(_) => 1
    case Done(_) => 0
  }

  function JobWork(job: S.Job): nat {
    if job.phase.Waiting? then 3 else if job.phase.Writing? then 2 else if !job.left then 1 else 0
  }

  function SwitchesWork(operations: seq<Operation>): nat {
    if operations == [] then 0 else SwitchWork(operations[0]) + SwitchesWork(operations[1..])
  }

  function JobsWork(jobs: seq<S.Job>): nat {
    if jobs == [] then 0 else JobWork(jobs[0]) + JobsWork(jobs[1..])
  }

  /** What is still to be done for the calls made so far. */
  function Work(s: Provider): nat {
    SwitchesWork(s.operations) + JobsWork(s.store.jobs)
  }

  lemma {:induction false} SwitchesWorkPut(operations: seq<Operation>, id: nat, operation: Operation)
    requires id < |operations|
    ensures SwitchesWork(operations[id := operation]) + SwitchWork(operations[id])
            == SwitchesWork(operations) + SwitchWork(operation)
  {
    if id > 0 {
      SwitchesWorkPut(operations[1..], id - 1, operation);
      assert operations[id := operation][1..] == operations[1..][id - 1 := operation];
    }
  }

  lemma {:induction false} JobsWorkPut(jobs: seq<S.Job>, id: nat, job: S.Job)
    requires id < |jobs|
    ensures JobsWork(jobs[id := job]) + JobWork(jobs[id]) == JobsWork(jobs) + JobWork(job)
  {
    if id > 0 {
      JobsWorkPut(jobs[1..], id - 1, job);
      assert jobs[id := job][1..] == jobs[1..][id - 1 := job];
    }
  }

  lemma {:induction false} JobsWorkAdd(jobs: seq<S.Job>, job: S.Job)
    ensures JobsWork(jobs + [job]) == JobsWork(jobs) + JobWork(job)
  {
    if jobs == [] {
      assert [job][1..] == [];
    } else {
      JobsWorkAdd(jobs[1..], job);
      assert (jobs + [job])[1..] == jobs[1..] + [job];
    }
  }

  lemma InternalStepsEnd(canonical: Canonical, file: S.File, s: Provider, step: Step)
    requires Inv(canonical, file, s) && Enabled(s, step) && Internal(step)
    ensures Work(Apply(canonical, s, step)) < Work(s)
  {
    hide Inv, S.Updated, HomeOf, SwitchesWork, JobsWork, Provided;
    LeftIsSettled(canonical, file, s);
    var t := Apply(canonical, s, step);
    match step {
      case Check(id, _) => SwitchesWorkPut(s.operations, id, t.operations[id]);
      case Look(id) => SwitchesWorkPut(s.operations, id, t.operations[id]);
      case Stage(id, _) => SwitchesWorkPut(s.operations, id, t.operations[id]);
      case Drained(id) =>
        SwitchesWorkPut(s.operations, id, t.operations[id]);
        JobsWorkAdd(s.store.jobs, t.store.jobs[|s.store.jobs|]);
      case Finish(id) => SwitchesWorkPut(s.operations, id, t.operations[id]);
      case BeginWrite(job, _) => JobsWorkPut(s.store.jobs, job, t.store.jobs[job]);
      case PersistWrite(job, _) => JobsWorkPut(s.store.jobs, job, t.store.jobs[job]);
      case LeaveWrite(job) => JobsWorkPut(s.store.jobs, job, t.store.jobs[job]);
      case _ =>
    }
  }

  lemma LeftIsSettled(canonical: Canonical, file: S.File, s: Provider)
    requires Inv(canonical, file, s)
    ensures forall k | 0 <= k < |s.store.jobs| && s.store.jobs[k].left ::
              s.store.jobs[k].phase.Settled?
    ensures Order(s) && Jobs(s)
  {
    hide S.Content, S.Updates, Disk, Memory, Origin;
  }

  /** While a queued write is unsettled, one of them can move. */
  lemma WriteCanMove(canonical: Canonical, file: S.File, s: Provider, job: nat) returns (step: Step)
    requires Inv(canonical, file, s)
    requires job < |s.store.jobs| && !s.store.jobs[job].phase.Settled?
    ensures Enabled(s, step) && Internal(step)
  {
    hide Inv, S.Inv;
    var k := 0;
    while s.store.jobs[k].phase.Settled?
      invariant k <= job && forall i | 0 <= i < k :: s.store.jobs[i].phase.Settled?
      decreases job - k
    {
      k := k + 1;
    }
    StoreInv(canonical, file, s);
    S.NeverBlocked(canonical, file, s.store, k, true);
    step := if s.store.jobs[k].phase.Writing? then PersistWrite(k, true) else BeginWrite(k, true);
  }

  lemma StoreInv(canonical: Canonical, file: S.File, s: Provider)
    requires Inv(canonical, file, s)
    ensures S.Inv(canonical, file, s.store)
  {
    hide S.Inv;
  }

  lemma AwaitedWriteMoves(canonical: Canonical, file: S.File, s: Provider, job: nat) returns (step: Step)
    requires Inv(canonical, file, s)
    requires job < |s.store.jobs| && !s.store.jobs[job].left
    ensures Enabled(s, step) && Internal(step)
  {
    hide Inv;
    var k := 0;
    while s.store.jobs[k].left
      invariant k <= job && forall i | 0 <= i < k :: s.store.jobs[i].left
      decreases job - k
    {
      k := k + 1;
    }
    if s.store.jobs[k].phase.Settled? {
      step := LeaveWrite(k);
    } else {
      step := WriteCanMove(canonical, file, s, k);
    }
  }

  /**
   * No switch is stuck: as long as one is not done, some segment can run, and by
   * `InternalStepsEnd` only finitely many can run before all are done.
   */
  lemma SwitchesNeverBlock(canonical: Canonical, file: S.File, s: Provider, id: nat) returns (step: Step)
    requires Inv(canonical, file, s) && id < |s.operations| && !s.operations[id].phase.Done?
    ensures Enabled(s, step) && Internal(step)
  {
    hide Inv, S.Inv, HomeOf;
    LeftIsSettled(canonical, file, s);
    var k := 0;
    while s.operations[k].phase.Done?
      invariant k <= id && forall i | 0 <= i < k :: s.operations[i].phase.Done?
      decreases id - k
    {
      k := k + 1;
    }
    match s.operations[k].phase {
      case Queued => step := Check(k, true);
      case AwaitingOrigin(write) =>
        if write.None? || s.store.jobs[write.value].left {
          step := Look(k);
        } else {
          step := AwaitedWriteMoves(canonical, file, s, write.value);
        }
      case MakingHome => step := Stage(k, true);
      case Draining => step := Drained(k);
      case Saving(job) =>
        if s.store.jobs[job].left {
          step := Finish(k);
        } else {
          step := AwaitedWriteMoves(canonical, file, s, job);
        }
    }
  }

  // ---------- The provider and its fields ----------

  class WorkspaceAuthProvider {
    const canonical: Canonical
    const record: S.Record
    var active: Option<Connection>
    var configuredOrigin: string
    var originWrite: Option<nat>
    var originWriteError: bool
    var staged: bool
    var next: Option<Connection>
    var version: nat
    var provided: Option<Runtime>
    var operations: seq<Operation>

    ghost function View(): Provider
      reads this, record
    {
      Provider(record.View(), active, configuredOrigin, originWrite, originWriteError, staged, next,
               version, provided, operations)
    }

    ghost predicate Valid()
      reads this, record
    {
      && record.canonical == canonical && record.Valid()
      && Inv(canonical, record.first, View())
    }

    constructor (record: S.Record, state: State, workspaceOrigin: string)
      requires record.Valid() && record.View() == S.Fresh(record.first)
      requires S.Read(record.canonical, record.first) == Some(state)
      requires state.configuredOrigin.Some? || state.active.Some?
               || record.canonical(workspaceOrigin).Some?
      modifies record
      ensures this.record == record && Valid()
      ensures Some(View()) == Construct(canonical, record.first, workspaceOrigin)
    {
      hide Inv, S.Inv, S.Read, Lawful, Queueable, NormalState, Construct, Provided;
      this.canonical, this.record, active := record.canonical, record, state.active;
      configuredOrigin :=
        if state.configuredOrigin.Some? then state.configuredOrigin.value
        else if state.active.Some? then state.active.value.origin
        else record.canonical(workspaceOrigin).value;
      originWrite, originWriteError, staged, next, version := None, false, false, None, 0;
      provided, operations := Provided(record.canonical, state.active, 0), [];
      new;
      Constructed(canonical, record.first, state, configuredOrigin, workspaceOrigin);
      ConstructHasInv(canonical, record.first, workspaceOrigin);
      if state.configuredOrigin.None? && state.active.Some? {
        assert Queueable(canonical, SetOrigin(configuredOrigin)) by {
          S.ReadIsNormal(canonical, record.first);
          NormalOriginIsQueueable(canonical, state);
        }
        PersistConfiguredOrigin(configuredOrigin);
      }
    }

    method PersistConfiguredOrigin(origin: string)
      requires record.canonical == canonical && record.Valid()
      requires Queueable(canonical, SetOrigin(origin))
      modifies this`originWrite, record
      ensures record.Valid() && originWrite == Some(|old(record.jobs)|)
      ensures record.View() == S.Apply(canonical, old(record.View()), S.Submit(SetOrigin(origin)))
    {
      hide S.Inv, Lawful, Queueable;
      var job := record.Enter(SetOrigin(origin));
      originWrite := Some(job);
    }

    method HandleOriginChange(configured: string) returns (thrown: bool)
      requires Valid()
      modifies this`configuredOrigin, this`originWrite, record
      ensures Valid() && View() == Apply(canonical, old(View()), OriginChange(configured))
      ensures thrown <==> canonical(configured).None?
    {
      hide Inv, S.Inv, S.Updated, HomeOf, Lawful, Queueable;
      StepKeepsInv(canonical, record.first, View(), OriginChange(configured));
      var origin := canonical(configured);
      if origin.None? {
        return true;
      }
      thrown := false;
      if origin.value != configuredOrigin {
        CanonicalOrigin(canonical, configured);
        configuredOrigin := origin.value;
        PersistConfiguredOrigin(origin.value);
      }
    }

    method SwitchConnection(next: Option<Connection>) returns (id: nat)
      requires Valid() && OriginFixed(canonical, next)
      modifies this`operations
      ensures Valid() && id == |old(operations)|
      ensures operations == old(operations) + [Operation(next, Queued)]
    {
      QueueKeepsInv(canonical, record.first, View(), next);
      hide Inv;
      id := |operations|;
      operations := operations + [Operation(next, Queued)];
    }

    method ConnectTo(connection: Connection) returns (id: Option<nat>)
      requires Valid()
      modifies this`operations
      ensures Valid() && View() == Apply(canonical, old(View()), Connect(connection))
      ensures id == if canonical(connection.origin).Some? then Some(|old(operations)|) else None
      ensures operations
              == if canonical(connection.origin).None? then old(operations)
                 else old(operations)
                      + [Operation(Some(Connection(canonical(connection.origin).value, connection.identity,
                                                   connection.sessionToken)), Queued)]
    {
      hide Inv;
      var origin := canonical(connection.origin);
      if origin.None? {
        return None;
      }
      CanonicalOrigin(canonical, connection.origin);
      var queued := SwitchConnection(Some(connection.(origin := origin.value)));
      id := Some(queued);
    }

    method DisconnectAll() returns (id: nat)
      requires Valid()
      modifies this`operations
      ensures Valid() && View() == Apply(canonical, old(View()), Disconnect)
      ensures operations == old(operations) + [Operation(None, Queued)] && id == |old(operations)|
    {
      hide Inv;
      id := SwitchConnection(None);
    }

    /** The first half of `waitForOriginWrite`, once the switch before this one is done. */
    method AwaitSettingsReset(id: nat, settingsReset: bool)
      requires Valid() && Enabled(View(), Check(id, settingsReset))
      modifies this`operations
      ensures Valid() && View() == Apply(canonical, old(View()), Check(id, settingsReset))
    {
      hide Inv, S.Inv, S.Updated, HomeOf, Lawful, Queueable;
      StepKeepsInv(canonical, record.first, View(), Check(id, settingsReset));
      var phase := if settingsReset then AwaitingOrigin(originWrite) else Done(false);
      operations := operations[id := operations[id].(phase := phase)];
    }

    /** The awaited origin write is over: look at its outcome, then name the home to be made. */
    method LookAtOriginWrite(id: nat)
      requires Valid() && Enabled(View(), Look(id))
      modifies this`operations
      ensures Valid() && View() == Apply(canonical, old(View()), Look(id))
    {
      hide Inv, S.Inv, S.Updated, HomeOf, Lawful, Queueable;
      StepKeepsInv(canonical, record.first, View(), Look(id));
      var phase := MakingHome;
      if originWriteError {
        phase := Done(false);
      } else if HomeOf(canonical, operations[id].next).None? {
        phase := Done(false);
      }
      operations := operations[id := operations[id].(phase := phase)];
    }

    /** The new home is made, or could not be: begin to drain the old runtime. */
    method StageSwitch(id: nat, homeMade: bool)
      requires Valid() && Enabled(View(), Stage(id, homeMade))
      modifies this`operations, this`staged, this`next
      ensures Valid() && View() == Apply(canonical, old(View()), Stage(id, homeMade))
    {
      hide Inv, S.Inv, S.Updated, HomeOf, Lawful, Queueable;
      StepKeepsInv(canonical, record.first, View(), Stage(id, homeMade));
      var operation := operations[id];
      if !homeMade {
        operations := operations[id := operation.(phase := Done(false))];
      } else {
        next, staged := operation.next, true;
        operations := operations[id := operation.(phase := Draining)];
      }
    }

    method WriteNext(id: nat)
      requires Valid() && Enabled(View(), Drained(id))
      modifies this`operations, this`provided, record
      ensures Valid() && View() == Apply(canonical, old(View()), Drained(id))
    {
      hide Inv, S.Inv, S.Updated, HomeOf, Lawful;
      StepKeepsInv(canonical, record.first, View(), Drained(id));
      provided := None;
      var job := record.Enter(SetConnection(next));
      operations := operations[id := operations[id].(phase := Saving(job))];
    }

    /** After the write: the `try`, `catch` and `finally` blocks. */
    method FinishSwitch(id: nat)
      requires Valid() && Enabled(View(), Finish(id))
      modifies this`operations, this`active, this`staged, this`next, this`version, this`provided
      ensures Valid() && View() == Apply(canonical, old(View()), Finish(id))
    {
      hide Inv, S.Inv, S.Updated, HomeOf, Lawful, Queueable;
      StepKeepsInv(canonical, record.first, View(), Finish(id));
      var operation := operations[id];
      var written := record.jobs[operation.phase.job].phase == S.Settled(true);
      if written {
        active := operation.next;
      }
      version := version + 1;
      provided := Provided(canonical, active, version);
      staged, next := false, None;
      operations := operations[id := operation.(phase := Done(written))];
    }

    method BeginQueuedWrite(job: nat, readable: bool)
      requires Valid() && Enabled(View(), BeginWrite(job, readable))
      modifies record
      ensures Valid() && View() == Apply(canonical, old(View()), BeginWrite(job, readable))
    {
      hide Inv, S.Inv, S.Updated, HomeOf, Lawful, Queueable;
      StepKeepsInv(canonical, record.first, View(), BeginWrite(job, readable));
      var updated := record.ReadAndUpdate(job, readable);
    }

    method PersistQueuedWrite(job: nat, written: bool)
      requires Valid() && Enabled(View(), PersistWrite(job, written))
      modifies record
      ensures Valid() && View() == Apply(canonical, old(View()), PersistWrite(job, written))
    {
      hide Inv, S.Inv, S.Updated, HomeOf, Lawful, Queueable;
      StepKeepsInv(canonical, record.first, View(), PersistWrite(job, written));
      record.Replace(job, written);
    }

    /** The write is over; the handlers of `persistConfiguredOrigin` note an origin that failed. */
    method LeaveQueuedWrite(job: nat)
      requires Valid() && Enabled(View(), LeaveWrite(job))
      modifies this`originWriteError, record
      ensures Valid() && View() == Apply(canonical, old(View()), LeaveWrite(job))
    {
      hide Inv, S.Inv, S.Updated, HomeOf, Lawful, Queueable;
      StepKeepsInv(canonical, record.first, View(), LeaveWrite(job));
      if record.jobs[job].update.SetOrigin? {
        originWriteError := record.jobs[job].phase != S.Settled(true);
      }
      record.Exit(job);
    }
  }
}
