/**
 * One pooled runtime key and the server behind it: how reads, exports and writes use their
 * leases, and what becomes of the changeset of a write (content-runtime.ts). Operations on one
 * key are serial, see `RuntimeQueue`; everything else interferes freely.
 */
module ContentRuntime {
  import opened Wrappers

  datatype Mutation = Mutation(id: string, data: string)

  /** A changeset keeps its id however often it is submitted. */
  datatype Changeset = Changeset(id: nat, base: nat, mutations: seq<Mutation>)

  datatype Runtime = Runtime(
    baseRevision: nat,
    pending: seq<Mutation>,
    awaiting: Option<Changeset>,
    conflict: bool)

  datatype Error =
    | AcquireFailed | RuntimeFailed | Dirty | Conflict | Mismatch | ResultInvalid
    | PullRequired | CommitInvalid | RetryExhausted

  datatype CommitStatus =
    | Confirmed(baseRevision: nat)
    | Retry | Unknown | Conflicting | NeedsPull | Other

  datatype WriteResult = NotCommitted(value: string) | Committed(revision: nat, value: string)

  datatype Operation = Read(revision: nat) | ExportUnit(revision: nat) | Write(revision: nat)

  /** What the caller of an operation gets. */
  datatype Outcome =
    | Failed(error: Error)
    | ReadDone(value: string)
    | ExportDone(data: string)
    | Wrote(result: WriteResult)

  // ---------- The environment of one operation ----------

  /** What happens at one moment: writes of other clients, and idle runtimes that the pool drops. */
  datatype Meanwhile = Meanwhile(writes: seq<seq<Mutation>>, dropped: set<nat>)

  /** One submission: the runtime may discard it, and request and response may be lost. */
  datatype Sending = Sending(
    discarded: bool,
    requestLost: bool,
    responseLost: bool,
    mergeable: bool,
    before: Meanwhile,
    behind: Meanwhile)

  /**
   * All that the environment decides about one operation: `left` is what the code leaves pending,
   * `stored` what the image upload makes of it, or nothing where replacing it fails.
   */
  datatype Fate = Fate(
    acquiring: Meanwhile,
    acquired: bool,
    reused: Option<nat>,
    pulling: Meanwhile,
    pullFails: bool,
    pullConflicts: bool,
    using: Meanwhile,
    useFails: bool,
    left: seq<Mutation>,
    wellFormed: bool,
    value: string,
    storing: Meanwhile,
    stored: Option<seq<Mutation>>,
    sending: nat -> Sending)

  predicate Lost(sending: Sending) {
    !sending.discarded && (sending.requestLost || sending.responseLost)
  }

  predicate Arrives(sending: Sending) {
    !sending.discarded && !Lost(sending)
  }

  /** The pull succeeds, and nobody else writes meanwhile. */
  predicate Pulls(fate: Fate) {
    fate.pulling.writes == [] && !fate.pullFails && !fate.pullConflicts
  }

  /** Nobody else writes between the pull and the last submission. */
  predicate Calm(fate: Fate) {
    && fate.using.writes == [] && fate.storing.writes == []
    && forall k: nat | k < 3 :: fate.sending(k).before.writes == [] && fate.sending(k).behind.writes == []
  }

  /** Nothing fails, nothing is lost, nobody else writes, and a new runtime is made. */
  predicate Undisturbed(fate: Fate) {
    && fate.acquired && fate.reused.None? && Pulls(fate) && !fate.useFails
    && fate.wellFormed && fate.stored.Some? && Arrives(fate.sending(0))
    && fate.acquiring.writes == [] && Calm(fate)
  }

  /** A failure and its cause; `clean` and `head` are what the lease found when it began. */
  predicate Explains(op: Operation, fate: Fate, clean: bool, head: nat, error: Error) {
    match error
    case AcquireFailed => !fate.acquired
    case Dirty => !clean
    case RuntimeFailed => fate.pullFails || fate.useFails || (op.Write? && fate.stored.None?)
    case Conflict => fate.pullConflicts || (op.Write? && !Calm(fate))
    case Mismatch => head != op.revision
    case ResultInvalid => op.Write? && !fate.wellFormed
    case PullRequired => op.Write? && !Calm(fate)
    case CommitInvalid =>
      op.Write? && exists k: nat | k < 3 ::
        fate.sending(k).discarded && forall i: nat | i < k :: Lost(fate.sending(i))
    case RetryExhausted => op.Write? && forall k: nat | k < 3 :: Lost(fate.sending(k))
  }

  /** What happens to leases and on them; `clean` is what the last pull of the lease found. */
  datatype Event =
    | Acquired(runtime: nat)
    | Ran(runtime: nat, clean: bool, revision: nat)
    | Exported(runtime: nat, clean: bool, revision: nat)
    | Submitted(runtime: nat, id: nat)
    | Released(runtime: nat)
    | Invalidated(runtime: nat)

  predicate Clean(r: Runtime) {
    r.pending == [] && r.awaiting.None? && !r.conflict
  }

  function Submissions(runtime: nat, id: nat, n: nat): (s: seq<Event>)
    ensures |s| == n
  {
    seq(n, _ => Submitted(runtime, id))
  }

  lemma OneMoreSubmission(runtime: nat, id: nat, n: nat)
    ensures Submissions(runtime, id, n + 1)
            == Submissions(runtime, id, n) + [Submitted(runtime, id)]
  {}

  /**
   * The lease discipline: leases do not nest, code runs and data is exported only under a lease
   * and after a clean pull, changesets are submitted only under a lease, and each lease ends once.
   */
  predicate Disciplined(log: seq<Event>, leased: Option<nat>) {
    if log == [] then leased.None?
    else
      var rest := log[1..];
      match log[0]
      case Acquired(r) => leased.None? && Disciplined(rest, Some(r))
      case Ran(r, clean, _) => leased == Some(r) && clean && Disciplined(rest, leased)
      case Exported(r, clean, _) => leased == Some(r) && clean && Disciplined(rest, leased)
      case Submitted(r, _) => leased == Some(r) && Disciplined(rest, leased)
      case Released(r) => leased == Some(r) && Disciplined(rest, None)
      case Invalidated(r) => leased == Some(r) && Disciplined(rest, None)
  }

  lemma {:induction false} DisciplinedConcat(a: seq<Event>, b: seq<Event>, leased: Option<nat>)
    requires Disciplined(a, leased) && Disciplined(b, None)
    ensures Disciplined(a + b, leased)
  {
    if a == [] {
      assert a + b == b;
    } else {
      assert (a + b)[1..] == a[1..] + b;
      var next := match a[0]
                  case Acquired(r) => Some(r)
                  case Released(_) => None
                  case Invalidated(_) => None
                  case _ => leased;
      DisciplinedConcat(a[1..], b, next);
    }
  }

  lemma {:induction false} DisciplinedEnd(id: nat, sent: nat, n: nat, last: Event)
    requires last == Released(id) || last == Invalidated(id)
    ensures Disciplined(Submissions(id, sent, n) + [last], Some(id))
  {
    var all := Submissions(id, sent, n) + [last];
    if n == 0 {
      assert all == [last];
    } else {
      DisciplinedEnd(id, sent, n - 1, last);
      assert all[1..] == Submissions(id, sent, n - 1) + [last];
    }
  }

  lemma DisciplinedWrite(id: nat, ran: bool, revision: nat, sent: nat, n: nat, last: Event)
    requires last == Released(id) || last == Invalidated(id)
    ensures Disciplined([Acquired(id)] + (if ran then [Ran(id, true, revision)] else [])
                        + Submissions(id, sent, n) + [last], None)
  {
    DisciplinedEnd(id, sent, n, last);
    var tail := Submissions(id, sent, n) + [last];
    var middle := (if ran then [Ran(id, true, revision)] else []) + tail;
    if ran {
      assert middle[1..] == tail;
    } else {
      assert middle == tail;
    }
    assert Disciplined(middle, Some(id));
    var all := [Acquired(id)] + middle;
    assert all[1..] == middle;
    assert all == [Acquired(id)] + (if ran then [Ran(id, true, revision)] else [])
                  + Submissions(id, sent, n) + [last];
  }

  lemma DisciplinedRead(id: nat, used: Event)
    requires (used.Ran? || used.Exported?) && used.runtime == id && used.clean
    ensures Disciplined([Acquired(id), Released(id)], None)
    ensures Disciplined([Acquired(id), used, Released(id)], None)
  {
    var log := [Acquired(id), used, Released(id)];
    assert log[1..] == [used, Released(id)] && log[1..][1..] == [Released(id)];
    assert [Acquired(id), Released(id)][1..] == [Released(id)];
  }

  // ---------- The server's log ----------

  predicate UniqueIds(applied: seq<Changeset>) {
    forall i, j | 0 <= i < j < |applied| :: applied[i].id != applied[j].id
  }

  predicate IdsBelow(applied: seq<Changeset>, limit: nat) {
    forall i | 0 <= i < |applied| :: applied[i].id < limit
  }

  predicate IsApplied(applied: seq<Changeset>, id: nat) {
    exists i | 0 <= i < |applied| :: applied[i].id == id
  }

  /** If the changeset was applied, it stands right after the revision it is based on. */
  predicate AtItsRevision(applied: seq<Changeset>, c: Changeset) {
    forall i | 0 <= i < |applied| && applied[i].id == c.id :: i == c.base && applied[i] == c
  }

  /** Everything applied since carries an id that was not in use before. */
  predicate Grows(before: seq<Changeset>, after: seq<Changeset>, limit: nat) {
    && before <= after
    && forall i | |before| <= i < |after| :: after[i].id >= limit
  }

  /** As `Grows`, but `id` may have been applied as well. */
  predicate GrowsBut(before: seq<Changeset>, after: seq<Changeset>, limit: nat, id: nat) {
    && before <= after
    && forall i | |before| <= i < |after| :: after[i].id >= limit || after[i].id == id
  }

  /** How often the server applied a changeset with this id. */
  function Applications(applied: seq<Changeset>, id: nat): nat {
    if applied == [] then 0
    else (if applied[0].id == id then 1 else 0) + Applications(applied[1..], id)
  }

  lemma {:induction false} AppliedAtMostOnce(applied: seq<Changeset>, id: nat)
    requires UniqueIds(applied)
    ensures Applications(applied, id) == if IsApplied(applied, id) then 1 else 0
  {
    if applied != [] {
      var rest := applied[1..];
      assert forall i | 0 <= i < |rest| :: rest[i] == applied[i + 1];
      AppliedAtMostOnce(rest, id);
      if i :| 0 <= i < |applied| && applied[i].id == id {
        assert i > 0 ==> rest[i - 1].id == id;
      }
    }
  }

  /** The changeset is on the server exactly once, right after the revision it is based on. */
  predicate AppliedOnce(applied: seq<Changeset>, c: Changeset) {
    Applications(applied, c.id) == 1 && c.base < |applied| && applied[c.base] == c
  }

  // ---------- One operation and its lease ----------

  /**
   * The lease of an operation: whether its runtime was clean, the head that it pulled, whether it
   * was used, what was sent how often, and how it ended.
   */
  datatype Lease =
    | NoLease
    | Lease(runtime: nat, clean: bool, head: nat, used: bool, sent: Changeset, n: nat, released: bool)

  predicate Sends(lease: Lease) {
    lease.Lease? && lease.n > 0
  }

  function Uses(op: Operation, lease: Lease): seq<Event>
    requires lease.Lease?
  {
    if !lease.used then []
    else if op.ExportUnit? then [Exported(lease.runtime, true, op.revision)]
    else [Ran(lease.runtime, true, op.revision)]
  }

  /** What a lease leaves in the record: its use is clean and at the revision of its operation. */
  function Events(op: Operation, lease: Lease): seq<Event> {
    match lease
    case NoLease => []
    case Lease(runtime, _, _, _, sent, n, released) =>
      [Acquired(runtime)] + Uses(op, lease) + Submissions(runtime, sent.id, n)
      + [if released then Released(runtime) else Invalidated(runtime)]
  }

  /** The leases of all operations one after the other. */
  function Flat(operations: seq<Operation>, leases: seq<Lease>): seq<Event>
    requires |operations| == |leases|
  {
    if leases == [] then []
    else
      var k := |leases| - 1;
      Flat(operations[..k], leases[..k]) + Events(operations[k], leases[k])
  }

  predicate IsCommitted(outcome: Outcome) {
    outcome.Wrote? && outcome.result.Committed?
  }

  /**
   * How an operation, its fate, its lease and what its caller gets belong together. Each failure
   * has its cause; a write is committed exactly when its code left mutations, and what is sent are
   * these mutations as they were stored, on the revision of the operation.
   */
  predicate Fits(op: Operation, fate: Fate, lease: Lease, outcome: Outcome) {
    && (match outcome
        case Failed(error) =>
          Explains(op, fate, lease.Lease? && lease.clean, if lease.Lease? then lease.head else 0, error)
        case ReadDone(value) => op.Read? && value == fate.value
        case ExportDone(data) => op.ExportUnit? && data == fate.value
        case Wrote(NotCommitted(value)) => op.Write? && fate.left == [] && value == fate.value
        case Wrote(Committed(revision, value)) =>
          op.Write? && fate.left != [] && value == fate.value && revision == op.revision + 1)
    && (lease.NoLease? <==> outcome == Failed(AcquireFailed))
    && (lease.Lease? ==>
          && lease.n <= 3
          && (lease.n > 0 ==>
                && op.Write? && lease.used && fate.left != [] && fate.stored.Some?
                && lease.sent == Changeset(lease.sent.id, op.revision, fate.stored.value))
          && (lease.used ==> lease.clean && lease.head == op.revision)
          && (lease.released <==> !op.Write? || outcome.Wrote?)
          && (!outcome.Failed? ==> lease.used)
          && (outcome.Wrote? ==> (lease.n > 0 <==> outcome.result.Committed?)))
  }

  /** All submissions of one id stand side by side on one runtime: in one lease. */
  predicate OneLease(log: seq<Event>) {
    forall i, k, j | 0 <= i <= k <= j < |log| && log[i].Submitted? && log[j].Submitted?
                     && log[i].id == log[j].id ::
      log[k] == log[i]
  }

  predicate IdsWithin(log: seq<Event>, low: nat, high: nat) {
    forall i | 0 <= i < |log| && log[i].Submitted? :: low <= log[i].id < high
  }

  lemma OneLeaseConcat(a: seq<Event>, b: seq<Event>, limit: nat, high: nat)
    requires OneLease(a) && OneLease(b) && limit <= high
    requires IdsWithin(a, 0, limit) && IdsWithin(b, limit, high)
    ensures OneLease(a + b) && IdsWithin(a + b, 0, high)
  {
    var log := a + b;
    forall i, k, j | 0 <= i <= k <= j < |log| && log[i].Submitted? && log[j].Submitted?
                     && log[i].id == log[j].id
      ensures log[k] == log[i]
    {
      assert if i < |a| then log[i] == a[i] && log[i].id < limit else log[i] == b[i - |a|] && log[i].id >= limit;
      assert if j < |a| then log[j] == a[j] && log[j].id < limit else log[j] == b[j - |a|] && log[j].id >= limit;
      if j < |a| {
        assert a[i].id == a[j].id;
      } else {
        assert b[i - |a|].id == b[j - |a|].id;
      }
    }
  }

  lemma EventsOfOneLease(op: Operation, lease: Lease, low: nat, high: nat)
    requires Sends(lease) ==> low <= lease.sent.id < high
    ensures OneLease(Events(op, lease)) && IdsWithin(Events(op, lease), low, high)
  {
    if lease.Lease? {
      var log := Events(op, lease);
      var first := 1 + |Uses(op, lease)|;
      assert forall i | 0 <= i < |log| ::
        (log[i].Submitted? <==> first <= i < first + lease.n)
        && (log[i].Submitted? ==> log[i] == Submitted(lease.runtime, lease.sent.id));
    }
  }

  lemma EventsAreDisciplined(op: Operation, lease: Lease)
    requires lease.Lease? && !op.Write? ==> lease.n == 0 && lease.released
    ensures Disciplined(Events(op, lease), None)
  {
    if lease.Lease? {
      var last := if lease.released then Released(lease.runtime) else Invalidated(lease.runtime);
      if op.Write? {
        DisciplinedWrite(lease.runtime, lease.used, op.revision, lease.sent.id, lease.n, last);
      } else {
        var used := if op.ExportUnit? then Exported(lease.runtime, true, op.revision)
                    else Ran(lease.runtime, true, op.revision);
        DisciplinedRead(lease.runtime, used);
        assert Events(op, lease)
               == if lease.used then [Acquired(lease.runtime), used, last]
                  else [Acquired(lease.runtime), last];
      }
    }
  }

  /** What is known of all leases so far, and of the server. */
  ghost predicate Served(operations: seq<Operation>, fates: seq<Fate>, leases: seq<Lease>,
                         outcomes: seq<Outcome>, log: seq<Event>, applied: seq<Changeset>, limit: nat)
  {
    && |operations| == |fates| == |leases| == |outcomes|
    && log == Flat(operations, leases)
    && Disciplined(log, None) && OneLease(log) && IdsWithin(log, 0, limit)
    && (forall k | 0 <= k < |leases| :: Fits(operations[k], fates[k], leases[k], outcomes[k]))
    && (forall k | 0 <= k < |leases| && Sends(leases[k]) ::
          leases[k].sent.id < limit && AtItsRevision(applied, leases[k].sent))
    && (forall k | 0 <= k < |leases| && IsCommitted(outcomes[k]) ::
          IsApplied(applied, leases[k].sent.id))
  }

  lemma NothingServed(applied: seq<Changeset>, limit: nat)
    ensures Served([], [], [], [], [], applied, limit)
  {
  }

  lemma ServedNext(operations: seq<Operation>, fates: seq<Fate>, leases: seq<Lease>,
                   outcomes: seq<Outcome>, log: seq<Event>, applied: seq<Changeset>, limit: nat,
                   op: Operation, fate: Fate, lease: Lease, outcome: Outcome,
                   after: seq<Changeset>, next: nat)
    requires Served(operations, fates, leases, outcomes, log, applied, limit)
    requires Grows(applied, after, limit) && limit <= next && Fits(op, fate, lease, outcome)
    requires Sends(lease) ==> limit <= lease.sent.id < next && AtItsRevision(after, lease.sent)
    requires IsCommitted(outcome) ==> IsApplied(after, lease.sent.id)
    ensures Served(operations + [op], fates + [fate], leases + [lease], outcomes + [outcome],
                   log + Events(op, lease), after, next)
  {
    hide Disciplined, OneLease, IdsWithin, Fits, Events, AtItsRevision, IsApplied, IsCommitted, Grows, Flat;
    EventsOfOneLease(op, lease, limit, next);
    FitsReads(op, fate, lease, outcome);
    EventsAreDisciplined(op, lease);
    FlatNext(operations, leases, op, lease);
    GrowsOn(applied, after, limit);
    OneLeaseConcat(log, Events(op, lease), limit, next);
    DisciplinedConcat(log, Events(op, lease), None);
    var n := |leases|;
    forall k | 0 <= k < n && Sends(leases[k]) ensures AtItsRevision(after, leases[k].sent) {
      StandingGrows(leases[k].sent, applied, after, limit);
    }
    forall k | 0 <= k < n && IsCommitted(outcomes[k]) ensures leases[k].Lease? {
      CommittedHasLease(operations[k], fates[k], leases[k], outcomes[k]);
    }
    forall k | 0 <= k < n && IsCommitted(outcomes[k]) ensures IsApplied(after, leases[k].sent.id) {
      AppliedGrows(leases[k].sent.id, applied, after);
    }
  }

  lemma FitsReads(op: Operation, fate: Fate, lease: Lease, outcome: Outcome)
    requires Fits(op, fate, lease, outcome)
    ensures lease.Lease? && !op.Write? ==> lease.n == 0 && lease.released
  {}

  lemma CommittedHasLease(op: Operation, fate: Fate, lease: Lease, outcome: Outcome)
    requires Fits(op, fate, lease, outcome) && IsCommitted(outcome)
    ensures lease.Lease?
  {}

  lemma FlatNext(operations: seq<Operation>, leases: seq<Lease>, op: Operation, lease: Lease)
    requires |operations| == |leases|
    ensures Flat(operations + [op], leases + [lease]) == Flat(operations, leases) + Events(op, lease)
  {
    hide Events;
    var n := |leases|;
    assert (operations + [op])[..n] == operations && (leases + [lease])[..n] == leases;
  }

  lemma GrowsOn(before: seq<Changeset>, after: seq<Changeset>, limit: nat)
    requires Grows(before, after, limit)
    ensures before <= after
  {}

  lemma StandingGrows(c: Changeset, before: seq<Changeset>, after: seq<Changeset>, limit: nat)
    requires AtItsRevision(before, c) && c.id < limit && Grows(before, after, limit)
    ensures AtItsRevision(after, c)
  {
  }

  lemma AppliedGrows(id: nat, before: seq<Changeset>, after: seq<Changeset>)
    requires IsApplied(before, id) && before <= after
    ensures IsApplied(after, id)
  {
    var i :| 0 <= i < |before| && before[i].id == id;
    assert after[i].id == id;
  }

  lemma OnceAtItsRevision(applied: seq<Changeset>, c: Changeset)
    requires UniqueIds(applied) && AtItsRevision(applied, c)
    ensures Applications(applied, c.id) <= 1
    ensures IsApplied(applied, c.id) ==> AppliedOnce(applied, c)
  {
    AppliedAtMostOnce(applied, c.id);
  }

  /** The pool of one key with its runtimes, the server, and the record of what happened. */
  class Pool {
    var runtimes: map<nat, Runtime>
    var leased: Option<nat>
    var nextRuntime: nat
    var applied: seq<Changeset>
    var nextChangeset: nat
    ghost var pulledClean: bool
    ghost var log: seq<Event>

    /** No changeset is applied twice, and only the leased runtime may await one. */
    ghost predicate Valid()
      reads this
    {
      && (leased.Some? ==> leased.value in runtimes)
      && (forall r | r in runtimes :: r < nextRuntime)
      && (forall r | r in runtimes && runtimes[r].awaiting.Some? ::
            Some(r) == leased && runtimes[r].awaiting.value.id < nextChangeset)
      && UniqueIds(applied) && IdsBelow(applied, nextChangeset)
    }

    constructor ()
      ensures Valid() && leased.None? && applied == [] && log == []
    {
      runtimes, leased, nextRuntime := map[], None, 0;
      applied, nextChangeset := [], 0;
      pulledClean, log := false, [];
    }

    // ---------- The environment ----------

    /** Other clients write, and the pool drops idle runtimes as it likes. */
    method Interfere(meanwhile: Meanwhile)
      requires Valid()
      modifies this
      ensures Valid() && leased == old(leased) && log == old(log)
      ensures pulledClean == old(pulledClean)
      ensures runtimes.Keys <= old(runtimes).Keys && nextRuntime == old(nextRuntime)
      ensures forall r | r in runtimes :: runtimes[r] == old(runtimes)[r]
      ensures Grows(old(applied), applied, old(nextChangeset))
      ensures old(nextChangeset) <= nextChangeset
      ensures meanwhile.writes == [] ==>
                applied == old(applied) && nextChangeset == old(nextChangeset)
    {
      for i := 0 to |meanwhile.writes|
        invariant Valid() && leased == old(leased) && log == old(log)
        invariant pulledClean == old(pulledClean)
        invariant runtimes == old(runtimes) && nextRuntime == old(nextRuntime)
        invariant Grows(old(applied), applied, old(nextChangeset))
        invariant old(nextChangeset) <= nextChangeset
        invariant i == 0 ==> applied == old(applied) && nextChangeset == old(nextChangeset)
      {
        applied := applied + [Changeset(nextChangeset, |applied|, meanwhile.writes[i])];
        nextChangeset := nextChangeset + 1;
      }
      var dropped := meanwhile.dropped;
      runtimes := runtimes - (if leased.Some? then dropped - {leased.value} else dropped);
    }

    /** `pool.acquire`: an idle runtime, a new one, or a failure. */
    method Acquire(fate: Fate) returns (r: Option<nat>)
      requires Valid() && leased.None?
      modifies this
      ensures Valid() && leased == r && (r.Some? <==> fate.acquired)
      ensures r.Some? ==> runtimes[r.value].awaiting.None?
      ensures r.Some? && fate.reused.None? ==> Clean(runtimes[r.value])
      ensures log == old(log) + if r.Some? then [Acquired(r.value)] else []
      ensures Grows(old(applied), applied, old(nextChangeset))
      ensures old(nextChangeset) <= nextChangeset
      ensures fate.acquiring.writes == [] ==>
                applied == old(applied) && nextChangeset == old(nextChangeset)
    {
      Interfere(fate.acquiring);
      if !fate.acquired {
        return None;
      }
      if fate.reused.Some? && fate.reused.value in runtimes {
        r := fate.reused;
      } else {
        r := Some(nextRuntime);
        runtimes := runtimes[nextRuntime := Runtime(0, [], None, false)];
        nextRuntime := nextRuntime + 1;
      }
      leased, pulledClean := r, false;
      log := log + [Acquired(r.value)];
    }

    method Release()
      requires Valid() && leased.Some? && runtimes[leased.value].awaiting.None?
      modifies this
      ensures Valid() && leased.None? && runtimes == old(runtimes)
      ensures log == old(log) + [Released(old(leased).value)]
      ensures applied == old(applied) && nextChangeset == old(nextChangeset)
    {
      log := log + [Released(leased.value)];
      leased := None;
    }

    method Invalidate()
      requires Valid() && leased.Some?
      modifies this
      ensures Valid() && leased.None?
      ensures old(leased).value !in runtimes
      ensures log == old(log) + [Invalidated(old(leased).value)]
      ensures applied == old(applied) && nextChangeset == old(nextChangeset)
    {
      log := log + [Invalidated(leased.value)];
      runtimes := runtimes - {leased.value};
      leased := None;
    }

    /** `lease.pull`: the runtime reaches the head of the moment, conflicts, or the call fails. */
    method Pull(fate: Fate) returns (failed: bool, conflict: bool)
      requires Valid() && leased.Some?
      modifies this
      ensures Valid() && leased == old(leased) && log == old(log)
      ensures runtimes[leased.value].awaiting == old(runtimes[leased.value]).awaiting
      ensures pulledClean == Clean(old(runtimes[leased.value]))
      ensures failed == fate.pullFails && conflict == fate.pullConflicts
      ensures !failed && !conflict ==>
                && runtimes[leased.value].baseRevision == |applied|
                && (pulledClean ==> Clean(runtimes[leased.value]))
      ensures Grows(old(applied), applied, old(nextChangeset))
      ensures old(nextChangeset) <= nextChangeset
      ensures fate.pulling.writes == [] ==>
                applied == old(applied) && nextChangeset == old(nextChangeset)
    {
      Interfere(fate.pulling);
      var id := leased.value;
      pulledClean := Clean(runtimes[id]);
      failed, conflict := fate.pullFails, fate.pullConflicts;
      if !failed {
        runtimes := runtimes[id := runtimes[id].(
          baseRevision := if conflict then runtimes[id].baseRevision else |applied|,
          conflict := conflict)];
      }
    }

    /** `lease.execute`: code may leave any pending mutations, also when it throws. */
    method Execute(fate: Fate) returns (failed: bool, mutations: seq<Mutation>)
      requires Valid() && leased.Some? && runtimes[leased.value].awaiting.None?
      modifies this
      ensures Valid() && leased == old(leased)
      ensures failed == fate.useFails && mutations == fate.left
      ensures runtimes[leased.value] == old(runtimes[leased.value]).(pending := fate.left)
      ensures log == old(log)
                     + [Ran(leased.value, pulledClean, runtimes[leased.value].baseRevision)]
      ensures pulledClean == old(pulledClean)
      ensures Grows(old(applied), applied, old(nextChangeset))
      ensures old(nextChangeset) <= nextChangeset
      ensures fate.using.writes == [] ==>
                applied == old(applied) && nextChangeset == old(nextChangeset)
    {
      var id := leased.value;
      log := log + [Ran(id, pulledClean, runtimes[id].baseRevision)];
      Interfere(fate.using);
      failed, mutations := fate.useFails, fate.left;
      runtimes := runtimes[id := runtimes[id].(pending := mutations)];
    }

    /** `lease.exportUnitData` */
    method Export(fate: Fate) returns (failed: bool, data: string)
      requires Valid() && leased.Some?
      modifies this
      ensures Valid() && leased == old(leased)
      ensures failed == fate.useFails && data == fate.value
      ensures runtimes[leased.value] == old(runtimes[leased.value])
      ensures pulledClean == old(pulledClean)
      ensures log == old(log)
                     + [Exported(leased.value, pulledClean, runtimes[leased.value].baseRevision)]
      ensures Grows(old(applied), applied, old(nextChangeset))
      ensures old(nextChangeset) <= nextChangeset
    {
      var id := leased.value;
      log := log + [Exported(id, pulledClean, runtimes[id].baseRevision)];
      Interfere(fate.using);
      failed, data := fate.useFails, fate.value;
    }

    /**
     * `lease.commit`: the first commit fixes the changeset, later ones send it again. The request
     * and the response may each be lost; the server applies a changeset to the head it is based
     * on, and answers one that it already applied as it did the first time.
     */
    method Commit(sending: Sending) returns (status: CommitStatus)
      requires Valid() && leased.Some?
      requires var r := runtimes[leased.value];
        r.awaiting.None? || (r.awaiting.value.base == r.baseRevision
                             && AtItsRevision(applied, r.awaiting.value))
      modifies this
      ensures Valid() && leased == old(leased)
      ensures
        var before, after := old(runtimes[leased.value]), runtimes[leased.value];
        var sent := if before.awaiting.Some? then before.awaiting.value
                    else Changeset(old(nextChangeset), before.baseRevision, before.pending);
        && log == old(log) + [Submitted(leased.value, sent.id)]
        && AtItsRevision(applied, sent)
        && (status.Confirmed? ==>
              && after == before.(awaiting := None, pending := [])
              && status.baseRevision == sent.base + 1
              && IsApplied(applied, sent.id))
        && (!status.Confirmed? ==>
              after == before.(awaiting := Some(sent)))
        && GrowsBut(old(applied), applied, old(nextChangeset), sent.id)
        && (before.awaiting.Some? || old(nextChangeset) < nextChangeset)
        && (sending.before.writes == [] && sending.behind.writes == [] ==>
              && applied == Received(old(applied), sent, sending)
              && (Arrives(sending) && Acceptable(old(applied), sent) ==> status.Confirmed?))
      ensures status.Other? <==> sending.discarded
      ensures status.Retry? || status.Unknown? <==> Lost(sending)
      ensures status.Confirmed? || status.NeedsPull? || status.Conflicting? <==> Arrives(sending)
      ensures status.NeedsPull? ==> sending.mergeable
      ensures status.Conflicting? ==> !sending.mergeable
      ensures pulledClean == old(pulledClean)
      ensures old(nextChangeset) <= nextChangeset
    {
      var id := leased.value;
      var sent := FixChangeset();
      log := log + [Submitted(id, sent.id)];
      if sending.discarded {
        return Other;
      }
      var accepted := false;
      if !sending.requestLost {
        accepted := Receive(sent, sending);
      }
      if sending.requestLost || sending.responseLost {
        return if sending.mergeable then Retry else Unknown;
      }
      if !accepted {
        return if sending.mergeable then NeedsPull else Conflicting;
      }
      runtimes := runtimes[id := runtimes[id].(awaiting := None, pending := [])];
      return Confirmed(sent.base + 1);
    }

    /** The first commit of a lease turns its pending mutations into a changeset of their own. */
    method FixChangeset() returns (sent: Changeset)
      requires Valid() && leased.Some?
      requires var r := runtimes[leased.value];
        r.awaiting.None? || AtItsRevision(applied, r.awaiting.value)
      modifies this`runtimes, this`nextChangeset
      ensures Valid()
      ensures sent == (var r := old(runtimes[leased.value]);
                       if r.awaiting.Some? then r.awaiting.value
                       else Changeset(old(nextChangeset), r.baseRevision, r.pending))
      ensures runtimes == old(runtimes)[leased.value := old(runtimes[leased.value]).(awaiting := Some(sent))]
      ensures AtItsRevision(applied, sent) && sent.id < nextChangeset
      ensures old(nextChangeset) <= nextChangeset
      ensures old(runtimes[leased.value]).awaiting.None? ==> old(nextChangeset) < nextChangeset
    {
      var r := runtimes[leased.value];
      if r.awaiting.Some? {
        sent := r.awaiting.value;
      } else {
        sent := Changeset(nextChangeset, r.baseRevision, r.pending);
        nextChangeset := nextChangeset + 1;
        runtimes := runtimes[leased.value := r.(awaiting := Some(sent))];
      }
    }

    /** The server: one application per changeset id, and only on the head it is based on. */
    method Receive(sent: Changeset, sending: Sending) returns (accepted: bool)
      requires Valid() && AtItsRevision(applied, sent) && sent.id < nextChangeset
      modifies this
      ensures Valid() && leased == old(leased) && log == old(log)
      ensures pulledClean == old(pulledClean)
      ensures leased.Some? ==> runtimes[leased.value] == old(runtimes)[leased.value]
      ensures AtItsRevision(applied, sent)
      ensures accepted ==> IsApplied(applied, sent.id)
      ensures old(nextChangeset) <= nextChangeset
      ensures GrowsBut(old(applied), applied, old(nextChangeset), sent.id)
      ensures sending.before.writes == [] && sending.behind.writes == [] ==>
                && accepted == Acceptable(old(applied), sent)
                && applied == Extended(old(applied), sent)
    {
      hide Grows, GrowsBut, UniqueIds, IdsBelow, AtItsRevision, IsApplied;
      Interfere(sending.before);
      ghost var first, limit := applied, nextChangeset;
      GrowsOn(old(applied), applied, old(nextChangeset));
      StandingGrows(sent, old(applied), applied, old(nextChangeset));
      accepted := IsApplied(applied, sent.id);
      if !accepted && sent.base == |applied| {
        AppendedOnce(applied, sent, nextChangeset);
        applied := applied + [sent];
        accepted := true;
      }
      ghost var second := applied;
      Interfere(sending.behind);
      StandingGrows(sent, second, applied, limit);
      GrowsOn(second, applied, limit);
      if accepted {
        AppliedGrows(sent.id, second, applied);
      }
      ReceivedGrows(old(applied), first, second, applied, old(nextChangeset), limit, sent);
    }

    // ---------- The client ----------

    /** `synchronize`: `head` is the head that was pulled. */
    method Synchronize(revision: nat, fate: Fate) returns (r: Result<(), Error>, ghost head: nat)
      requires Valid() && leased.Some? && runtimes[leased.value].awaiting.None?
      modifies this
      ensures Valid() && leased == old(leased) && log == old(log)
      ensures runtimes[leased.value].awaiting.None?
      ensures r.Success? ==>
        pulledClean && Clean(runtimes[leased.value])
        && runtimes[leased.value].baseRevision == revision == head == |applied|
      ensures r == Failure(Dirty) <==> !Clean(old(runtimes[leased.value]))
      ensures r == Failure(RuntimeFailed) ==> fate.pullFails
      ensures r == Failure(Conflict) ==> fate.pullConflicts
      ensures r == Failure(Mismatch) ==> head == |applied| != revision
      ensures r.Failure? ==> r.error in {Dirty, RuntimeFailed, Conflict, Mismatch}
      ensures Grows(old(applied), applied, old(nextChangeset))
      ensures old(nextChangeset) <= nextChangeset
      ensures fate.pulling.writes == [] ==>
                applied == old(applied) && nextChangeset == old(nextChangeset)
    {
      head := 0;
      if !Clean(runtimes[leased.value]) {
        return Failure(Dirty), head;
      }
      var failed, conflict := Pull(fate);
      if failed {
        return Failure(RuntimeFailed), head;
      }
      if conflict {
        return Failure(Conflict), head;
      }
      head := |applied|;
      if runtimes[leased.value].baseRevision != revision {
        return Failure(Mismatch), head;
      }
      return Success(()), head;
    }

    /**
     * `executeRead`: the code runs at most once, on a runtime that was clean and then sits at the
     * wanted revision, and the lease is released in every case. Each failure has its cause.
     */
    method ExecuteRead(revision: nat, fate: Fate)
      returns (r: Result<string, Error>, ghost id: nat, ghost clean: bool, ghost head: nat)
      requires Valid() && leased.None?
      modifies this
      ensures Valid() && leased.None?
      ensures
        || (log == old(log) && r == Failure(AcquireFailed))
        || (log == old(log) + [Acquired(id), Released(id)] && r.Failure? && r.error != AcquireFailed)
        || (log == old(log) + [Acquired(id), Ran(id, true, revision), Released(id)]
            && clean && head == revision && r != Failure(AcquireFailed))
      ensures r.Success? ==>
        && log == old(log) + [Acquired(id), Ran(id, true, revision), Released(id)]
        && r.value == fate.value
      ensures r.Failure? ==> Explains(Read(revision), fate, clean, head, r.error)
      ensures fate.acquired && fate.reused.None? ==> clean
      ensures clean && fate.acquiring.writes == [] && Pulls(fate) ==> head == |old(applied)|
      ensures old(nextChangeset) <= nextChangeset
      ensures Grows(old(applied), applied, old(nextChangeset))
    {
      hide Grows, UniqueIds, IdsBelow;
      id, clean, head := 0, false, 0;
      var lease := Acquire(fate);
      if lease.None? {
        return Failure(AcquireFailed), id, clean, head;
      }
      ghost var first, limit := applied, nextChangeset;
      id, clean := lease.value, Clean(runtimes[lease.value]);
      var synchronized;
      synchronized, head := Synchronize(revision, fate);
      GrowsThen(old(applied), first, applied, old(nextChangeset), limit);
      ghost var second, next := applied, nextChangeset;
      if synchronized.Failure? {
        r := Failure(synchronized.error);
      } else {
        var failed, _ := Execute(fate);
        GrowsThen(old(applied), second, applied, old(nextChangeset), next);
        r := if failed then Failure(RuntimeFailed) else Success(fate.value);
      }
      Release();
    }

    /** `exportUnitData`: as for a read, and the exported data is that of the wanted revision. */
    method ExportUnitData(revision: nat, fate: Fate)
      returns (r: Result<string, Error>, ghost id: nat, ghost clean: bool, ghost head: nat)
      requires Valid() && leased.None?
      modifies this
      ensures Valid() && leased.None?
      ensures
        || (log == old(log) && r == Failure(AcquireFailed))
        || (log == old(log) + [Acquired(id), Released(id)] && r.Failure? && r.error != AcquireFailed)
        || (log == old(log) + [Acquired(id), Exported(id, true, revision), Released(id)]
            && clean && head == revision && r != Failure(AcquireFailed))
      ensures r.Success? ==>
        && log == old(log) + [Acquired(id), Exported(id, true, revision), Released(id)]
        && r.value == fate.value
      ensures r.Failure? ==> Explains(ExportUnit(revision), fate, clean, head, r.error)
      ensures fate.acquired && fate.reused.None? ==> clean
      ensures clean && fate.acquiring.writes == [] && Pulls(fate) ==> head == |old(applied)|
      ensures old(nextChangeset) <= nextChangeset
      ensures Grows(old(applied), applied, old(nextChangeset))
    {
      hide Grows, UniqueIds, IdsBelow;
      id, clean, head := 0, false, 0;
      var lease := Acquire(fate);
      if lease.None? {
        return Failure(AcquireFailed), id, clean, head;
      }
      ghost var first, limit := applied, nextChangeset;
      id, clean := lease.value, Clean(runtimes[lease.value]);
      var synchronized;
      synchronized, head := Synchronize(revision, fate);
      GrowsThen(old(applied), first, applied, old(nextChangeset), limit);
      ghost var second, next := applied, nextChangeset;
      if synchronized.Failure? {
        r := Failure(synchronized.error);
      } else {
        var failed, data := Export(fate);
        GrowsThen(old(applied), second, applied, old(nextChangeset), next);
        r := if failed then Failure(RuntimeFailed) else Success(data);
      }
      Release();
    }

    /** `commitStableChangeset`: one changeset, sent again as long as its answers are lost. */
    method CommitStableChangeset(fate: Fate) returns (r: Result<nat, Error>, ghost sent: Changeset, ghost n: nat)
      requires Valid() && leased.Some? && runtimes[leased.value].awaiting.None?
      modifies this
      ensures Valid() && leased == old(leased)
      ensures 1 <= n <= 3 && log == old(log) + Submissions(leased.value, sent.id, n)
      ensures sent == Changeset(old(nextChangeset), old(runtimes[leased.value].baseRevision),
                                old(runtimes[leased.value].pending))
      ensures AtItsRevision(applied, sent) && sent.id < nextChangeset
      ensures r.Success? ==>
        && r.value == sent.base + 1 && IsApplied(applied, sent.id)
        && runtimes[leased.value] == old(runtimes[leased.value]).(pending := [])
      ensures forall k: nat | k < n - 1 :: Lost(fate.sending(k))
      ensures r.Failure? ==>
        match r.error
        case CommitInvalid => fate.sending(n - 1).discarded
        case RetryExhausted => n == 3 && Lost(fate.sending(2))
        case Conflict =>
          && Arrives(fate.sending(n - 1)) && !fate.sending(n - 1).mergeable
          && !(Calm(fate) && sent.base == |old(applied)|)
        case PullRequired =>
          && Arrives(fate.sending(n - 1)) && fate.sending(n - 1).mergeable
          && !(Calm(fate) && sent.base == |old(applied)|)
        case _ => false
      ensures Calm(fate) && sent.base == |old(applied)| ==>
                applied == old(applied) || applied == old(applied) + [sent]
      ensures old(nextChangeset) <= nextChangeset
      ensures Grows(old(applied), applied, old(nextChangeset))
    {
      hide Submissions, AtItsRevision, IsApplied, Grows, GrowsBut, Received, Acceptable;
      hide Lost, Arrives, Calm, UniqueIds, IdsBelow;
      var id := leased.value;
      sent := Changeset(nextChangeset, runtimes[id].baseRevision, runtimes[id].pending);
      n := 0;
      NothingGrown(applied, nextChangeset);
      NoSubmissions(id, sent.id);
      assert log + [] == log;
      var attempt := 0;
      while attempt < 3
        invariant attempt == n <= 3 && Valid() && leased == old(leased)
        invariant log == old(log) + Submissions(id, sent.id, n)
        invariant runtimes[id] == old(runtimes[id]).(awaiting := if n == 0 then None else Some(sent))
        invariant n == 0 ==> nextChangeset == old(nextChangeset) && applied == old(applied)
        invariant n > 0 ==> AtItsRevision(applied, sent) && sent.id < nextChangeset
        invariant forall k: nat | k < n :: Lost(fate.sending(k))
        invariant Calm(fate) && sent.base == |old(applied)| ==>
          applied == old(applied) || applied == old(applied) + [sent]
        invariant old(nextChangeset) <= nextChangeset
        invariant Grows(old(applied), applied, old(nextChangeset))
      {
        CalmSending(fate, attempt);
        ghost var reached, limit, noted := applied, nextChangeset, log;
        var status := Commit(fate.sending(attempt));
        NotedNext(old(log), noted, log, id, sent.id, n);
        GrownBy(old(applied), reached, applied, old(nextChangeset), limit, sent);
        if sent.base == |old(applied)| {
          FirstReceived(old(applied), sent, fate.sending(attempt));
        }
        StaysExtended(old(applied), reached, sent, fate.sending(attempt));
        n := n + 1;
        attempt := attempt + 1;
        match status {
          case Confirmed(baseRevision) => return Success(baseRevision), sent, n;
          case Retry =>
          case Unknown =>
          case Conflicting => return Failure(Conflict), sent, n;
          case NeedsPull => return Failure(PullRequired), sent, n;
          case Other => return Failure(CommitInvalid), sent, n;
        }
      }
      return Failure(RetryExhausted), sent, n;
    }

    /** The part of `executeAndCommit` under its `try`: `reusable` is what the `finally` reads. */
    method RunAndCommit(revision: nat, fate: Fate)
      returns (r: Result<WriteResult, Error>, reusable: bool, ghost head: nat, ghost ran: bool,
               ghost sent: Changeset, ghost n: nat)
      requires Valid() && leased.Some? && runtimes[leased.value].awaiting.None?
      modifies this
      ensures Valid() && leased == old(leased)
      ensures reusable <==> r.Success?
      ensures reusable ==> Clean(runtimes[leased.value])
      ensures n <= 3 && (n > 0 ==> ran) && (ran ==> Clean(old(runtimes[leased.value])) && head == revision)
      ensures log == old(log) + (if ran then [Ran(leased.value, true, revision)] else [])
                     + Submissions(leased.value, sent.id, n)
      ensures sent.id >= old(nextChangeset)
      ensures n > 0 ==>
        && fate.left != [] && fate.stored.Some? && sent == Changeset(sent.id, revision, fate.stored.value)
        && AtItsRevision(applied, sent) && sent.id < nextChangeset
      ensures r.Success? ==>
        ran && match r.value
               case NotCommitted(value) => n == 0 && fate.left == [] && value == fate.value
               case Committed(at, value) =>
                 n > 0 && at == revision + 1 && IsApplied(applied, sent.id) && value == fate.value
      ensures r.Failure? ==>
        && r.error != AcquireFailed
        && Explains(Write(revision), fate, Clean(old(runtimes[leased.value])), head, r.error)
      ensures Clean(old(runtimes[leased.value])) && Pulls(fate) ==> head == |old(applied)|
      ensures fate.pulling.writes == [] && Calm(fate) && n == 0 ==> applied == old(applied)
      ensures fate.pulling.writes == [] && Calm(fate) && n > 0 ==>
                applied == old(applied) || applied == old(applied) + [sent]
      ensures old(nextChangeset) <= nextChangeset
      ensures Grows(old(applied), applied, old(nextChangeset))
    {
      hide Grows, UniqueIds, IdsBelow, AtItsRevision, IsApplied, Calm, Explains, Submissions, Lost, Arrives;
      CalmIs(fate);
      ran, sent, n, reusable := false, Changeset(nextChangeset, revision, []), 0, false;
      Unsent(log, leased.value, sent.id);
      assert log + [] == log;
      var synchronized;
      synchronized, head := Synchronize(revision, fate);
      ghost var first, limit := applied, nextChangeset;
      if synchronized.Failure? {
        PullExplained(revision, fate, head, synchronized.error, Clean(old(runtimes[leased.value])));
        return Failure(synchronized.error), reusable, head, ran, sent, n;
      }
      ran := true;
      var failed, mutations := Execute(fate);
      GrowsThen(old(applied), first, applied, old(nextChangeset), limit);
      first, limit := applied, nextChangeset;
      Unsent(log, leased.value, sent.id);
      RunExplained(revision, fate, head);
      if failed {
        return Failure(RuntimeFailed), reusable, head, ran, sent, n;
      }
      if !fate.wellFormed {
        return Failure(ResultInvalid), reusable, head, ran, sent, n;
      }
      var value := fate.value;
      if mutations == [] {
        return Success(NotCommitted(value)), true, head, ran, sent, n;
      }
      var replaced := ReplacePendingMutations(fate);
      GrowsThen(old(applied), first, applied, old(nextChangeset), limit);
      first, limit := applied, nextChangeset;
      if !replaced {
        return Failure(RuntimeFailed), reusable, head, ran, sent, n;
      }
      var committed;
      committed, sent, n := CommitStableChangeset(fate);
      GrowsThen(old(applied), first, applied, old(nextChangeset), limit);
      if committed.Failure? {
        CommitExplained(revision, fate, head, committed.error, n);
        return Failure(committed.error), reusable, head, ran, sent, n;
      }
      return Success(Committed(committed.value, value)), true, head, ran, sent, n;
    }

    /** Image upload and `lease.replacePendingMutations`: other mutations take the place. */
    method ReplacePendingMutations(fate: Fate) returns (ok: bool)
      requires Valid() && leased.Some? && runtimes[leased.value].awaiting.None?
      modifies this
      ensures Valid() && leased == old(leased) && log == old(log)
      ensures ok == fate.stored.Some?
      ensures runtimes[leased.value]
              == old(runtimes[leased.value]).(pending := if ok then fate.stored.value
                                                         else old(runtimes[leased.value]).pending)
      ensures old(nextChangeset) <= nextChangeset
      ensures Grows(old(applied), applied, old(nextChangeset))
      ensures fate.storing.writes == [] ==>
                applied == old(applied) && nextChangeset == old(nextChangeset)
    {
      Interfere(fate.storing);
      ok := fate.stored.Some?;
      if ok {
        runtimes := runtimes[leased.value := runtimes[leased.value].(pending := fate.stored.value)];
      }
    }

    /**
     * `executeAndCommit`. The lease ends exactly once, after at most one run on the wanted
     * revision and at most three submissions of one fresh changeset. That changeset holds what the
     * run left, as it was stored; it is on the server at most once and only right after the wanted
     * revision, and it is there when the write is reported as committed. A write is reported as
     * not committed exactly when the run left nothing. A released runtime is clean; whatever was
     * not confirmed dies with its runtime, so no later operation submits it again. Each failure
     * has its cause, so an undisturbed write at the head succeeds.
     */
    method ExecuteAndCommit(revision: nat, fate: Fate)
      returns (r: Result<WriteResult, Error>, ghost id: nat, ghost clean: bool, ghost head: nat,
               ghost ran: bool, ghost sent: Changeset, ghost n: nat)
      requires Valid() && leased.None?
      modifies this
      ensures Valid() && leased.None?
      ensures r == Failure(AcquireFailed) <==> log == old(log)
      ensures log == old(log)
              || log == old(log) + [Acquired(id)]
                        + (if ran then [Ran(id, true, revision)] else [])
                        + Submissions(id, sent.id, n)
                        + [if r.Success? then Released(id) else Invalidated(id)]
      ensures n <= 3 && (n > 0 ==> ran) && (ran ==> clean && head == revision)
      ensures sent.id >= old(nextChangeset)
      ensures n > 0 ==>
        && fate.left != [] && fate.stored.Some? && sent == Changeset(sent.id, revision, fate.stored.value)
        && AtItsRevision(applied, sent) && sent.id < nextChangeset
      ensures r.Success? ==> id in runtimes && Clean(runtimes[id])
      ensures r.Failure? && log != old(log) ==> id !in runtimes
      ensures r.Success? ==>
        ran && match r.value
        case NotCommitted(value) => n == 0 && fate.left == [] && value == fate.value
        case Committed(at, value) =>
          n > 0 && at == revision + 1 && IsApplied(applied, sent.id) && value == fate.value
      ensures r.Failure? ==> Explains(Write(revision), fate, clean, head, r.error)
      ensures Undisturbed(fate) && revision == |old(applied)| ==>
        && r == Success(if fate.left == [] then NotCommitted(fate.value)
                        else Committed(revision + 1, fate.value))
        && applied == old(applied) + if fate.left == [] then [] else [sent]
      ensures old(nextChangeset) <= nextChangeset
      ensures Grows(old(applied), applied, old(nextChangeset))
    {
      hide Grows, UniqueIds, IdsBelow, AtItsRevision, IsApplied, Explains, Undisturbed, Submissions;
      id, clean, head := 0, false, 0;
      ran, sent, n := false, Changeset(nextChangeset, revision, []), 0;
      NothingExplains(revision, fate);
      var lease := Acquire(fate);
      if lease.None? {
        return Failure(AcquireFailed), id, clean, head, ran, sent, n;
      }
      ghost var first, limit := applied, nextChangeset;
      id, clean := lease.value, Clean(runtimes[lease.value]);
      var reusable;
      r, reusable, head, ran, sent, n := RunAndCommit(revision, fate);
      GrowsThen(old(applied), first, applied, old(nextChangeset), limit);
      NewIsAdded(first, limit, applied, sent);
      if reusable {
        Release();
      } else {
        Invalidate();
      }
    }

    /**
     * Any sequence of operations, whatever the environment does in between. The record is that of
     * their leases, one after the other: each runs code or exports data at most once, after a clean
     * pull and at the revision of its own operation, and ends once. All submissions of one
     * changeset lie in one lease; the changeset is on the server at most once, and exactly once,
     * right after that revision, when its caller is told that it was committed. What each caller
     * gets fits the fate of its operation.
     */
    method Serve(operations: seq<Operation>, fates: seq<Fate>)
      returns (outcomes: seq<Outcome>, ghost leases: seq<Lease>)
      requires Valid() && leased.None? && log == [] && |fates| == |operations|
      modifies this
      ensures Valid() && leased.None?
      ensures |outcomes| == |leases| == |operations| && log == Flat(operations, leases)
      ensures forall k | 0 <= k < |operations| :: Fits(operations[k], fates[k], leases[k], outcomes[k])
      ensures Disciplined(log, None) && OneLease(log) && UniqueIds(applied)
      ensures forall k | 0 <= k < |operations| && Sends(leases[k]) ::
                AtItsRevision(applied, leases[k].sent) && Applications(applied, leases[k].sent.id) <= 1
      ensures forall k | 0 <= k < |operations| && IsCommitted(outcomes[k]) ::
                Sends(leases[k]) && AppliedOnce(applied, leases[k].sent)
    {
      hide *;
      outcomes, leases := [], [];
      NothingServed(applied, nextChangeset);
      assert operations[..0] == [] && fates[..0] == [];
      for k := 0 to |operations|
        invariant Valid() && leased.None?
        invariant Served(operations[..k], fates[..k], leases, outcomes, log, applied, nextChangeset)
      {
        ghost var before, first, limit := log, applied, nextChangeset;
        var outcome, lease := ServeOne(operations[k], fates[k]);
        ServedNext(operations[..k], fates[..k], leases, outcomes, before, first, limit,
                   operations[k], fates[k], lease, outcome, applied, nextChangeset);
        assert operations[..k + 1] == operations[..k] + [operations[k]];
        assert fates[..k + 1] == fates[..k] + [fates[k]];
        outcomes, leases := outcomes + [outcome], leases + [lease];
      }
      assert operations[..|operations|] == operations && fates[..|operations|] == fates;
      ServedAll(operations, fates, leases, outcomes);
    }

    lemma ServedAll(operations: seq<Operation>, fates: seq<Fate>, leases: seq<Lease>,
                    outcomes: seq<Outcome>)
      requires Valid() && Served(operations, fates, leases, outcomes, log, applied, nextChangeset)
      ensures |outcomes| == |leases| == |fates| == |operations| && log == Flat(operations, leases)
      ensures forall k | 0 <= k < |operations| :: Fits(operations[k], fates[k], leases[k], outcomes[k])
      ensures Disciplined(log, None) && OneLease(log) && UniqueIds(applied)
      ensures forall k | 0 <= k < |operations| && Sends(leases[k]) ::
                AtItsRevision(applied, leases[k].sent) && Applications(applied, leases[k].sent.id) <= 1
      ensures forall k | 0 <= k < |operations| && IsCommitted(outcomes[k]) ::
                Sends(leases[k]) && AppliedOnce(applied, leases[k].sent)
    {
      hide Disciplined, OneLease, AtItsRevision, UniqueIds, Flat, AppliedOnce, Explains;
      forall k | 0 <= k < |operations| && Sends(leases[k])
        ensures Applications(applied, leases[k].sent.id) <= 1
        ensures IsCommitted(outcomes[k]) ==> AppliedOnce(applied, leases[k].sent)
      {
        OnceAtItsRevision(applied, leases[k].sent);
      }
    }

    /** One operation, with its lease as the record has it. */
    method ServeOne(op: Operation, fate: Fate) returns (outcome: Outcome, ghost lease: Lease)
      requires Valid() && leased.None?
      modifies this
      ensures Valid() && leased.None?
      ensures log == old(log) + Events(op, lease) && Fits(op, fate, lease, outcome)
      ensures Sends(lease) ==>
                old(nextChangeset) <= lease.sent.id < nextChangeset && AtItsRevision(applied, lease.sent)
      ensures IsCommitted(outcome) ==> IsApplied(applied, lease.sent.id)
      ensures Grows(old(applied), applied, old(nextChangeset)) && old(nextChangeset) <= nextChangeset
    {
      hide Valid, AtItsRevision, IsApplied, Grows, Submissions, Events, LeaseOf, Explains, Undisturbed, Calm;
      match op {
        case Read(revision) =>
          var r, id, clean, head := ExecuteRead(revision, fate);
          outcome := if r.Success? then ReadDone(r.value) else Failed(r.error);
          lease := LeaseOf(old(log), log, id, clean, head);
          LeaseFits(op, fate, old(log), log, id, clean, head, outcome);
        case ExportUnit(revision) =>
          var r, id, clean, head := ExportUnitData(revision, fate);
          outcome := if r.Success? then ExportDone(r.value) else Failed(r.error);
          lease := LeaseOf(old(log), log, id, clean, head);
          LeaseFits(op, fate, old(log), log, id, clean, head, outcome);
        case Write(revision) =>
          var r, id, clean, head, ran, sent, n := ExecuteAndCommit(revision, fate);
          outcome := if r.Success? then Wrote(r.value) else Failed(r.error);
          lease := if log == old(log) then NoLease else Lease(id, clean, head, ran, sent, n, r.Success?);
          WriteEvents(op, old(log), log, lease);
          NoLeaseExplained(op, fate, clean, head, outcome);
      }
    }
  }

  /** The server would apply this changeset now, or has applied it already. */
  predicate Acceptable(applied: seq<Changeset>, sent: Changeset) {
    IsApplied(applied, sent.id) || sent.base == |applied|
  }

  function Extended(applied: seq<Changeset>, sent: Changeset): seq<Changeset> {
    if IsApplied(applied, sent.id) || sent.base != |applied| then applied else applied + [sent]
  }

  /** The server's log behind a submission, while nobody else writes. */
  function Received(applied: seq<Changeset>, sent: Changeset, sending: Sending): seq<Changeset> {
    if sending.discarded || sending.requestLost then applied else Extended(applied, sent)
  }

  lemma PullExplained(revision: nat, fate: Fate, head: nat, error: Error, clean: bool)
    requires error in {Dirty, RuntimeFailed, Conflict, Mismatch}
    requires match error
             case Dirty => !clean
             case RuntimeFailed => fate.pullFails
             case Conflict => fate.pullConflicts
             case _ => head != revision
    ensures Explains(Write(revision), fate, clean, head, error)
  {}

  lemma RunExplained(revision: nat, fate: Fate, head: nat)
    ensures fate.useFails || fate.stored.None? ==>
              Explains(Write(revision), fate, true, head, RuntimeFailed)
    ensures !fate.wellFormed ==> Explains(Write(revision), fate, true, head, ResultInvalid)
  {}

  lemma CommitExplained(revision: nat, fate: Fate, head: nat, error: Error, n: nat)
    requires 1 <= n <= 3 && forall k: nat | k < n - 1 :: Lost(fate.sending(k))
    requires match error
             case CommitInvalid => fate.sending(n - 1).discarded
             case RetryExhausted => n == 3 && Lost(fate.sending(2))
             case Conflict => !Calm(fate)
             case PullRequired => !Calm(fate)
             case _ => false
    ensures Explains(Write(revision), fate, true, head, error)
  {
    hide Calm;
  }

  lemma AppendedOnce(applied: seq<Changeset>, sent: Changeset, limit: nat)
    requires UniqueIds(applied) && IdsBelow(applied, limit) && sent.id < limit
    requires !IsApplied(applied, sent.id) && sent.base == |applied|
    ensures UniqueIds(applied + [sent]) && IdsBelow(applied + [sent], limit)
    ensures AtItsRevision(applied + [sent], sent) && IsApplied(applied + [sent], sent.id)
  {
    assert (applied + [sent])[|applied|] == sent;
  }

  lemma ReceivedGrows(a: seq<Changeset>, b: seq<Changeset>, c: seq<Changeset>, d: seq<Changeset>,
                      limit: nat, next: nat, sent: Changeset)
    requires Grows(a, b, limit) && Grows(c, d, next) && limit <= next && (c == b || c == b + [sent])
    ensures GrowsBut(a, d, limit, sent.id)
  {}

  lemma NewIsAdded(first: seq<Changeset>, limit: nat, applied: seq<Changeset>, sent: Changeset)
    requires IdsBelow(first, limit) && sent.id >= limit
    ensures IsApplied(applied, sent.id) ==> applied != first
  {}

  /** An undisturbed write at the head has no cause to fail. */
  lemma NothingExplains(revision: nat, fate: Fate)
    ensures Undisturbed(fate) ==>
      && fate.acquired && fate.reused.None? && fate.acquiring.writes == [] && Pulls(fate) && Calm(fate)
      && forall error :: !Explains(Write(revision), fate, true, revision, error)
    ensures fate.acquired ==> forall clean, head :: !Explains(Write(revision), fate, clean, head, AcquireFailed)
    ensures !fate.acquired ==> forall clean, head :: Explains(Write(revision), fate, clean, head, AcquireFailed)
  {
    hide Calm;
  }

  lemma Unsent(log: seq<Event>, runtime: nat, id: nat)
    ensures log + Submissions(runtime, id, 0) == log
  {
    NoSubmissions(runtime, id);
    hide Submissions;
  }

  lemma NotedNext(first: seq<Event>, noted: seq<Event>, log: seq<Event>, runtime: nat, id: nat, n: nat)
    requires noted == first + Submissions(runtime, id, n) && log == noted + [Submitted(runtime, id)]
    ensures log == first + Submissions(runtime, id, n + 1)
  {
    OneMoreSubmission(runtime, id, n);
    hide Submissions;
  }

  lemma CalmSending(fate: Fate, k: nat)
    requires k < 3
    ensures Calm(fate) ==> fate.sending(k).before.writes == [] && fate.sending(k).behind.writes == []
  {}

  lemma CalmIs(fate: Fate)
    ensures Calm(fate) ==> fate.using.writes == [] && fate.storing.writes == []
  {}

  lemma GrowsThen(a: seq<Changeset>, b: seq<Changeset>, c: seq<Changeset>, limit: nat, next: nat)
    requires Grows(a, b, limit) && Grows(b, c, next) && limit <= next
    ensures Grows(a, c, limit)
  {}

  lemma NothingGrown(applied: seq<Changeset>, limit: nat)
    ensures Grows(applied, applied, limit)
  {}

  lemma NoSubmissions(runtime: nat, id: nat)
    ensures Submissions(runtime, id, 0) == []
  {}

  lemma GrownBy(first: seq<Changeset>, reached: seq<Changeset>, after: seq<Changeset>, limit: nat,
                next: nat, sent: Changeset)
    requires Grows(first, reached, limit) && limit <= next && limit <= sent.id
    requires GrowsBut(reached, after, next, sent.id)
    ensures Grows(first, after, limit)
  {}

  /** The first submission, while nobody else has written since the pull. */
  lemma FirstReceived(first: seq<Changeset>, sent: Changeset, sending: Sending)
    requires sent.base == |first|
    ensures Received(first, sent, sending) == first || Received(first, sent, sending) == first + [sent]
    ensures Acceptable(first, sent)
  {}

  /** Sending a changeset again changes nothing any more. */
  lemma StaysExtended(first: seq<Changeset>, reached: seq<Changeset>, sent: Changeset, sending: Sending)
    ensures reached == first + [sent] ==>
              Received(reached, sent, sending) == reached && Acceptable(reached, sent)
  {
    if reached == first + [sent] {
      assert reached[|first|].id == sent.id;
    }
  }

  /** The lease of a read or an export, from what it added to the record. */
  ghost function LeaseOf(before: seq<Event>, after: seq<Event>, id: nat, clean: bool, head: nat): Lease {
    if after == before then NoLease
    else Lease(id, clean, head, |after| == |before| + 3, Changeset(0, 0, []), 0, true)
  }

  /** Where nothing was acquired, nothing else is to blame. */
  lemma NoLeaseExplained(op: Operation, fate: Fate, clean: bool, head: nat, outcome: Outcome)
    ensures outcome == Failed(AcquireFailed) && Explains(op, fate, clean, head, AcquireFailed) ==>
              Explains(op, fate, false, 0, AcquireFailed)
  {}

  /** A read or an export, with what it added to the record. */
  lemma LeaseFits(op: Operation, fate: Fate, before: seq<Event>, after: seq<Event>, id: nat, clean: bool,
                  head: nat, outcome: Outcome)
    requires !op.Write?
    requires match outcome
             case Failed(error) => Explains(op, fate, clean, head, error)
             case ReadDone(value) => op.Read? && value == fate.value
             case ExportDone(data) => op.ExportUnit? && data == fate.value
             case Wrote(_) => false
    requires
      var used := if op.Read? then Ran(id, true, op.revision) else Exported(id, true, op.revision);
      || (after == before && outcome == Failed(AcquireFailed))
      || (after == before + [Acquired(id), Released(id)] && outcome.Failed?
          && outcome.error != AcquireFailed)
      || (after == before + [Acquired(id), used, Released(id)] && clean && head == op.revision
          && outcome != Failed(AcquireFailed))
    ensures
      var lease := LeaseOf(before, after, id, clean, head);
      && !Sends(lease) && Fits(op, fate, lease, outcome) && after == before + Events(op, lease)
  {
    hide Submissions, Explains;
    NoLeaseExplained(op, fate, clean, head, outcome);
    var lease := LeaseOf(before, after, id, clean, head);
    assert Submissions(id, 0, 0) == [];
    assert before + [] == before;
    if lease.Lease? {
      assert Events(op, lease) == [Acquired(id)] + Uses(op, lease) + [Released(id)];
    }
  }

  lemma WriteEvents(op: Operation, before: seq<Event>, after: seq<Event>, lease: Lease)
    requires op.Write? && (lease.NoLease? ==> after == before)
    requires lease.Lease? ==>
      after == before + [Acquired(lease.runtime)]
               + (if lease.used then [Ran(lease.runtime, true, op.revision)] else [])
               + Submissions(lease.runtime, lease.sent.id, lease.n)
               + [if lease.released then Released(lease.runtime) else Invalidated(lease.runtime)]
    ensures after == before + Events(op, lease)
  {
    hide Submissions;
    assert before + [] == before;
  }
}
