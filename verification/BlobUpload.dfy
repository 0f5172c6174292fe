/**
 * Blob upload over a network that loses requests and responses: the client's recovery loops, the
 * server, and the channel between them, all in one model (blob.ts, errors.ts).
 */
module BlobUpload {
  import opened Wrappers

  datatype UploadState =
    | WaitingForUpload | Uploaded | Verifying | Completed | Failed | Expired | Aborted

  datatype Intent = Intent(
    idempotencyKey: string,
    spaceId: string,
    parentNodeId: Option<string>,
    name: string,
    originalFilename: string,
    byteSize: nat,
    declaredMediaType: Option<string>)

  /** A session with its operation; `completing` says that its completion was requested. */
  datatype Session = Session(
    operationId: nat,
    nodeId: nat,
    resourceId: nat,
    intent: Intent,
    state: UploadState,
    completing: bool)

  datatype Envelope = Envelope(
    operationId: nat,
    uploadId: nat,
    nodeId: nat,
    resourceId: nat,
    state: UploadState,
    name: string,
    originalFilename: string,
    byteSize: nat)

  /** A published Blob: its Node and Resource in one. */
  datatype Node = Node(
    nodeId: nat,
    resourceId: nat,
    spaceId: string,
    parentNodeId: Option<string>,
    name: string,
    byteSize: nat)

  datatype UploadResult = UploadResult(
    idempotencyKey: string,
    uploadId: nat,
    operationId: nat,
    nodeId: nat,
    resourceId: nat,
    name: string,
    originalFilename: string,
    byteSize: nat,
    node: Node)

  /**
   * `Unknown` is a result that may have taken effect, `Rejected` a definite answer of the server,
   * `Mismatch` an identity check of the client, `Terminal` a session that can no longer complete.
   */
  datatype Error = Unknown | Rejected | Mismatch | Terminal(state: UploadState)

  const MAX_ATTEMPTS: nat := 3

  predicate Final(s: UploadState) {
    s == Completed || s == Failed || s == Expired || s == Aborted
  }

  /** Sessions only move forward: a final state stays, and nothing goes back to waiting. */
  predicate Forward(a: UploadState, b: UploadState) {
    a == b || (!Final(a) && b != WaitingForUpload)
  }

  predicate SameIdentity(a: Session, b: Session) {
    a.operationId == b.operationId && a.nodeId == b.nodeId && a.resourceId == b.resourceId
    && a.intent == b.intent
  }

  function EnvelopeOf(uploadId: nat, s: Session): Envelope {
    Envelope(s.operationId, uploadId, s.nodeId, s.resourceId, s.state, s.intent.name,
             s.intent.originalFilename, s.intent.byteSize)
  }

  function NodeOf(s: Session): Node {
    Node(s.nodeId, s.resourceId, s.intent.spaceId, s.intent.parentNodeId, s.intent.name,
         s.intent.byteSize)
  }

  predicate DistinctResources(published: seq<Node>) {
    forall i, j | 0 <= i < j < |published| :: published[i].resourceId != published[j].resourceId
  }

  // ---------- The checks of the client ----------

  /** `assertUploadIdentity` */
  predicate SameUpload(e: Envelope, reserved: Envelope) {
    e.operationId == reserved.operationId && e.uploadId == reserved.uploadId
    && e.nodeId == reserved.nodeId && e.resourceId == reserved.resourceId
  }

  /** `assertUploadIntent` */
  predicate MatchesIntent(e: Envelope, intent: Intent) {
    e.name == intent.name && e.originalFilename == intent.originalFilename
    && e.byteSize == intent.byteSize
  }

  /** `buildUploadResult` */
  function BuildUploadResult(e: Envelope, intent: Intent, operationId: nat, node: Node)
    : (r: Result<UploadResult, Error>)
    ensures r.Success? ==>
      && r.value.operationId == e.operationId && r.value.uploadId == e.uploadId
      && r.value.nodeId == e.nodeId == node.nodeId
      && r.value.resourceId == e.resourceId == node.resourceId
      && r.value.name == intent.name && r.value.byteSize == intent.byteSize
      && r.value.originalFilename == intent.originalFilename
      && r.value.idempotencyKey == intent.idempotencyKey
      && node.name == intent.name && node.byteSize == intent.byteSize
      && node.spaceId == intent.spaceId && node.parentNodeId == intent.parentNodeId
      && r.value.node == node
  {
    if operationId != e.operationId || node.nodeId != e.nodeId || node.resourceId != e.resourceId
       || node.spaceId != intent.spaceId || node.parentNodeId != intent.parentNodeId
       || node.name != intent.name || node.byteSize != intent.byteSize
    then Failure(Mismatch)
    else Success(UploadResult(intent.idempotencyKey, e.uploadId, operationId, node.nodeId,
                              node.resourceId, node.name, intent.originalFilename, node.byteSize,
                              node))
  }

  // ---------- The server ----------

  datatype World = World(
    sessionByKey: map<string, nat>,
    sessions: map<nat, Session>,
    published: seq<Node>,
    nextId: nat)

  ghost predicate KeysAgree(w: World) {
    forall k | k in w.sessionByKey ::
      w.sessionByKey[k] in w.sessions && w.sessions[w.sessionByKey[k]].intent.idempotencyKey == k
  }

  ghost predicate FreshIds(w: World) {
    && (forall u | u in w.sessions :: u < w.nextId && w.sessions[u].resourceId < w.nextId)
    && (forall u, v | u in w.sessions && v in w.sessions && u != v ::
          w.sessions[u].resourceId != w.sessions[v].resourceId)
    && (forall n | n in w.published :: n.resourceId < w.nextId)
  }

  /** A session's Blob is published exactly when the session is completed. */
  ghost predicate PublishedExactly(w: World, u: nat)
    requires u in w.sessions
  {
    && (w.sessions[u].state == Completed ==> NodeOf(w.sessions[u]) in w.published)
    && (forall n | n in w.published && n.resourceId == w.sessions[u].resourceId ::
          w.sessions[u].state == Completed && n == NodeOf(w.sessions[u]))
  }

  ghost predicate Valid(w: World) {
    && KeysAgree(w) && FreshIds(w) && DistinctResources(w.published)
    && forall u | u in w.sessions :: PublishedExactly(w, u)
  }

  /** What can happen to the server between two looks at it. */
  ghost predicate Continues(a: World, b: World) {
    && (forall u | u in a.sessions ::
          && u in b.sessions && SameIdentity(a.sessions[u], b.sessions[u])
          && Forward(a.sessions[u].state, b.sessions[u].state))
    && (forall k | k in a.sessionByKey ::
          k in b.sessionByKey && b.sessionByKey[k] == a.sessionByKey[k])
    && a.published <= b.published
  }

  lemma ContinuesOn(a: World, b: World, c: World)
    requires Continues(a, b) && Continues(b, c)
    ensures Continues(a, c)
  {}

  /** A session changes its state; completing it publishes its Blob. */
  function Moved(w: World, u: nat, next: Session): World
    requires u in w.sessions
  {
    var before := w.sessions[u];
    w.(sessions := w.sessions[u := next],
       published := if next.state == Completed && before.state != Completed
                    then w.published + [NodeOf(before)] else w.published)
  }

  lemma MovedIsValid(w: World, u: nat, next: Session)
    requires Valid(w) && u in w.sessions
    requires SameIdentity(w.sessions[u], next) && Forward(w.sessions[u].state, next.state)
    ensures Valid(Moved(w, u, next)) && Continues(w, Moved(w, u, next))
  {
    hide PublishedExactly, DistinctResources, KeysAgree, FreshIds, Continues, Moved, NodeOf;
    MovedKeeps(w, u, next);
    MovedPublishes(w, u, next);
    forall v | v in Moved(w, u, next).sessions ensures PublishedExactly(Moved(w, u, next), v) {
      assert PublishedExactly(w, v);
      StillExactly(w, u, next, v);
    }
  }

  lemma MovedKeeps(w: World, u: nat, next: Session)
    requires KeysAgree(w) && FreshIds(w) && u in w.sessions
    requires SameIdentity(w.sessions[u], next) && Forward(w.sessions[u].state, next.state)
    ensures KeysAgree(Moved(w, u, next)) && FreshIds(Moved(w, u, next))
    ensures Continues(w, Moved(w, u, next))
    ensures Moved(w, u, next).sessions.Keys == w.sessions.Keys
  {
    hide FreshIds;
    MovedFresh(w, u, next);
  }

  lemma MovedFresh(w: World, u: nat, next: Session)
    requires FreshIds(w) && u in w.sessions && SameIdentity(w.sessions[u], next)
    ensures FreshIds(Moved(w, u, next))
  {
    var t := Moved(w, u, next);
    assert forall n | n in t.published :: n in w.published || n == NodeOf(w.sessions[u]);
  }

  lemma MovedPublishes(w: World, u: nat, next: Session)
    requires DistinctResources(w.published) && u in w.sessions && PublishedExactly(w, u)
    ensures DistinctResources(Moved(w, u, next).published)
  {
    if next.state == Completed && w.sessions[u].state != Completed {
      PublishedOneMore(w.published, NodeOf(w.sessions[u]));
    }
  }

  lemma PublishedOneMore(published: seq<Node>, node: Node)
    requires DistinctResources(published)
    requires forall n | n in published :: n.resourceId != node.resourceId
    ensures DistinctResources(published + [node])
  {
    assert forall i | 0 <= i < |published| :: published[i] in published;
  }

  lemma StillExactly(w: World, u: nat, next: Session, v: nat)
    requires FreshIds(w) && u in w.sessions && v in w.sessions
    requires SameIdentity(w.sessions[u], next) && Forward(w.sessions[u].state, next.state)
    requires PublishedExactly(w, u) && PublishedExactly(w, v)
    ensures PublishedExactly(Moved(w, u, next), v)
  {
    var t := Moved(w, u, next);
    assert forall n | n in t.published :: n in w.published || n == NodeOf(next);
    if next.state == Completed && w.sessions[u].state != Completed {
      assert t.published[|w.published|] == NodeOf(next);
    }
  }

  function Opened(w: World, intent: Intent): World {
    var session := Session(w.nextId + 1, w.nextId + 2, w.nextId + 3, intent, WaitingForUpload, false);
    World(w.sessionByKey[intent.idempotencyKey := w.nextId],
          w.sessions[w.nextId := session], w.published, w.nextId + 4)
  }

  lemma OpenedIsValid(w: World, intent: Intent)
    requires Valid(w) && intent.idempotencyKey !in w.sessionByKey
    ensures Valid(Opened(w, intent)) && Continues(w, Opened(w, intent))
  {
    hide PublishedExactly, DistinctResources, KeysAgree, FreshIds, Continues;
    OpenedKeeps(w, intent);
    forall v | v in Opened(w, intent).sessions ensures PublishedExactly(Opened(w, intent), v) {
      assert v != w.nextId ==> PublishedExactly(w, v);
      OpenedExactly(w, intent, v);
    }
  }

  lemma OpenedKeeps(w: World, intent: Intent)
    requires KeysAgree(w) && FreshIds(w) && intent.idempotencyKey !in w.sessionByKey
    ensures KeysAgree(Opened(w, intent)) && FreshIds(Opened(w, intent))
    ensures Continues(w, Opened(w, intent))
  {
    OpenedFresh(w, intent);
    OpenedContinues(w, intent);
    hide FreshIds, Continues;
  }

  lemma OpenedFresh(w: World, intent: Intent)
    requires FreshIds(w)
    ensures FreshIds(Opened(w, intent))
  {}

  lemma OpenedContinues(w: World, intent: Intent)
    requires FreshIds(w) && intent.idempotencyKey !in w.sessionByKey
    ensures Continues(w, Opened(w, intent))
  {}

  lemma OpenedExactly(w: World, intent: Intent, v: nat)
    requires FreshIds(w) && v in Opened(w, intent).sessions
    requires v != w.nextId ==> PublishedExactly(w, v)
    ensures PublishedExactly(Opened(w, intent), v)
  {}

  lemma ContinuesSame(w: World)
    ensures Continues(w, w)
  {}

  /** The envelope was true of its session when the server sent it; the session may have moved on. */
  ghost predicate Reports(w: World, e: Envelope) {
    && e.uploadId in w.sessions
    && e == EnvelopeOf(e.uploadId, w.sessions[e.uploadId]).(state := e.state)
    && Forward(e.state, w.sessions[e.uploadId].state)
  }

  lemma StillReports(a: World, b: World, e: Envelope)
    requires Continues(a, b) && Reports(a, e)
    ensures Reports(b, e)
  {}

  /** The session that an idempotency key stands for, once and for all. */
  ghost predicate Belongs(w: World, u: nat, intent: Intent) {
    && u in w.sessions && w.sessions[u].intent == intent
    && intent.idempotencyKey in w.sessionByKey && w.sessionByKey[intent.idempotencyKey] == u
  }

  lemma StillBelongs(a: World, b: World, u: nat, intent: Intent)
    requires Continues(a, b) && Belongs(a, u, intent)
    ensures Belongs(b, u, intent)
  {}

  /** A published Blob stays published, and it is the Blob of its session. */
  ghost predicate IsPublished(w: World, u: nat) {
    u in w.sessions && NodeOf(w.sessions[u]) in w.published
  }

  lemma StillPublished(a: World, b: World, u: nat)
    requires Continues(a, b) && IsPublished(a, u)
    ensures IsPublished(b, u)
  {}

  /** What the channel delivers: an answer, a refusal, or nothing that says what happened. */
  datatype Reply<+T> = Answer(value: T) | Refused | Lost

  /** What others do: a session moves on, or a new one is reserved. */
  datatype Move = Advance(uploadId: nat, state: UploadState) | Open(intent: Intent)

  /**
   * All that the environment decides about one request. `atOnce`: bytes are checked while they are
   * put, and a Blob is published by the request for its completion.
   */
  datatype Fate = Fate(
    before: seq<Move>,
    requestLost: bool,
    refused: bool,
    atOnce: bool,
    behind: seq<Move>,
    responseLost: bool)

  /** Nothing happens to the request, except that it or its answer may be lost. */
  predicate Quiet(fate: Fate) {
    fate.before == [] && fate.behind == [] && fate.atOnce && !fate.refused
  }

  predicate Loses(fate: Fate) {
    fate.requestLost || fate.responseLost
  }

  /** What the client has been told: losses, refusals, and the states of the sessions it looked at. */
  datatype Told = Told(losses: nat, refusals: nat, seen: seq<UploadState>)

  function Hears<T>(told: Told, reply: Reply<T>): Told {
    match reply
    case Answer(_) => told
    case Refused => told.(refusals := told.refusals + 1)
    case Lost => told.(losses := told.losses + 1)
  }

  /** The world behind a reservation that nothing happens to, and behind the bytes and a completion. */
  function Asked(w: World, intent: Intent): World {
    if intent.idempotencyKey in w.sessionByKey then w else Opened(w, intent)
  }

  function Filled(w: World, u: nat): World {
    if u in w.sessions && w.sessions[u].state == WaitingForUpload
    then Moved(w, u, w.sessions[u].(state := Uploaded)) else w
  }

  function Finished(w: World, u: nat): World {
    if u in w.sessions && w.sessions[u].state == Uploaded
    then Moved(w, u, w.sessions[u].(state := Completed, completing := true)) else w
  }

  /**
   * The server behind the channel. An honest one answers with what it has; any other may answer
   * every request with anything, and the client has nothing but its checks.
   */
  class Server {
    const honest: bool
    const fates: nat -> Fate
    var requests: nat
    var w: World
    ghost var told: Told
    ghost var reserved: seq<Envelope>
    ghost var acted: seq<Envelope>
    ghost var reservations: nat
    ghost var puts: nat
    ghost var completions: nat
    ghost var completed: set<nat>

    /** An honest server, and requests to which nothing happens but losses. */
    ghost predicate Calm() {
      honest && forall k: nat :: Quiet(fates(k))
    }

    /** From now on at most one request or answer is lost. */
    ghost predicate LosesOnce()
      reads this`requests
    {
      Calm() && forall i: nat, j: nat | requests <= i < j :: !(Loses(fates(i)) && Loses(fates(j)))
    }

    /** From now on no request and no answer is lost. */
    ghost predicate LosesNone()
      reads this`requests
    {
      Calm() && forall i: nat | requests <= i :: !Loses(fates(i))
    }

    /** A loss uses up what may still be lost. */
    twostate predicate Foretells(lost: bool)
      reads this`requests
    {
      && (old(LosesNone()) ==> LosesNone() && !lost)
      && (old(LosesOnce()) ==> LosesOnce() && (lost ==> LosesNone()))
    }

    /** Other clients and the server itself; moves that are not possible are passed over. */
    method Interfere(moves: seq<Move>)
      requires Valid(w)
      modifies this`w
      ensures Valid(w) && Continues(old(w), w)
      ensures moves == [] ==> w == old(w)
    {
      hide Valid, Continues, Moved, Opened;
      ContinuesSame(w);
      for i := 0 to |moves|
        invariant Valid(w) && Continues(old(w), w)
        invariant i == 0 ==> w == old(w)
      {
        ghost var before := w;
        match moves[i] {
          case Advance(u, state) =>
            if u in w.sessions && Forward(w.sessions[u].state, state)
               && (state == Completed ==> w.sessions[u].completing) {
              MovedIsValid(w, u, w.sessions[u].(state := state));
              w := Moved(w, u, w.sessions[u].(state := state));
              ContinuesOn(old(w), before, w);
            }
          case Open(foreign) =>
            if foreign.idempotencyKey !in w.sessionByKey {
              OpenedIsValid(w, foreign);
              w := Opened(w, foreign);
              ContinuesOn(old(w), before, w);
            }
        }
      }
    }

    /** The answer as it reaches the client. */
    method Deliver<T>(reply: Reply<T>) returns (delivered: Reply<T>)
      modifies this`told
      ensures honest ==> delivered == reply
      ensures told == Hears(old(told), delivered)
    {
      delivered := *;
      if honest {
        delivered := reply;
      }
      told := Hears(told, delivered);
    }

    /** One move of one session. */
    method Advance(u: nat, next: Session)
      requires Valid(w) && u in w.sessions
      requires SameIdentity(w.sessions[u], next) && Forward(w.sessions[u].state, next.state)
      modifies this`w
      ensures Valid(w) && Continues(old(w), w)
      ensures u in w.sessions && w.sessions[u] == next && w == Moved(old(w), u, next)
    {
      MovedIsValid(w, u, next);
      w := Moved(w, u, next);
    }

    /** `POST /api/blob-upload-sessions`: one session per idempotency key. */
    method PostReservation(intent: Intent) returns (reply: Reply<Envelope>)
      requires Valid(w)
      modifies this`w, this`requests, this`told, this`reservations, this`reserved
      ensures Valid(w) && Continues(old(w), w) && reservations == old(reservations) + 1
      ensures told == Hears(old(told), reply)
      ensures reserved == old(reserved) + if reply.Answer? then [reply.value] else []
      ensures honest && reply.Answer? ==>
        Reports(w, reply.value) && Belongs(w, reply.value.uploadId, intent)
      ensures Foretells(reply.Lost?)
      ensures Calm() ==>
        && (w == Asked(old(w), intent) || (reply.Lost? && w == old(w)))
        && (Taken(old(w), intent) ==> reply == Refused || reply.Lost?)
        && (!Taken(old(w), intent) ==> (reply.Answer? && Exact(w, reply.value)) || reply.Lost?)
    {
      hide Valid, Continues, Reports, Belongs, Opened, Taken, Asked, Exact;
      reservations := reservations + 1;
      var fate := fates(requests);
      requests := requests + 1;
      var answer := Reserve(intent, fate);
      reply := Deliver(answer);
      reserved := reserved + if reply.Answer? then [reply.value] else [];
    }

    method Reserve(intent: Intent, fate: Fate) returns (reply: Reply<Envelope>)
      requires Valid(w)
      modifies this`w
      ensures Valid(w) && Continues(old(w), w)
      ensures reply.Answer? ==>
        Reports(w, reply.value) && Belongs(w, reply.value.uploadId, intent)
      ensures Quiet(fate) ==>
        && (reply.Lost? <==> Loses(fate))
        && (w == Asked(old(w), intent) || (reply.Lost? && w == old(w)))
        && (Taken(old(w), intent) ==> reply == Refused || reply.Lost?)
        && (!Taken(old(w), intent) ==> (reply.Answer? && Exact(w, reply.value)) || reply.Lost?)
    {
      hide Valid, Continues, Reports, Belongs, Opened, Taken, Asked, Exact;
      Interfere(fate.before);
      if fate.requestLost {
        return Lost;
      }
      ghost var first := w;
      var e := OpenSession(intent, fate.refused);
      ContinuesOn(old(w), first, w);
      ghost var second := w;
      Interfere(fate.behind);
      ContinuesOn(old(w), second, w);
      if fate.responseLost {
        return Lost;
      }
      if e.None? {
        return Refused;
      }
      StillReports(second, w, e.value);
      StillBelongs(second, w, e.value.uploadId, intent);
      return Answer(e.value);
    }

    method OpenSession(intent: Intent, refused: bool) returns (e: Option<Envelope>)
      requires Valid(w)
      modifies this`w
      ensures Valid(w) && Continues(old(w), w)
      ensures e.Some? ==> Reports(w, e.value) && Belongs(w, e.value.uploadId, intent)
      ensures !refused ==>
        && w == Asked(old(w), intent)
        && (Taken(old(w), intent) ==> e.None?)
        && (!Taken(old(w), intent) ==> e.Some? && Exact(w, e.value))
    {
      ContinuesSame(w);
      hide PublishedExactly, FreshIds, DistinctResources, Continues;
      if refused {
        return None;
      }
      if intent.idempotencyKey in w.sessionByKey {
        var known := w.sessionByKey[intent.idempotencyKey];
        if w.sessions[known].intent != intent {
          return None;
        }
        return Some(EnvelopeOf(known, w.sessions[known]));
      }
      var u := w.nextId;
      OpenedIsValid(w, intent);
      w := Opened(w, intent);
      return Some(EnvelopeOf(u, w.sessions[u]));
    }

    /** `GET /api/blob-upload-sessions/<id>` */
    method GetSession(u: nat) returns (reply: Reply<Envelope>)
      requires Valid(w)
      modifies this`w, this`requests, this`told
      ensures Valid(w) && Continues(old(w), w)
      ensures honest && reply.Answer? ==> reply.value.uploadId == u && Reports(w, reply.value)
      ensures told == Hears(old(told), reply)
                      .(seen := old(told).seen + if reply.Answer? then [reply.value.state] else [])
      ensures Foretells(reply.Lost?)
      ensures Calm() && u in old(w).sessions ==>
        w == old(w) && (reply.Lost? || reply == Answer(EnvelopeOf(u, w.sessions[u])))
    {
      hide Valid, Continues;
      var fate := fates(requests);
      requests := requests + 1;
      Interfere(fate.before);
      if fate.refused || u !in w.sessions {
        reply := Deliver(Refused);
      } else {
        ghost var seen := w;
        var e := EnvelopeOf(u, w.sessions[u]);
        Interfere(fate.behind);
        ContinuesOn(old(w), seen, w);
        StillReports(seen, w, e);
        reply := Deliver(if fate.requestLost || fate.responseLost then Lost else Answer(e));
      }
      told := told.(seen := told.seen + if reply.Answer? then [reply.value.state] else []);
    }

    /** `PUT /api/blob-upload-sessions/<id>/content`: bytes are taken only while waiting for them. */
    method PutContent(u: nat, ghost seen: Envelope) returns (reply: Reply<()>)
      requires Valid(w) && seen.uploadId == u
      modifies this`w, this`requests, this`told, this`puts, this`acted
      ensures Valid(w) && Continues(old(w), w) && puts == old(puts) + 1
      ensures acted == old(acted) + [seen] && told == Hears(old(told), reply)
      ensures Foretells(reply.Lost?)
      ensures Calm() && u in old(w).sessions ==>
        && (w == Filled(old(w), u) || (reply.Lost? && w == old(w)))
        && (reply.Lost?
            || reply == if old(w).sessions[u].state == WaitingForUpload then Answer(()) else Refused)
    {
      hide Valid, Continues, Moved;
      puts, acted := puts + 1, acted + [seen];
      var fate := fates(requests);
      requests := requests + 1;
      Interfere(fate.before);
      if fate.requestLost {
        reply := Deliver(Lost);
        return;
      }
      var accepted := !fate.refused && u in w.sessions && w.sessions[u].state == WaitingForUpload;
      if accepted {
        ghost var before := w;
        Advance(u, w.sessions[u].(state := if fate.atOnce then Uploaded else Verifying));
        ContinuesOn(old(w), before, w);
      }
      ghost var after := w;
      Interfere(fate.behind);
      ContinuesOn(old(w), after, w);
      reply := Deliver(if fate.responseLost then Lost else if accepted then Answer(()) else Refused);
    }

    /** `POST /api/blob-upload-sessions/<id>/complete`: publishes at once or later. */
    method PostCompletion(u: nat, ghost seen: Envelope) returns (reply: Reply<(nat, Node)>)
      requires Valid(w) && seen.uploadId == u
      modifies this`w, this`requests, this`told, this`completions, this`completed, this`acted
      ensures Valid(w) && Continues(old(w), w)
      ensures completions == old(completions) + 1 && completed == old(completed) + {u}
      ensures acted == old(acted) + [seen] && told == Hears(old(told), reply)
      ensures honest && reply.Answer? ==>
        && IsPublished(w, u)
        && reply.value == (w.sessions[u].operationId, NodeOf(w.sessions[u]))
      ensures Foretells(reply.Lost?)
      ensures Calm() && u in old(w).sessions ==>
        && (w == Finished(old(w), u) || (reply.Lost? && w == old(w)))
        && (old(w).sessions[u].state == Uploaded ==> reply.Answer? || reply.Lost?)
    {
      hide Valid, Continues, IsPublished, Finished;
      completions, completed, acted := completions + 1, completed + {u}, acted + [seen];
      var fate := fates(requests);
      requests := requests + 1;
      var answer := Publish(u, fate);
      reply := Deliver(answer);
    }

    method Publish(u: nat, fate: Fate) returns (reply: Reply<(nat, Node)>)
      requires Valid(w)
      modifies this`w
      ensures Valid(w) && Continues(old(w), w)
      ensures reply.Answer? ==>
        && IsPublished(w, u)
        && reply.value == (w.sessions[u].operationId, NodeOf(w.sessions[u]))
      ensures Quiet(fate) ==> (reply.Lost? <==> Loses(fate))
      ensures Quiet(fate) && u in old(w).sessions ==>
        && (w == Finished(old(w), u) || (reply.Lost? && w == old(w)))
        && (old(w).sessions[u].state == Uploaded ==> reply.Answer? || reply.Lost?)
    {
      hide Valid, Continues, IsPublished, Finished;
      Interfere(fate.before);
      if fate.requestLost {
        return Lost;
      }
      if fate.refused {
        return Refused;
      }
      ghost var before := w;
      var answer := Complete(u, fate.atOnce);
      ContinuesOn(old(w), before, w);
      ghost var after := w;
      Interfere(fate.behind);
      ContinuesOn(old(w), after, w);
      if fate.responseLost {
        return Lost;
      }
      if answer.None? {
        return Refused;
      }
      StillPublished(after, w, u);
      SessionStays(after, w, u);
      return Answer(answer.value);
    }

    method Complete(u: nat, atOnce: bool) returns (answer: Option<(nat, Node)>)
      requires Valid(w)
      modifies this`w
      ensures Valid(w) && Continues(old(w), w)
      ensures answer.Some? ==>
        && u in w.sessions && IsPublished(w, u)
        && answer.value == (w.sessions[u].operationId, NodeOf(w.sessions[u]))
      ensures atOnce && u in old(w).sessions ==>
        && w == Finished(old(w), u)
        && (old(w).sessions[u].state == Uploaded ==> answer.Some?)
    {
      hide Continues;
      ContinuesSame(w);
      if u !in w.sessions || (w.sessions[u].state != Uploaded && w.sessions[u].state != Completed) {
        return None;
      }
      if w.sessions[u].state == Uploaded {
        var next := if atOnce then Completed else Verifying;
        Advance(u, w.sessions[u].(state := next, completing := true));
      }
      if w.sessions[u].state != Completed {
        return None;
      }
      assert PublishedExactly(w, u);
      return Some((w.sessions[u].operationId, NodeOf(w.sessions[u])));
    }

    /** `GET /api/resources/<id>` */
    method GetBlob(resourceId: nat) returns (reply: Reply<Node>)
      requires Valid(w)
      modifies this`w, this`requests, this`told
      ensures Valid(w) && Continues(old(w), w) && told == Hears(old(told), reply)
      ensures honest && reply.Answer? ==>
        reply.value in w.published && reply.value.resourceId == resourceId
      ensures Foretells(reply.Lost?)
      ensures Calm() ==>
        && w == old(w)
        && ((exists node :: node in w.published && node.resourceId == resourceId) ==>
              reply.Answer? || reply.Lost?)
    {
      hide Valid;
      var fate := fates(requests);
      requests := requests + 1;
      Interfere(fate.before);
      if fate.refused || !(exists i | 0 <= i < |w.published| :: w.published[i].resourceId == resourceId) {
        reply := Deliver(Refused);
        return;
      }
      if fate.requestLost || fate.responseLost {
        reply := Deliver(Lost);
        return;
      }
      var i :| 0 <= i < |w.published| && w.published[i].resourceId == resourceId;
      reply := Deliver(Answer(w.published[i]));
    }
  }

  /** The envelope has the present state of its session. */
  predicate Exact(w: World, e: Envelope) {
    e.uploadId in w.sessions && e == EnvelopeOf(e.uploadId, w.sessions[e.uploadId])
  }

  /** The key stands for a session that was reserved for something else. */
  predicate Taken(w: World, intent: Intent) {
    && intent.idempotencyKey in w.sessionByKey && w.sessionByKey[intent.idempotencyKey] in w.sessions
    && w.sessions[w.sessionByKey[intent.idempotencyKey]].intent != intent
  }

  predicate IsIn(w: World, u: nat, state: UploadState) {
    u in w.sessions && w.sessions[u].state == state
  }

  lemma SessionStays(a: World, b: World, u: nat)
    requires Continues(a, b) && u in a.sessions
    ensures u in b.sessions && SameIdentity(a.sessions[u], b.sessions[u])
  {}

  // ---------- The client ----------

  /** What the client knows of the server's state, if the server is honest. */
  ghost predicate Trusts(honest: bool, w: World, e: Envelope, intent: Intent) {
    honest ==> Reports(w, e) && Belongs(w, e.uploadId, intent)
  }

  /** Bytes and completions were sent for envelopes that name the same upload and the intent only. */
  predicate ActedOn(before: seq<Envelope>, after: seq<Envelope>, reserved: Envelope, intent: Intent) {
    && before <= after
    && forall i | |before| <= i < |after| :: SameUpload(after[i], reserved) && MatchesIntent(after[i], intent)
  }

  /** What every part of an upload keeps, once its session is known. */
  twostate predicate Pursues(server: Server, reserved: Envelope, intent: Intent)
    reads server
  {
    && Valid(server.w) && Continues(old(server.w), server.w) && Trusts(server.honest, server.w, reserved, intent)
    && server.completed <= old(server.completed) + {reserved.uploadId}
    && server.reservations == old(server.reservations) && server.reserved == old(server.reserved)
    && ToldMore(old(server.told), server.told) && Heeds(server)
    && ActedOn(old(server.acted), server.acted, reserved, intent)
  }

  /** The result has the ids that were reserved, and what was intended. */
  predicate Carries(r: UploadResult, reserved: Envelope, intent: Intent) {
    && r.operationId == reserved.operationId && r.uploadId == reserved.uploadId
    && r.nodeId == r.node.nodeId == reserved.nodeId
    && r.resourceId == r.node.resourceId == reserved.resourceId
    && r.node.spaceId == intent.spaceId && r.node.parentNodeId == intent.parentNodeId
    && r.name == r.node.name == intent.name && r.byteSize == r.node.byteSize == intent.byteSize
    && r.originalFilename == intent.originalFilename && r.idempotencyKey == intent.idempotencyKey
  }

  /** The result of an upload: its Blob is published and is the one first reserved. */
  ghost predicate Names(w: World, r: UploadResult, u: nat, intent: Intent) {
    && Belongs(w, u, intent) && IsPublished(w, u)
    && r.uploadId == u && r.operationId == w.sessions[u].operationId
    && r.nodeId == w.sessions[u].nodeId && r.resourceId == w.sessions[u].resourceId
    && r.name == intent.name && r.byteSize == intent.byteSize
    && r.originalFilename == intent.originalFilename && r.idempotencyKey == intent.idempotencyKey
    && r.node == NodeOf(w.sessions[u])
  }

  /** The session of this intent will never publish a Blob. */
  ghost predicate NeverPublished(w: World, intent: Intent) {
    && intent.idempotencyKey in w.sessionByKey
    && var u := w.sessionByKey[intent.idempotencyKey];
       && u in w.sessions && Final(w.sessions[u].state)
       && forall n | n in w.published :: n.resourceId != w.sessions[u].resourceId
  }

  lemma TerminalPublishesNothing(w: World, e: Envelope, intent: Intent)
    requires Valid(w) && Reports(w, e) && Belongs(w, e.uploadId, intent)
    requires Final(e.state) && e.state != Completed
    ensures NeverPublished(w, intent)
  {
    assert PublishedExactly(w, e.uploadId);
  }

  /** The envelopes of one session agree with each other and with its intent. */
  lemma ReportsAgree(w: World, e: Envelope, reserved: Envelope, intent: Intent)
    requires Reports(w, e) && Reports(w, reserved) && e.uploadId == reserved.uploadId
    requires Belongs(w, e.uploadId, intent)
    ensures SameUpload(e, reserved) && MatchesIntent(e, intent)
  {}

  /** An answer that the server still stands by, whatever happened since. */
  lemma StillTrusts(honest: bool, a: World, b: World, e: Envelope, intent: Intent)
    requires Trusts(honest, a, e, intent) && Continues(a, b)
    ensures Trusts(honest, b, e, intent)
  {
    if honest {
      StillReports(a, b, e);
      StillBelongs(a, b, e.uploadId, intent);
    }
  }

  /** What a part of an upload tells of the losses to come. */
  twostate predicate Heeds(server: Server)
    reads server
  {
    server.Foretells(server.told.losses > old(server.told.losses))
  }

  lemma OnceIsCalm(server: Server)
    ensures server.LosesOnce() ==> server.Calm()
    ensures server.LosesNone() ==> server.LosesOnce()
  {}

  /** Asking again changes nothing. */
  lemma AskedAgain(w: World, intent: Intent)
    requires Valid(w)
    ensures Asked(Asked(w, intent), intent) == Asked(w, intent)
    ensures Taken(Asked(w, intent), intent) <==> Taken(w, intent)
  {
    hide FreshIds, PublishedExactly, DistinctResources;
  }

  /** Told at least as much as before. */
  predicate ToldMore(before: Told, after: Told) {
    before.losses <= after.losses && before.refusals <= after.refusals && before.seen <= after.seen
  }

  /** Nothing was lost or refused, and these states were seen. */
  function Saw(before: Told, states: seq<UploadState>): Told {
    before.(seen := before.seen + states)
  }

  /** `executeWithStableIdentity` around `reserve`: again as long as the answer is lost. */
  method Reserve(server: Server, intent: Intent) returns (r: Result<Envelope, Error>)
    requires Valid(server.w)
    modifies server`w, server`requests, server`told, server`reservations, server`reserved
    ensures Valid(server.w) && Continues(old(server.w), server.w)
    ensures server.reservations <= old(server.reservations) + MAX_ATTEMPTS
    ensures server.reserved == old(server.reserved) + if r.Success? then [r.value] else []
    ensures r.Success? ==> Trusts(server.honest, server.w, r.value, intent)
    ensures r.Failure? ==> r.error == Unknown || r.error == Rejected
    ensures ToldMore(old(server.told), server.told) && server.told.seen == old(server.told).seen
    ensures r == Failure(Unknown) ==>
      server.reservations == old(server.reservations) + 3
      && server.told.losses == old(server.told).losses + 3
    ensures r == Failure(Rejected) ==> server.told.refusals > old(server.told).refusals
    ensures Heeds(server)
    ensures old(server.LosesNone()) ==> server.reservations == old(server.reservations) + 1
    ensures old(server.LosesOnce()) ==>
      && server.w == Asked(old(server.w), intent)
      && (Taken(old(server.w), intent) ==> r == Failure(Rejected))
      && (!Taken(old(server.w), intent) ==> r.Success? && Exact(server.w, r.value))
  {
    hide Valid, Continues, Reports, Belongs, Taken, Asked, Exact;
    OnceIsCalm(server);
    ContinuesSame(server.w);
    for attempt := 0 to MAX_ATTEMPTS
      invariant Valid(server.w) && Continues(old(server.w), server.w)
      invariant server.reservations == old(server.reservations) + attempt
      invariant server.reserved == old(server.reserved)
      invariant server.told == old(server.told).(losses := old(server.told).losses + attempt)
      invariant attempt == 0 ==> server.w == old(server.w)
      invariant Heeds(server) && (old(server.LosesNone()) ==> attempt == 0)
      invariant old(server.LosesOnce()) ==>
        && attempt <= 1 && (server.w == old(server.w) || server.w == Asked(old(server.w), intent))
    {
      ghost var before := server.w;
      if old(server.LosesOnce()) {
        AskedAgain(old(server.w), intent);
      }
      var reply := server.PostReservation(intent);
      ContinuesOn(old(server.w), before, server.w);
      match reply {
        case Answer(e) => return Success(e);
        case Refused => return Failure(Rejected);
        case Lost =>
      }
    }
    return Failure(Unknown);
  }

  /** `getEnvelope` with the checks that follow every use of it. */
  method Refresh(server: Server, known: Envelope, intent: Intent) returns (r: Result<Envelope, Error>)
    requires Valid(server.w) && Trusts(server.honest, server.w, known, intent)
    modifies server`w, server`requests, server`told
    ensures Pursues(server, known, intent)
    ensures r.Success? ==>
      && SameUpload(r.value, known) && MatchesIntent(r.value, intent)
      && Trusts(server.honest, server.w, r.value, intent)
    ensures r.Failure? ==> r.error == Unknown || r.error == Rejected || r.error == Mismatch
    ensures r.Failure? && server.honest ==> r.error != Mismatch
    ensures r.Success? ==> server.told == Saw(old(server.told), [r.value.state])
    ensures r == Failure(Unknown) <==> server.told.losses > old(server.told).losses
    ensures r == Failure(Rejected) <==> server.told.refusals > old(server.told).refusals
    ensures server.Calm() && known.uploadId in old(server.w).sessions ==>
      && server.w == old(server.w)
      && (r == Failure(Unknown) || (r.Success? && Exact(server.w, r.value)))
  {
    hide Valid, Continues, Reports, Belongs;
    OnceIsCalm(server);
    var reply := server.GetSession(known.uploadId);
    StillTrusts(server.honest, old(server.w), server.w, known, intent);
    match reply {
      case Lost => return Failure(Unknown);
      case Refused => return Failure(Rejected);
      case Answer(e) =>
        if server.honest {
          ReportsAgree(server.w, e, known, intent);
        }
        if e.uploadId != known.uploadId || !SameUpload(e, known) || !MatchesIntent(e, intent) {
          return Failure(Mismatch);
        }
        return Success(e);
    }
  }

  /** `uploadBytes`: the bytes again as long as nothing says that they arrived, at most three times. */
  method UploadBytes(server: Server, e: Envelope, reserved: Envelope, intent: Intent)
    returns (r: Result<Envelope, Error>)
    requires Valid(server.w) && Trusts(server.honest, server.w, reserved, intent)
    requires SameUpload(e, reserved) && MatchesIntent(e, intent)
    modifies server`w, server`requests, server`told, server`puts, server`acted
    ensures Pursues(server, reserved, intent)
    ensures server.puts <= old(server.puts) + MAX_ATTEMPTS
    ensures r.Success? ==>
      && SameUpload(r.value, reserved) && MatchesIntent(r.value, intent)
      && Trusts(server.honest, server.w, r.value, intent)
    ensures r.Failure? ==> r.error == Unknown || r.error == Rejected || r.error == Mismatch
    ensures r.Failure? && server.honest ==> r.error != Mismatch
    ensures r == Failure(Unknown) ==>
      server.puts == old(server.puts) + 3 && server.told.losses >= old(server.told).losses + 3
    ensures r == Failure(Rejected) ==> server.told.refusals > old(server.told).refusals
    ensures r.Success? && server.told.losses == old(server.told).losses ==>
      server.puts == old(server.puts) + 1 && server.told == Saw(old(server.told), [r.value.state])
    ensures old(server.LosesNone()) && IsIn(old(server.w), reserved.uploadId, WaitingForUpload) ==>
      server.puts == old(server.puts) + 1
    ensures old(server.LosesOnce()) && IsIn(old(server.w), reserved.uploadId, WaitingForUpload) ==>
      && server.w == Filled(old(server.w), reserved.uploadId)
      && r.Success? && Exact(server.w, r.value)
  {
    hide Valid, Continues, Reports, Belongs, Filled, Exact, ActedOn, Trusts;
    OnceIsCalm(server);
    ContinuesSame(server.w);
    NothingActed(server.acted, reserved, intent);
    for attempt := 0 to MAX_ATTEMPTS
      invariant Pursues(server, reserved, intent)
      invariant server.puts == old(server.puts) + attempt
      invariant server.told.losses >= old(server.told).losses + attempt
      invariant attempt == 0 ==> server.told == old(server.told)
      invariant old(server.LosesOnce()) && IsIn(old(server.w), reserved.uploadId, WaitingForUpload) ==>
        attempt <= 1 && server.w == old(server.w)
    {
      OnceIsCalm(server);
      ghost var start, acted := server.w, server.acted;
      var again;
      again, r := PutOnce(server, e, reserved, intent);
      ContinuesOn(old(server.w), start, server.w);
      ActedFurther(old(server.acted), acted, server.acted, reserved, intent);
      if !again {
        return;
      }
    }
    return Failure(Unknown);
  }

  /** One attempt of `uploadBytes`: `again` when nothing says that the bytes have arrived. */
  method PutOnce(server: Server, e: Envelope, reserved: Envelope, intent: Intent)
    returns (again: bool, r: Result<Envelope, Error>)
    requires Valid(server.w) && Trusts(server.honest, server.w, reserved, intent)
    requires SameUpload(e, reserved) && MatchesIntent(e, intent)
    modifies server`w, server`requests, server`told, server`puts, server`acted
    ensures Pursues(server, reserved, intent) && server.puts == old(server.puts) + 1
    ensures again ==> server.told.losses > old(server.told).losses
    ensures !again && r.Success? ==>
      && SameUpload(r.value, reserved) && MatchesIntent(r.value, intent)
      && Trusts(server.honest, server.w, r.value, intent)
    ensures !again && r.Failure? ==> r.error == Rejected || r.error == Mismatch
    ensures !again && r.Failure? && server.honest ==> r.error != Mismatch
    ensures !again && r == Failure(Rejected) ==> server.told.refusals > old(server.told).refusals
    ensures !again && r.Success? ==>
      if server.told.losses == old(server.told).losses
      then server.told == Saw(old(server.told), [r.value.state]) else r.value.state != WaitingForUpload
    ensures old(server.LosesOnce()) && IsIn(old(server.w), reserved.uploadId, WaitingForUpload) ==>
      || (again && server.w == old(server.w))
      || (!again && server.w == Filled(old(server.w), reserved.uploadId)
          && r.Success? && Exact(server.w, r.value))
    ensures old(server.LosesNone()) && IsIn(old(server.w), reserved.uploadId, WaitingForUpload) ==> !again
  {
    hide Valid, Continues, Reports, Belongs, Filled, Exact;
    OnceIsCalm(server);
    ContinuesSame(server.w);
    ghost var start := server.w;
    again, r := false, Failure(Rejected);
    var reply := server.PutContent(e.uploadId, e);
    StillTrusts(server.honest, start, server.w, reserved, intent);
    FilledState(start, reserved.uploadId);
    if reply.Refused? {
      return;
    }
    ghost var middle := server.w;
    var refreshed := Refresh(server, reserved, intent);
    ContinuesOn(start, middle, server.w);
    if reply.Lost? || refreshed == Failure(Unknown) {
      // The look after a lost response; a lost look after an answered PUT is followed by another.
      if reply.Answer? {
        ghost var second := server.w;
        refreshed := Refresh(server, reserved, intent);
        ContinuesOn(start, second, server.w);
      }
      if refreshed.Success? && refreshed.value.state != WaitingForUpload {
        StillWaiting(server.w, refreshed.value);
        r := refreshed;
        return;
      }
      if refreshed.Failure? && refreshed.error != Unknown {
        r := refreshed;
        return;
      }
      again := true;
      if refreshed.Success? {
        FilledIsExact(start, refreshed.value);
      }
    } else {
      r := refreshed;
    }
  }

  /** Once the bytes have been taken, an exact envelope does not wait for them. */
  lemma FilledIsExact(w: World, e: Envelope)
    ensures IsIn(w, e.uploadId, WaitingForUpload) && Exact(Filled(w, e.uploadId), e) ==>
              e.state == Uploaded
  {}

  /** `completedResult` */
  method CompletedResult(server: Server, e: Envelope, intent: Intent)
    returns (r: Result<UploadResult, Error>)
    requires Valid(server.w) && Trusts(server.honest, server.w, e, intent)
    modifies server`w, server`requests, server`told
    ensures Pursues(server, e, intent)
    ensures r.Success? ==> Carries(r.value, e, intent)
    ensures r.Success? && server.honest ==> Names(server.w, r.value, e.uploadId, intent)
    ensures r.Failure? ==> r.error == Unknown || r.error == Rejected || r.error == Mismatch
    ensures r.Failure? && server.honest ==> r.error != Mismatch
    ensures r == Failure(Unknown) <==> server.told.losses > old(server.told).losses
    ensures r == Failure(Rejected) <==> server.told.refusals > old(server.told).refusals
    ensures server.Calm() && IsIn(old(server.w), e.uploadId, Completed) ==>
      server.w == old(server.w) && (r.Success? || r == Failure(Unknown))
  {
    hide Valid, Continues;
    OnceIsCalm(server);
    if e.uploadId in server.w.sessions {
      PublishedOf(server.w, e);
    }
    var reply := server.GetBlob(e.resourceId);
    StillTrusts(server.honest, old(server.w), server.w, e, intent);
    match reply {
      case Lost => return Failure(Unknown);
      case Refused => return Failure(Rejected);
      case Answer(node) =>
        if server.honest {
          PublishedOf(server.w, e);
        }
        r := BuildUploadResult(e, intent, e.operationId, node);
    }
  }

  /** On an honest server only one Blob has the resource id of a session. */
  lemma PublishedOf(w: World, e: Envelope)
    requires Valid(w) && e.uploadId in w.sessions
    ensures PublishedExactly(w, e.uploadId)
  {
  }

  lemma ExactState(w: World, e: Envelope)
    ensures Exact(w, e) ==> IsIn(w, e.uploadId, e.state)
  {}

  lemma FinishedState(w: World, u: nat)
    ensures IsIn(w, u, Uploaded) ==> IsIn(Finished(w, u), u, Completed)
  {}

  lemma CompletionNames(w: World, e: Envelope, intent: Intent)
    requires Reports(w, e) && Belongs(w, e.uploadId, intent)
    ensures
      var session := w.sessions[e.uploadId];
      var result := BuildUploadResult(e, intent, session.operationId, NodeOf(session));
      result.Success? && (IsPublished(w, e.uploadId) ==> Names(w, result.value, e.uploadId, intent))
  {}

  lemma BuiltCarries(e: Envelope, intent: Intent, operationId: nat, node: Node)
    ensures
      var result := BuildUploadResult(e, intent, operationId, node);
      && (result.Success? ==> Carries(result.value, e, intent))
      && (result.Failure? ==> result.error == Mismatch)
  {}

  /** `complete`: nothing is returned when the answer was lost and the session is still not completed. */
  method Complete(server: Server, e: Envelope, intent: Intent)
    returns (r: Result<Option<UploadResult>, Error>)
    requires Valid(server.w) && Trusts(server.honest, server.w, e, intent) && MatchesIntent(e, intent)
    modifies server`w, server`requests, server`told, server`completions, server`completed, server`acted
    ensures Pursues(server, e, intent)
    ensures server.completions == old(server.completions) + 1
    ensures r.Success? && r.value.Some? ==> Carries(r.value.value, e, intent)
    ensures r.Success? && r.value.Some? && server.honest ==>
      Names(server.w, r.value.value, e.uploadId, intent)
    ensures r.Failure? ==> r.error == Unknown || r.error == Rejected || r.error == Mismatch
    ensures r.Failure? && server.honest ==> r.error != Mismatch
    ensures r == Failure(Unknown) || r == Success(None) ==>
      server.told.losses > old(server.told).losses
    ensures r == Failure(Rejected) ==> server.told.refusals > old(server.told).refusals
    ensures old(server.LosesOnce()) && IsIn(old(server.w), e.uploadId, Uploaded) ==>
      && r.Success?
      && (r.value.None? ==> server.w == old(server.w) && server.LosesNone())
  {
    hide Valid, Continues, Server.LosesOnce, Server.LosesNone, Server.Calm;
    hide Names, Carries, BuildUploadResult, NodeOf, Reports, Belongs, IsPublished, Finished;
    OnceIsCalm(server);
    FinishedState(server.w, e.uploadId);
    var reply := server.PostCompletion(e.uploadId, e);
    StillTrusts(server.honest, old(server.w), server.w, e, intent);
    match reply {
      case Refused => return Failure(Rejected);
      case Answer(published) =>
        if server.honest {
          CompletionNames(server.w, e, intent);
        }
        BuiltCarries(e, intent, published.0, published.1);
        var result := BuildUploadResult(e, intent, published.0, published.1);
        return if result.Success? then Success(Some(result.value)) else Failure(result.error);
      case Lost =>
        ghost var middle := server.w;
        var refreshed := Refresh(server, e, intent);
        ContinuesOn(old(server.w), middle, server.w);
        if refreshed.Failure? {
          return Failure(refreshed.error);
        }
        ExactState(server.w, refreshed.value);
        if refreshed.value.state != Completed {
          return Success(None);
        }
        ghost var last := server.w;
        var result := CompletedResult(server, refreshed.value, intent);
        ContinuesOn(old(server.w), last, server.w);
        StillTrusts(server.honest, last, server.w, e, intent);
        if result.Success? {
          CarriedOver(result.value, e, refreshed.value, intent);
        }
        return if result.Success? then Success(Some(result.value)) else Failure(result.error);
    }
  }

  /** The state of the session that this intent has, or will have once it is reserved. */
  function StateOf(w: World, intent: Intent): UploadState {
    if intent.idempotencyKey in w.sessionByKey && w.sessionByKey[intent.idempotencyKey] in w.sessions
    then w.sessions[w.sessionByKey[intent.idempotencyKey]].state else WaitingForUpload
  }

  /** Three looks that found nothing to act on: the first two did not even find the bytes checked. */
  predicate ThreeLooks(before: Told, after: Told) {
    && |after.seen| == |before.seen| + 3 && before.seen <= after.seen
    && forall i | |before.seen| <= i < |after.seen| - 1 ::
         after.seen[i] == WaitingForUpload || after.seen[i] == Verifying
  }

  /**
   * `upload`. Whatever the server answers, it sends at most 3 reservations, 9 times the bytes and
   * 3 completions, bytes and completions go to the upload first reserved and only for envelopes
   * that state the intent, and a result carries the ids first reserved and what was intended. It
   * gives up without knowing only after a lost answer or three looks, and is rejected only by a
   * refusal. Against an honest server every completion goes to the one session of the idempotency
   * key, which publishes at most one Blob; a result names that Blob; no check ever fails; and a
   * terminal error means that there is no Blob and never will be one. Where nothing happens but one
   * loss, whichever request or answer it is, a new upload and one that still waits for its bytes or
   * its completion succeed; where nothing is lost, the state of the session says how it ends.
   */
  method Upload(server: Server, intent: Intent) returns (r: Result<UploadResult, Error>)
    requires Valid(server.w)
    modifies server
    ensures Valid(server.w) && Continues(old(server.w), server.w)
    ensures server.reservations <= old(server.reservations) + 3
    ensures server.puts <= old(server.puts) + 9
    ensures server.completions <= old(server.completions) + 3
    ensures (server.reserved == old(server.reserved) && server.acted == old(server.acted)
             && server.completed == old(server.completed) && r.Failure?)
            || exists first: Envelope ::
                 && server.reserved == old(server.reserved) + [first]
                 && server.completed <= old(server.completed) + {first.uploadId}
                 && ActedOn(old(server.acted), server.acted, first, intent)
                 && (r.Success? ==> Carries(r.value, first, intent))
    ensures server.honest ==>
              server.completed == old(server.completed)
              || (intent.idempotencyKey in server.w.sessionByKey
                  && server.completed <= old(server.completed)
                                         + {server.w.sessionByKey[intent.idempotencyKey]})
    ensures server.honest && r.Success? ==> Names(server.w, r.value, r.value.uploadId, intent)
    ensures server.honest && r.Failure? ==> r.error != Mismatch
    ensures server.honest && r.Failure? && r.error.Terminal? ==> NeverPublished(server.w, intent)
    ensures r == Failure(Unknown) ==>
      server.told.losses > old(server.told).losses || ThreeLooks(old(server.told), server.told)
    ensures r == Failure(Rejected) ==> server.told.refusals > old(server.told).refusals
    ensures old(server.LosesOnce()) && !Taken(old(server.w), intent)
            && StateOf(old(server.w), intent) in {WaitingForUpload, Uploaded} ==>
      r.Success?
    ensures old(server.LosesNone()) ==>
      if Taken(old(server.w), intent) then r == Failure(Rejected)
      else
        var first := StateOf(old(server.w), intent);
        && server.reservations == old(server.reservations) + 1
        && server.puts == old(server.puts) + (if first == WaitingForUpload then 1 else 0)
        && server.completions
           == old(server.completions) + (if first == WaitingForUpload || first == Uploaded then 1 else 0)
        && match first
           case WaitingForUpload => r.Success?
           case Uploaded => r.Success?
           case Completed => r.Success?
           case Verifying => r == Failure(Unknown)
           case _ => r == Failure(Terminal(first))
  {
    hide Valid, Continues, Reports, Names, NeverPublished, Carries, ActedOn, Belongs, Asked, Taken, StateOf;
    OnceIsCalm(server);
    var first := Reserve(server, intent);
    if first.Failure? {
      return Failure(first.error);
    }
    var reserved := first.value;
    NothingActed(server.acted, reserved, intent);
    if server.honest {
      ReportsAgree(server.w, reserved, reserved, intent);
      BelongsToKey(server.w, reserved.uploadId, intent);
    }
    if old(server.LosesOnce()) {
      ReservedState(old(server.w), server.w, reserved, intent);
    }
    if !MatchesIntent(reserved, intent) {
      return Failure(Mismatch);
    }
    ghost var before := server.w;
    r := Recover(server, reserved, intent);
    ContinuesOn(old(server.w), before, server.w);
    if server.honest {
      BelongsToKey(server.w, reserved.uploadId, intent);
    }
  }

  lemma ReservedState(before: World, w: World, e: Envelope, intent: Intent)
    requires Valid(before) && w == Asked(before, intent) && Belongs(w, e.uploadId, intent) && Exact(w, e)
    ensures e.state == StateOf(before, intent)
  {}

  /** The loop of `upload`: each of its three turns acts on the state that it last looked up. */
  method Recover(server: Server, reserved: Envelope, intent: Intent)
    returns (r: Result<UploadResult, Error>)
    requires Valid(server.w) && Trusts(server.honest, server.w, reserved, intent)
    requires MatchesIntent(reserved, intent)
    modifies server`w, server`requests, server`told
    modifies server`puts, server`completions, server`completed, server`acted
    ensures Pursues(server, reserved, intent)
    ensures server.puts <= old(server.puts) + 9
    ensures server.completions <= old(server.completions) + 3
    ensures r.Success? ==> Carries(r.value, reserved, intent)
    ensures server.honest && r.Success? ==> Names(server.w, r.value, r.value.uploadId, intent)
    ensures server.honest && r.Failure? ==> r.error != Mismatch
    ensures server.honest && r.Failure? && r.error.Terminal? ==> NeverPublished(server.w, intent)
    ensures r == Failure(Unknown) ==>
      server.told.losses > old(server.told).losses || ThreeLooks(old(server.told), server.told)
    ensures r == Failure(Rejected) ==> server.told.refusals > old(server.told).refusals
    ensures old(server.LosesOnce()) && Exact(old(server.w), reserved)
            && reserved.state in {WaitingForUpload, Uploaded} ==>
      r.Success?
    ensures old(server.LosesNone()) && Exact(old(server.w), reserved) ==>
      && server.puts == old(server.puts) + (if reserved.state == WaitingForUpload then 1 else 0)
      && server.completions
         == old(server.completions)
            + (if reserved.state == WaitingForUpload || reserved.state == Uploaded then 1 else 0)
      && match reserved.state
         case WaitingForUpload => r.Success?
         case Uploaded => r.Success?
         case Completed => r.Success?
         case Verifying => r == Failure(Unknown)
         case _ => r == Failure(Terminal(reserved.state))
  {
    hide Valid, Continues, Reports, Names, NeverPublished, Belongs, Carries, Exact, ActedOn, Trusts;
    hide Server.LosesOnce, Server.LosesNone, Server.Calm, MatchesIntent;
    ContinuesSame(server.w);
    NothingActed(server.acted, reserved, intent);
    var e := reserved;
    for attempt := 0 to MAX_ATTEMPTS
      invariant Pursues(server, reserved, intent)
      invariant SameUpload(e, reserved) && MatchesIntent(e, intent)
      invariant Trusts(server.honest, server.w, e, intent)
      invariant server.puts <= old(server.puts) + 3 * attempt
      invariant server.completions <= old(server.completions) + attempt
      invariant server.told.losses == old(server.told).losses ==>
        Looked(old(server.told), server.told, attempt, e.state)
      invariant old(server.LosesOnce()) && Exact(old(server.w), reserved)
                && (reserved.state == WaitingForUpload || reserved.state == Uploaded) ==>
        && Exact(server.w, e)
        && match (if reserved.state == WaitingForUpload then attempt else attempt + 1)
           case 0 => e.state == WaitingForUpload
           case 1 => e.state == Uploaded
           case 2 => e.state == Uploaded && server.LosesNone()
           case _ => false
      invariant old(server.LosesNone()) && Exact(old(server.w), reserved) ==>
        && Exact(server.w, e) && Turn(reserved.state, e.state, attempt)
        && server.puts == old(server.puts) + (if reserved.state == WaitingForUpload then attempt else 0)
        && server.completions == old(server.completions)
    {
      OnceIsCalm(server);
      ghost var start, acted := server.w, server.acted;
      var ended, next;
      ended, r, next := TakeTurn(server, e, reserved, intent);
      ContinuesOn(old(server.w), start, server.w);
      ActedFurther(old(server.acted), acted, server.acted, reserved, intent);
      if ended {
        return;
      }
      e := next;
    }
    return Failure(Unknown);
  }

  lemma ActedFurther(a: seq<Envelope>, b: seq<Envelope>, c: seq<Envelope>, reserved: Envelope,
                     intent: Intent)
    requires ActedOn(a, b, reserved, intent) && ActedOn(b, c, reserved, intent)
    ensures ActedOn(a, c, reserved, intent)
  {
    assert forall i | |a| <= i < |c| :: if i < |b| then c[i] == b[i] else i >= |b|;
  }

  /** One turn of the loop: `next` is what was looked up, unless the upload has ended. */
  method TakeTurn(server: Server, e: Envelope, reserved: Envelope, intent: Intent)
    returns (ended: bool, r: Result<UploadResult, Error>, next: Envelope)
    requires Valid(server.w) && Trusts(server.honest, server.w, reserved, intent)
    requires SameUpload(e, reserved) && MatchesIntent(e, intent)
    requires Trusts(server.honest, server.w, e, intent)
    modifies server`w, server`requests, server`told
    modifies server`puts, server`completions, server`completed, server`acted
    ensures Pursues(server, reserved, intent)
    ensures server.puts <= old(server.puts) + 3 && server.completions <= old(server.completions) + 1
    ensures ended && r.Success? ==> Carries(r.value, reserved, intent)
    ensures ended && server.honest && r.Success? ==> Names(server.w, r.value, r.value.uploadId, intent)
    ensures ended && server.honest && r.Failure? ==> r.error != Mismatch
    ensures ended && server.honest && r.Failure? && r.error.Terminal? ==> NeverPublished(server.w, intent)
    ensures ended && r == Failure(Unknown) ==> server.told.losses > old(server.told).losses
    ensures ended && r == Failure(Rejected) ==> server.told.refusals > old(server.told).refusals
    ensures !ended ==>
      && SameUpload(next, reserved) && MatchesIntent(next, intent)
      && Trusts(server.honest, server.w, next, intent)
    ensures !ended && server.told.losses == old(server.told).losses ==>
      && server.told == Saw(old(server.told), [next.state])
      && (e.state == WaitingForUpload || e.state == Verifying)
    ensures old(server.LosesOnce()) && Exact(old(server.w), e) ==>
      && (e.state == WaitingForUpload ==>
            !ended && Exact(server.w, next) && next.state == Uploaded)
      && (e.state == Uploaded ==>
            || (ended && r.Success?)
            || (!ended && Exact(server.w, next) && next.state == Uploaded && server.LosesNone()))
    ensures old(server.LosesNone()) && Exact(old(server.w), e) ==>
      && server.puts == old(server.puts) + (if e.state == WaitingForUpload then 1 else 0)
      && server.completions == old(server.completions) + (if e.state == Uploaded then 1 else 0)
      && match e.state
         case WaitingForUpload => !ended && Exact(server.w, next) && next.state == Uploaded
         case Verifying => !ended && Exact(server.w, next) && next.state == Verifying
         case Uploaded => ended && r.Success?
         case Completed => ended && r.Success?
         case _ => ended && r == Failure(Terminal(e.state))
  {
    hide Valid, Continues, Reports, Names, NeverPublished, Belongs, Filled, Finished, Carries;
    hide Server.LosesOnce, Server.LosesNone, Server.Calm, MatchesIntent, Trusts, ActedOn, IsPublished;
    ContinuesSame(server.w);
    OnceIsCalm(server);
    NothingActed(server.acted, reserved, intent);
    ExactState(server.w, e);
    ghost var start := server.w;
    ended, next := true, e;
    var refreshed: Result<Envelope, Error>;
    match e.state {
      case WaitingForUpload =>
        FilledState(start, e.uploadId);
        refreshed := UploadBytes(server, e, reserved, intent);
      case Verifying =>
        refreshed := Refresh(server, reserved, intent);
      case Uploaded =>
        var completed := Complete(server, e, intent);
        ActedAlike(old(server.acted), server.acted, e, reserved, intent);
        StillTrusts(server.honest, start, server.w, reserved, intent);
        if completed.Failure? {
          r := Failure(completed.error);
          return;
        }
        if completed.value.Some? {
          CarriedOver(completed.value.value, reserved, e, intent);
          NamesUpload(server.w, completed.value.value, e.uploadId, intent);
          r := Success(completed.value.value);
          return;
        }
        ghost var middle, acted := server.w, server.acted;
        OnceIsCalm(server);
        refreshed := Refresh(server, reserved, intent);
        ContinuesOn(start, middle, server.w);
        ActedFurther(old(server.acted), acted, server.acted, reserved, intent);
      case Completed =>
        r := CompletedResult(server, e, intent);
        ActedAlike(old(server.acted), server.acted, e, reserved, intent);
        StillTrusts(server.honest, start, server.w, reserved, intent);
        if r.Success? {
          CarriedOver(r.value, reserved, e, intent);
          NamesUpload(server.w, r.value, e.uploadId, intent);
        }
        return;
      case _ =>
        TrustedTerminal(server.honest, server.w, e, intent);
        r := Failure(Terminal(e.state));
        return;
    }
    if refreshed.Failure? {
      r := Failure(refreshed.error);
    } else {
      ended, next, r := false, refreshed.value, Failure(Unknown);
    }
  }

  lemma ActedAlike(before: seq<Envelope>, after: seq<Envelope>, e: Envelope, reserved: Envelope,
                   intent: Intent)
    requires ActedOn(before, after, e, intent) && SameUpload(e, reserved)
    ensures ActedOn(before, after, reserved, intent)
  {}

  lemma TrustedTerminal(honest: bool, w: World, e: Envelope, intent: Intent)
    requires Valid(w) && Trusts(honest, w, e, intent) && Final(e.state) && e.state != Completed
    ensures honest ==> NeverPublished(w, intent)
  {
    hide Valid, NeverPublished;
    if honest {
      TerminalPublishesNothing(w, e, intent);
    }
  }

  lemma NamesUpload(w: World, r: UploadResult, u: nat, intent: Intent)
    ensures Names(w, r, u, intent) ==> Names(w, r, r.uploadId, intent)
  {}

  /** Without a loss each turn was one look, and the states that were acted on were not final. */
  predicate Looked(before: Told, after: Told, turns: nat, state: UploadState) {
    && |after.seen| == |before.seen| + turns && before.seen <= after.seen
    && (turns > 0 ==> after.seen[|after.seen| - 1] == state)
    && forall i | |before.seen| <= i < |after.seen| - 1 ::
         after.seen[i] == WaitingForUpload || after.seen[i] == Verifying
  }

  /** Which state an undisturbed upload is in at each turn. */
  predicate Turn(first: UploadState, now: UploadState, turns: nat) {
    match first
    case WaitingForUpload => turns <= 1 && now == if turns == 0 then WaitingForUpload else Uploaded
    case Verifying => now == Verifying
    case _ => turns == 0 && now == first
  }

  lemma StillWaiting(w: World, e: Envelope)
    ensures Exact(w, e) && IsIn(w, e.uploadId, WaitingForUpload) ==> e.state == WaitingForUpload
  {}

  lemma FilledState(w: World, u: nat)
    ensures u in w.sessions && w.sessions[u].state == WaitingForUpload ==>
              u in Filled(w, u).sessions && Filled(w, u).sessions[u].state == Uploaded
  {}

  lemma CarriedOver(r: UploadResult, reserved: Envelope, e: Envelope, intent: Intent)
    requires SameUpload(e, reserved) && Carries(r, e, intent)
    ensures Carries(r, reserved, intent) && r.uploadId == e.uploadId
  {}

  lemma NothingActed(acted: seq<Envelope>, reserved: Envelope, intent: Intent)
    ensures ActedOn(acted, acted, reserved, intent)
  {}

  lemma BelongsToKey(w: World, u: nat, intent: Intent)
    requires Belongs(w, u, intent)
    ensures intent.idempotencyKey in w.sessionByKey && w.sessionByKey[intent.idempotencyKey] == u
  {}

  /** Two results for one idempotency key, however far apart, name the same Blob. */
  lemma OneBlobPerKey(a: World, b: World, r: UploadResult, s: UploadResult, intent: Intent)
    requires Continues(a, b)
    requires Names(a, r, r.uploadId, intent) && Names(b, s, s.uploadId, intent)
    ensures r == s
  {
    StillBelongs(a, b, r.uploadId, intent);
  }

  /** How often a Resource was published. */
  function Publications(published: seq<Node>, resourceId: nat): nat {
    if published == [] then 0
    else (if published[0].resourceId == resourceId then 1 else 0)
         + Publications(published[1..], resourceId)
  }

  lemma {:induction false} NotPublished(published: seq<Node>, resourceId: nat)
    requires forall n | n in published :: n.resourceId != resourceId
    ensures Publications(published, resourceId) == 0
  {
    if published != [] {
      NotPublished(published[1..], resourceId);
    }
  }

  lemma {:induction false} PublishedAtMostOnce(published: seq<Node>, node: Node)
    requires DistinctResources(published) && node in published
    ensures Publications(published, node.resourceId) == 1
  {
    if published[0] == node {
      forall n | n in published[1..] ensures n.resourceId != node.resourceId {
        var i :| 0 <= i < |published[1..]| && published[1..][i] == n;
        assert published[0].resourceId != published[i + 1].resourceId;
      }
      NotPublished(published[1..], node.resourceId);
    } else {
      var i :| 0 <= i < |published| && published[i] == node;
      assert published[1..][i - 1] == node;
      PublishedAtMostOnce(published[1..], node);
    }
  }

  /** Whatever was lost or repeated, a session publishes one Blob when completed and else none. */
  lemma PublishedOnce(w: World, u: nat)
    requires Valid(w) && u in w.sessions
    ensures Publications(w.published, w.sessions[u].resourceId)
            == if w.sessions[u].state == Completed then 1 else 0
  {
    assert PublishedExactly(w, u);
    if w.sessions[u].state == Completed {
      PublishedAtMostOnce(w.published, NodeOf(w.sessions[u]));
    } else {
      NotPublished(w.published, w.sessions[u].resourceId);
    }
  }
}
