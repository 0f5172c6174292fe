/**
 * Replacing the content of a Blob: one conditional write, and one look at its operation when the
 * response is lost (blob.ts).
 */
module BlobReplace {
  import opened Wrappers

  datatype Intent = Intent(resourceId: string, etag: string, idempotencyKey: string)

  datatype OperationState = Pending | Completed | Failed

  /**
   * A stored operation; other kinds of operations share the table of keys. `expected` is the ETag
   * that the request named, `etag` the one that the write left.
   */
  datatype Operation = Operation(
    isReplacement: bool,
    resourceId: string,
    expected: string,
    state: OperationState,
    etag: string)

  datatype Write = Write(key: string, resourceId: string, etag: string)

  datatype ReplacementResult =
    ReplacementResult(operationId: string, resourceId: string, etag: string)

  datatype Error = InvalidArgument | Refused | Unknown | Mismatch | InvalidResponse | OperationFailed

  datatype Reply<+T> = Answer(value: T) | Rejected | Lost

  /** `/^"[^"\\r\\n]+"$/` and at most 200 characters. */
  predicate IsStrongEtag(s: string) {
    3 <= |s| <= 200 && s[0] == '"' && s[|s| - 1] == '"'
    && forall i | 1 <= i < |s| - 1 :: s[i] != '"' && s[i] != '\r' && s[i] != '\n'
  }

  /** Quotes around something without quotes and line ends, 200 characters in all at most. */
  lemma StrongEtagInFull(s: string)
    ensures IsStrongEtag(s)
            <==> |s| <= 200 && exists inner: string :: Quotes(s, inner)
  {
    if IsStrongEtag(s) {
      var inner := s[1..|s| - 1];
      assert s == "\"" + inner + "\"";
      assert forall i | 0 <= i < |inner| :: inner[i] == s[i + 1];
      assert Quotes(s, inner);
    }
    if |s| <= 200 && exists inner: string :: Quotes(s, inner) {
      var inner: string :| Quotes(s, inner);
      assert forall i | 1 <= i < |s| - 1 :: s[i] == inner[i - 1];
    }
  }

  predicate Quotes(s: string, inner: string) {
    s == "\"" + inner + "\"" && inner != "" && '"' !in inner && '\r' !in inner && '\n' !in inner
  }

  // ---------- The server ----------

  /** `first` has the ETags that Blobs were published with; `writes` is all that came after. */
  datatype World = World(
    operations: map<string, Operation>,
    first: map<string, string>,
    writes: seq<Write>)

  /** The ETag of the present content: that of the last write, or else the first one. */
  function CurrentEtag(first: map<string, string>, writes: seq<Write>, resourceId: string)
    : Option<string>
    decreases |writes|
  {
    if writes == [] then
      if resourceId in first then Some(first[resourceId]) else None
    else if writes[|writes| - 1].resourceId == resourceId then Some(writes[|writes| - 1].etag)
    else CurrentEtag(first, writes[..|writes| - 1], resourceId)
  }

  predicate NeverWrote(w: World, key: string) {
    forall i | 0 <= i < |w.writes| :: w.writes[i].key != key
  }

  /**
   * The write `i` is the only one of this key. It left `etag` on the resource, over the content
   * that carried the ETag `replaced`.
   */
  predicate OnlyWrite(w: World, key: string, resourceId: string, replaced: string, etag: string,
                      i: int) {
    && 0 <= i < |w.writes| && w.writes[i] == Write(key, resourceId, etag)
    && CurrentEtag(w.first, w.writes[..i], resourceId) == Some(replaced)
    && forall j | 0 <= j < |w.writes| && j != i :: w.writes[j].key != key
  }

  ghost predicate WroteOnce(w: World, key: string, resourceId: string, replaced: string, etag: string) {
    exists i :: OnlyWrite(w, key, resourceId, replaced, etag, i)
  }

  /**
   * A completed replacement wrote once, over the content that its request expected, what its
   * record says; any other operation wrote nothing.
   */
  ghost predicate Valid(w: World) {
    && (forall k :: k !in w.operations ==> NeverWrote(w, k))
    && (forall k | k in w.operations :: Recorded(w, k))
  }

  ghost predicate Recorded(w: World, key: string)
    requires key in w.operations
  {
    var op := w.operations[key];
    if op.isReplacement && op.state == Completed then
      IsStrongEtag(op.etag) && WroteOnce(w, key, op.resourceId, op.expected, op.etag)
    else NeverWrote(w, key)
  }

  ghost predicate Continues(a: World, b: World) {
    && a.writes <= b.writes && a.first == b.first
    && forall k | k in a.operations ::
         && k in b.operations
         && a.operations[k].isReplacement == b.operations[k].isReplacement
         && a.operations[k].resourceId == b.operations[k].resourceId
         && a.operations[k].expected == b.operations[k].expected
         && (a.operations[k].state != Pending ==> b.operations[k] == a.operations[k])
  }

  lemma ContinuesOn(a: World, b: World, c: World)
    requires Continues(a, b) && Continues(b, c)
    ensures Continues(a, c)
  {}

  lemma ContinuesSame(w: World)
    ensures Continues(w, w)
  {}

  function Registered(w: World, key: string, op: Operation): World {
    w.(operations := w.operations[key := op])
  }

  /** A new operation, or a pending one that fails: nothing is written. */
  lemma RegisteredIsValid(w: World, key: string, op: Operation)
    requires Valid(w)
    requires !(op.isReplacement && op.state == Completed)
    requires key in w.operations ==>
      && w.operations[key].state == Pending && op.resourceId == w.operations[key].resourceId
      && op.isReplacement == w.operations[key].isReplacement && op.expected == w.operations[key].expected
    ensures Valid(Registered(w, key, op)) && Continues(w, Registered(w, key, op))
  {
    hide NeverWrote, WroteOnce;
    var t := Registered(w, key, op);
    SameWrites(w, t);
    forall k | k in t.operations ensures Recorded(t, k) {
      assert k in w.operations ==> Recorded(w, k);
    }
  }

  lemma SameWrites(w: World, t: World)
    requires w.writes == t.writes && w.first == t.first
    ensures forall k :: NeverWrote(w, k) <==> NeverWrote(t, k)
    ensures forall k, r, e, f :: WroteOnce(w, k, r, e, f) ==> WroteOnce(t, k, r, e, f)
  {
    forall k, r, e, f | WroteOnce(w, k, r, e, f) ensures WroteOnce(t, k, r, e, f) {
      var i :| OnlyWrite(w, k, r, e, f, i);
      assert OnlyWrite(t, k, r, e, f, i);
    }
  }

  /** A pending replacement is carried out: its write comes after all others. */
  function Written(w: World, key: string, etag: string): World
    requires key in w.operations
  {
    var op := w.operations[key];
    World(w.operations[key := op.(state := Completed, etag := etag)], w.first,
          w.writes + [Write(key, op.resourceId, etag)])
  }

  /** The present content carries the ETag that the request of this operation named. */
  predicate Expected(w: World, key: string)
    requires key in w.operations
  {
    var op := w.operations[key];
    CurrentEtag(w.first, w.writes, op.resourceId) == Some(op.expected)
  }

  lemma WrittenIsValid(w: World, key: string, etag: string)
    requires Valid(w) && key in w.operations && IsStrongEtag(etag)
    requires w.operations[key].isReplacement && w.operations[key].state == Pending && Expected(w, key)
    ensures Valid(Written(w, key, etag)) && Continues(w, Written(w, key, etag))
  {
    hide IsStrongEtag, Expected;
    var t := Written(w, key, etag);
    assert Recorded(w, key);
    forall k | k in t.operations ensures Recorded(t, k) {
      assert Recorded(w, k);
      RecordedThen(w, key, etag, k);
    }
  }

  lemma RecordedThen(w: World, key: string, etag: string, k: string)
    requires key in w.operations && k in w.operations && Recorded(w, k) && IsStrongEtag(etag)
    requires w.operations[key].isReplacement && Expected(w, key) && (k == key ==> NeverWrote(w, key))
    ensures Recorded(Written(w, key, etag), k)
  {
    hide IsStrongEtag, CurrentEtag;
    var t, op := Written(w, key, etag), w.operations[k];
    if k == key {
      assert t.writes[..|w.writes|] == w.writes;
      assert OnlyWrite(t, key, op.resourceId, op.expected, etag, |w.writes|);
    } else if op.isReplacement && op.state == Completed {
      var i :| OnlyWrite(w, k, op.resourceId, op.expected, op.etag, i);
      assert t.writes[..i] == w.writes[..i];
      assert OnlyWrite(t, k, op.resourceId, op.expected, op.etag, i);
    }
  }

  /** The operation of this key, if there is one, is that of this request. */
  predicate BoundTo(w: World, intent: Intent) {
    intent.idempotencyKey in w.operations ==>
      && w.operations[intent.idempotencyKey].isReplacement
      && w.operations[intent.idempotencyKey].resourceId == intent.resourceId
      && w.operations[intent.idempotencyKey].expected == intent.etag
  }

  /** What others do: a new operation, or the end of a pending one. */
  datatype Move = Register(key: string, op: Operation) | End(key: string, etag: string)

  /**
   * All that the environment decides about one request: what others do before and behind it, what
   * is lost or refused, and the ETag that a write would leave.
   */
  datatype Fate = Fate(before: seq<Move>, requestLost: bool, refused: bool, etag: string,
                       behind: seq<Move>, responseLost: bool)

  /** The request arrives, nothing else happens, and a write would leave a strong ETag. */
  predicate Arrives(fate: Fate) {
    fate.before == [] && fate.behind == [] && !fate.requestLost && !fate.refused && IsStrongEtag(fate.etag)
  }

  /** The world behind a request with a new key: written over the content it names, or failed. */
  function Carried(w: World, intent: Intent, etag: string): World {
    var key := intent.idempotencyKey;
    var begun := Registered(w, key, Operation(true, intent.resourceId, intent.etag, Pending, ""));
    if CurrentEtag(w.first, w.writes, intent.resourceId) == Some(intent.etag) then Written(begun, key, etag)
    else Registered(begun, key, begun.operations[key].(state := Failed))
  }

  /** `own`: the keys that no other client uses. */
  class Server {
    const own: set<string>
    var w: World
    ghost var puts: nat
    ghost var looks: nat

    constructor (own: set<string>, w: World)
      requires Valid(w)
      ensures this.own == own && this.w == w && Valid(this.w) && puts == looks == 0
    {
      hide Valid;
      this.own, this.w, puts, looks := own, w, 0, 0;
    }

    /** Other clients and the server itself; moves that are not possible are passed over. */
    method Interfere(moves: seq<Move>)
      requires Valid(w)
      modifies this`w
      ensures Valid(w) && Continues(old(w), w)
      ensures forall k | k in own && k in w.operations :: k in old(w).operations
      ensures moves == [] ==> w == old(w)
    {
      hide Valid, Continues, Expected;
      ContinuesSame(w);
      for i := 0 to |moves|
        invariant Valid(w) && Continues(old(w), w)
        invariant forall k | k in own && k in w.operations :: k in old(w).operations
        invariant i == 0 ==> w == old(w)
      {
        var key := moves[i].key;
        ghost var before := w;
        match moves[i] {
          case Register(_, op) =>
            if key !in w.operations && key !in own && !(op.isReplacement && op.state == Completed) {
              RegisteredIsValid(w, key, op);
              w := Registered(w, key, op);
              ContinuesOn(old(w), before, w);
            }
          case End(_, etag) =>
            if key in w.operations && w.operations[key].state == Pending {
              if w.operations[key].isReplacement && IsStrongEtag(etag) && Expected(w, key) {
                WrittenIsValid(w, key, etag);
                w := Written(w, key, etag);
              } else {
                RegisteredIsValid(w, key, w.operations[key].(state := Failed));
                w := Registered(w, key, w.operations[key].(state := Failed));
              }
              ContinuesOn(old(w), before, w);
            }
        }
      }
    }

    /** A key is bound to the first request that used it. */
    method Begin(intent: Intent) returns (bound: bool)
      requires Valid(w)
      modifies this`w
      ensures Valid(w) && Continues(old(w), w) && intent.idempotencyKey in w.operations
      ensures bound == BoundTo(w, intent) && (BoundTo(old(w), intent) ==> bound)
      ensures intent.idempotencyKey !in old(w).operations ==>
                && bound
                && w == Registered(old(w), intent.idempotencyKey,
                                   Operation(true, intent.resourceId, intent.etag, Pending, ""))
    {
      ContinuesSame(w);
      var key := intent.idempotencyKey;
      if key !in w.operations {
        var op := Operation(true, intent.resourceId, intent.etag, Pending, "");
        RegisteredIsValid(w, key, op);
        w := Registered(w, key, op);
      }
      bound := BoundTo(w, intent);
    }

    /** The write is made only over the content whose ETag the client names. */
    method Settle(intent: Intent, etag: string)
      requires Valid(w) && intent.idempotencyKey in w.operations && BoundTo(w, intent)
      modifies this`w
      ensures Valid(w) && Continues(old(w), w)
      ensures
        var key, op := intent.idempotencyKey, old(w).operations[intent.idempotencyKey];
        w == if op.state != Pending || !IsStrongEtag(etag) then old(w)
             else if Expected(old(w), key) then Written(old(w), key, etag)
             else Registered(old(w), key, op.(state := Failed))
    {
      ContinuesSame(w);
      hide Valid, Continues, Expected;
      var key := intent.idempotencyKey;
      var op := w.operations[key];
      if op.state == Pending && IsStrongEtag(etag) {
        if Expected(w, key) {
          WrittenIsValid(w, key, etag);
          w := Written(w, key, etag);
        } else {
          RegisteredIsValid(w, key, op.(state := Failed));
          w := Registered(w, key, op.(state := Failed));
        }
      }
    }

    /** `PUT /api/blob-resources/<id>/content` with `If-Match` and an idempotency key. */
    method PutContent(intent: Intent, fate: Fate) returns (reply: Reply<ReplacementResult>)
      requires Valid(w)
      modifies this`w, this`puts
      ensures Valid(w) && Continues(old(w), w) && puts == old(puts) + 1
      ensures intent.idempotencyKey in own && BoundTo(old(w), intent) ==> BoundTo(w, intent)
      ensures reply.Answer? ==>
        && intent.idempotencyKey in w.operations && BoundTo(w, intent)
        && var op := w.operations[intent.idempotencyKey];
           && op.isReplacement && op.state == Completed
           && reply.value == ReplacementResult(intent.idempotencyKey, op.resourceId, op.etag)
      ensures fate.before == [] && fate.requestLost ==> reply == Lost && w == old(w)
      ensures reply == Lost ==> fate.requestLost || fate.responseLost
      ensures Arrives(fate) && intent.idempotencyKey !in old(w).operations ==>
        && w == Carried(old(w), intent, fate.etag)
        && reply == if fate.responseLost then Lost
                    else if CurrentEtag(old(w).first, old(w).writes, intent.resourceId) == Some(intent.etag)
                    then Answer(ReplacementResult(intent.idempotencyKey, intent.resourceId, fate.etag))
                    else Rejected
    {
      hide Valid, Continues, BoundTo;
      puts := puts + 1;
      Interfere(fate.before);
      StillBound(old(w), w, intent);
      if fate.requestLost {
        return Lost;
      }
      if fate.refused {
        return Rejected;
      }
      ghost var a := w;
      var bound := Begin(intent);
      ContinuesOn(old(w), a, w);
      if !bound {
        return Rejected;
      }
      ghost var b := w;
      Settle(intent, fate.etag);
      ContinuesOn(old(w), b, w);
      StillBound(b, w, intent);
      OperationStays(b, w, intent.idempotencyKey);
      ghost var c := w;
      var op := w.operations[intent.idempotencyKey];
      Interfere(fate.behind);
      ContinuesOn(old(w), c, w);
      StillBound(c, w, intent);
      OperationStays(c, w, intent.idempotencyKey);
      if fate.responseLost {
        return Lost;
      }
      if !op.isReplacement || op.state != Completed {
        return Rejected;
      }
      return Answer(ReplacementResult(intent.idempotencyKey, op.resourceId, op.etag));
    }

    /** `GET /api/operations/<id>` */
    method GetOperation(key: string, fate: Fate) returns (reply: Reply<Operation>)
      requires Valid(w)
      modifies this`w, this`looks
      ensures Valid(w) && Continues(old(w), w) && looks == old(looks) + 1
      ensures forall k | k in own && k in w.operations :: k in old(w).operations
      ensures reply.Answer? ==>
        && key in w.operations && w.operations[key].isReplacement == reply.value.isReplacement
        && (reply.value.state != Pending ==> w.operations[key] == reply.value)
      ensures fate == PROMPT && key in old(w).operations ==>
        w == old(w) && reply == Answer(w.operations[key])
    {
      hide Valid, Continues;
      looks := looks + 1;
      Interfere(fate.before);
      if fate.refused || key !in w.operations {
        return Rejected;
      }
      ghost var seen := w;
      var op := w.operations[key];
      Interfere(fate.behind);
      ContinuesOn(old(w), seen, w);
      OperationStays(seen, w, key);
      return if fate.requestLost || fate.responseLost then Lost else Answer(op);
    }
  }

  /** A request that nothing happens to, and one that never arrives. */
  const PROMPT := Fate([], false, false, "", [], false)
  const LOST := Fate([], true, false, "", [], false)

  lemma OperationStays(a: World, b: World, key: string)
    requires Continues(a, b) && key in a.operations
    ensures key in b.operations
    ensures a.operations[key].isReplacement == b.operations[key].isReplacement
    ensures a.operations[key].state != Pending ==> b.operations[key] == a.operations[key]
  {}

  /** A bound key stays bound, and one that only this client uses is not taken by another. */
  lemma StillBound(a: World, b: World, intent: Intent)
    requires Continues(a, b)
    ensures BoundTo(a, intent)
            && (intent.idempotencyKey in a.operations || intent.idempotencyKey !in b.operations)
            ==> BoundTo(b, intent)
  {}

  // ---------- The client ----------

  /** `parseReplacementResult` */
  function ParseReplacementResult(value: ReplacementResult, intent: Intent)
    : (r: Result<ReplacementResult, Error>)
    ensures r.Success? ==>
      r.value == value && value.operationId == intent.idempotencyKey
      && value.resourceId == intent.resourceId && IsStrongEtag(value.etag)
  {
    if !IsStrongEtag(value.etag) then Failure(InvalidResponse)
    else if value.operationId != intent.idempotencyKey || value.resourceId != intent.resourceId then
      Failure(Mismatch)
    else Success(value)
  }

  /** A key's one write replaced one content. */
  lemma OneIsReplaced(w: World, key: string, resourceId: string, etag: string)
    ensures forall a, b | WroteOnce(w, key, resourceId, a, etag) && WroteOnce(w, key, resourceId, b, etag) ::
              a == b
  {}

  /**
   * `replace`. The write is sent at most once and the operation is inspected at most once. Success
   * means that the operation of this key wrote exactly once, on this resource, over the content
   * that its request expected, and left the returned ETag. This is the content that the caller
   * meant exactly when the request named the caller's ETag: always when the PUT was answered, and
   * after a lost response when the key has not served for another request. A failed operation
   * wrote nothing and never will. A request with a new key that arrives succeeds exactly when the
   * present content carries the ETag that it names, also where the response is lost.
   */
  method Replace(server: Server, intent: Intent, put: Fate, look: Fate)
    returns (r: Result<ReplacementResult, Error>)
    requires Valid(server.w)
    modifies server
    ensures Valid(server.w) && Continues(old(server.w), server.w)
    ensures server.puts <= old(server.puts) + 1 && server.looks <= old(server.looks) + 1
    ensures r == Failure(InvalidArgument) <==> !IsStrongEtag(intent.etag)
    ensures r == Failure(InvalidArgument) ==> server.w == old(server.w) && server.puts == old(server.puts)
    ensures r.Success? ==>
      && r.value.operationId == intent.idempotencyKey && r.value.resourceId == intent.resourceId
      && intent.idempotencyKey in server.w.operations
      && WroteOnce(server.w, intent.idempotencyKey, intent.resourceId,
                   server.w.operations[intent.idempotencyKey].expected, r.value.etag)
      && (WroteOnce(server.w, intent.idempotencyKey, intent.resourceId, intent.etag, r.value.etag)
          <==> server.w.operations[intent.idempotencyKey].expected == intent.etag)
    ensures r.Success? && (server.looks == old(server.looks)
                           || (intent.idempotencyKey in server.own && BoundTo(old(server.w), intent))) ==>
      WroteOnce(server.w, intent.idempotencyKey, intent.resourceId, intent.etag, r.value.etag)
    ensures r == Failure(OperationFailed) ==>
      && NeverWrote(server.w, intent.idempotencyKey)
      && intent.idempotencyKey in server.w.operations
      && server.w.operations[intent.idempotencyKey].state == Failed
    ensures r != Failure(InvalidResponse)
    ensures r == Failure(Unknown) ==> put.requestLost || put.responseLost
    ensures IsStrongEtag(intent.etag) && Arrives(put) && (put.responseLost ==> look == PROMPT)
            && intent.idempotencyKey !in old(server.w).operations ==>
      && server.w == Carried(old(server.w), intent, put.etag)
      && r == if CurrentEtag(old(server.w).first, old(server.w).writes, intent.resourceId) == Some(intent.etag)
              then Success(ReplacementResult(intent.idempotencyKey, intent.resourceId, put.etag))
              else Failure(if put.responseLost then OperationFailed else Refused)
    ensures IsStrongEtag(intent.etag) && put == LOST && look == PROMPT
            && intent.idempotencyKey in old(server.w).operations
            && old(server.w).operations[intent.idempotencyKey].isReplacement
            && old(server.w).operations[intent.idempotencyKey].state == Completed ==>
      var op := old(server.w).operations[intent.idempotencyKey];
      && server.w == old(server.w)
      && r == ParseReplacementResult(
                ReplacementResult(intent.idempotencyKey, op.resourceId, op.etag), intent)
  {
    ContinuesSame(server.w);
    if !IsStrongEtag(intent.etag) {
      return Failure(InvalidArgument);
    }
    hide Continues, NeverWrote, WroteOnce;
    var key := intent.idempotencyKey;
    var reply := server.PutContent(intent, put);
    if reply.Answer? {
      assert Recorded(server.w, key);
      r := ParseReplacementResult(reply.value, intent);
      OneIsReplaced(server.w, key, intent.resourceId, reply.value.etag);
      return;
    }
    if reply.Rejected? {
      return Failure(Refused);
    }
    ghost var middle := server.w;
    var answer := server.GetOperation(key, look);
    ContinuesOn(old(server.w), middle, server.w);
    if !answer.Answer? {
      return Failure(Unknown);
    }
    if !answer.value.isReplacement {
      return Failure(Mismatch);
    }
    assert Recorded(server.w, key);
    match answer.value.state {
      case Completed =>
        r := ParseReplacementResult(
          ReplacementResult(key, answer.value.resourceId, answer.value.etag), intent);
        OneIsReplaced(server.w, key, intent.resourceId, answer.value.etag);
      case Failed => return Failure(OperationFailed);
      case Pending => return Failure(Unknown);
    }
  }

  /** The Blob `blob` after the operation `key` replaced its first content. */
  const OTHER := World(map["key" := Operation(true, "blob", "\"1\"", Completed, "\"2\"")],
                       map["blob" := "\"1\""], [Write("key", "blob", "\"2\"")])

  lemma OtherIsValid()
    ensures Valid(OTHER) && WroteOnce(OTHER, "key", "blob", "\"1\"", "\"2\"")
    ensures !WroteOnce(OTHER, "key", "blob", "\"0\"", "\"2\"")
  {
    assert OTHER.writes[..0] == [];
    assert OnlyWrite(OTHER, "key", "blob", "\"1\"", "\"2\"", 0);
    OneIsReplaced(OTHER, "key", "blob", "\"2\"");
    assert "\"0\""[1] != "\"1\""[1];
  }

  /**
   * A run whose PUT is lost and whose look finds the operation of another request: `replace`
   * succeeds, and the content with the ETag `"0"` that the caller names was never replaced.
   */
  method AcceptOtherRequest() returns (r: Result<ReplacementResult, Error>, server: Server)
    ensures r == Success(ReplacementResult("key", "blob", "\"2\"")) && server.w == OTHER
    ensures Valid(server.w) && WroteOnce(server.w, "key", "blob", "\"1\"", "\"2\"")
    ensures !WroteOnce(server.w, "key", "blob", "\"0\"", "\"2\"")
  {
    OtherIsValid();
    hide Valid, WroteOnce, NeverWrote, Continues;
    server := new Server({}, OTHER);
    r := Replace(server, Intent("blob", "\"0\"", "key"), LOST, PROMPT);
  }
}
