/**
 * Pending authorizations of the Agent (oauth-authorization.ts, desktop-oauth.ts and the logout
 * route of index.ts): every interleaving of starts, callbacks, desktop completions, settings
 * changes, switches and logouts. One step is one atomic segment between two awaits.
 */
module OAuth {
  import opened Wrappers

  const LIMIT := 32
  const TTL := 600_000

  /** What an authorization began with; authorization states are drawn fresh and numbered here. */
  datatype Start = Start(origin: string, version: nat, era: nat, desktop: bool, expiresAt: nat)

  datatype Entry = Entry(origin: string, version: nat, expiresAt: nat, desktop: bool, completing: bool)

  datatype Receipt = Receipt(state: nat, expiresAt: nat, version: nat)

  /** Fetching the token, inside `connect`, or over. */
  datatype Phase = Fetching | Connecting | Over

  /** `since`: when the code was handed in. */
  datatype Exchange = Exchange(state: nat, entry: Entry, phase: Phase, since: nat)

  /** A call of `connect` and what was current when it was made. */
  datatype Connect = Connect(state: nat, origin: string, loginOrigin: string, version: nat, era: nat,
                             since: nat)

  /** `era` counts desktop starts and logouts, which end all earlier desktop authorizations. */
  datatype World = World(
    now: nat,
    loginOrigin: string,
    version: nat,
    era: nat,
    starts: seq<Start>,
    pending: map<nat, Entry>,
    completed: seq<Receipt>,
    exchanges: seq<Exchange>,
    connects: seq<Connect>)

  datatype Code = NoCode | Code | TooLong

  datatype Step =
    | Tick(later: nat)
    | Settings(origin: string)
    | Switched
    | Logout
    | Begin(desktop: bool)
    | Callback(state: nat, denied: bool, code: Code)
    | Complete(state: nat)
    | Fetched(id: nat, token: bool)
    | Connected(id: nat, succeeded: bool)

  // ---------- Segments ----------

  predicate Expired(entry: Entry, now: nat) {
    entry.expiresAt <= now
  }

  /** The loop at the head of `beginOAuth`. */
  function Pruned(w: World, desktop: bool): map<nat, Entry> {
    w.pending - set state | state in w.pending
                            && (Expired(w.pending[state], w.now) || (desktop && w.pending[state].desktop))
  }

  /** A start that finds too many pending authorizations throws after it has pruned. */
  function Began(w: World, desktop: bool): World {
    var pruned := w.(pending := Pruned(w, desktop), era := if desktop then w.era + 1 else w.era);
    if |pruned.pending| >= LIMIT then pruned
    else
      pruned.(
        pending := pruned.pending[|w.starts| := Entry(w.loginOrigin, w.version, w.now + TTL, desktop, false)],
        starts := w.starts + [Start(w.loginOrigin, w.version, pruned.era, desktop, w.now + TTL)])
  }

  predicate Current(w: World, entry: Entry) {
    entry.origin == w.loginOrigin && entry.version == w.version
  }

  function Drop(w: World, state: nat): World {
    w.(pending := w.pending - {state})
  }

  /** Up to the token request; an authorization that is not current any more ends at once. */
  function Exchanged(w: World, state: nat, entry: Entry): World {
    w.(exchanges := w.exchanges + [Exchange(state, entry, if Current(w, entry) then Fetching else Over, w.now)])
  }

  function Unexpired(receipts: seq<Receipt>, now: nat): seq<Receipt> {
    if receipts == [] then []
    else
      Unexpired(receipts[..|receipts| - 1], now)
      + (if receipts[|receipts| - 1].expiresAt <= now then [] else [receipts[|receipts| - 1]])
  }

  predicate HasReceipt(receipts: seq<Receipt>, state: nat) {
    exists receipt | receipt in receipts :: receipt.state == state
  }

  /** The callback of the browser, up to its first await. */
  function Called(w: World, state: nat, denied: bool, code: Code): World {
    var v := w.(completed := Unexpired(w.completed, w.now));
    if HasReceipt(v.completed, state) || state !in w.pending then v
    else
      var entry := w.pending[state];
      if entry.desktop then
        if Expired(entry, w.now) || !Current(w, entry) || denied || code != Code.Code then Drop(v, state)
        else v
      else if Expired(entry, w.now) || denied then Drop(v, state)
      else if code == NoCode then v
      else Exchanged(Drop(v, state), state, entry)
  }

  /** The desktop client's completion, from the look-up to its next await. */
  function Completed(w: World, state: nat): World {
    if state !in w.pending then w
    else
      var entry := w.pending[state];
      if !entry.desktop || entry.completing || Expired(entry, w.now) || !Current(w, entry) then w
      else
        Exchanged(w.(pending := w.pending[state := entry.(completing := true)]), state,
                  entry.(completing := true))
  }

  function PutPhase(w: World, id: nat, phase: Phase): World
    requires id < |w.exchanges|
  {
    w.(exchanges := w.exchanges[id := w.exchanges[id].(phase := phase)])
  }

  /** `finally { pending.delete(entry.state) }`, which the desktop handler alone has. */
  function Ended(w: World, id: nat): World
    requires id < |w.exchanges|
  {
    var over := PutPhase(w, id, Over);
    if w.exchanges[id].entry.desktop then Drop(over, w.exchanges[id].state) else over
  }

  /** Behind the token response: `connect` is called only if nothing has changed meanwhile. */
  function Answered(w: World, id: nat, token: bool): World
    requires id < |w.exchanges|
  {
    var exchange := w.exchanges[id];
    var still := Current(w, exchange.entry) && (exchange.entry.desktop ==> exchange.state in w.pending);
    if !token || !still then Ended(w, id)
    else
      PutPhase(w, id, Connecting)
      .(connects := w.connects
                    + [Connect(exchange.state, exchange.entry.origin, w.loginOrigin, w.version, w.era,
                               exchange.since)])
  }

  /** Behind `connect`; a browser authorization leaves a receipt, at the cost of the oldest one. */
  function Settled(w: World, id: nat, succeeded: bool): World
    requires id < |w.exchanges|
  {
    var exchange := w.exchanges[id];
    var over := Ended(w, id);
    if exchange.entry.desktop || !succeeded then over
    else
      var kept := if |w.completed| >= LIMIT then w.completed[1..] else w.completed;
      over.(completed := kept + [Receipt(exchange.state, w.now + TTL, w.version)])
  }

  predicate Enabled(w: World, step: Step) {
    match step
    case Tick(later) => later >= w.now
    case Fetched(id, _) => id < |w.exchanges| && w.exchanges[id].phase.Fetching?
    case Connected(id, _) => id < |w.exchanges| && w.exchanges[id].phase.Connecting?
    case _ => true
  }

  function Apply(w: World, step: Step): World
    requires Enabled(w, step)
  {
    match step
    case Tick(later) => w.(now := later)
    case Settings(origin) => w.(loginOrigin := origin)
    case Switched => w.(version := w.version + 1)
    case Logout => w.(pending := map[], era := w.era + 1)
    case Begin(desktop) => Began(w, desktop)
    case Callback(state, denied, code) => Called(w, state, denied, code)
    case Complete(state) => Completed(w, state)
    case Fetched(id, token) => Answered(w, id, token)
    case Connected(id, succeeded) => Settled(w, id, succeeded)
  }

  predicate Runs(w: World, steps: seq<Step>)
    decreases |steps|
  {
    steps == [] || (Enabled(w, steps[0]) && Runs(Apply(w, steps[0]), steps[1..]))
  }

  function After(w: World, steps: seq<Step>): World
    requires Runs(w, steps)
    decreases |steps|
  {
    if steps == [] then w else After(Apply(w, steps[0]), steps[1..])
  }

  function Opened(origin: string): World {
    World(0, origin, 0, 0, [], map[], [], [], [])
  }

  // ---------- The invariant ----------

  /** An entry carries what its authorization began with. */
  predicate Records(w: World, state: nat, entry: Entry) {
    && state < |w.starts|
    && entry.origin == w.starts[state].origin && entry.version == w.starts[state].version
    && entry.desktop == w.starts[state].desktop && entry.expiresAt == w.starts[state].expiresAt
  }

  /** No desktop start and no logout has come since a pending desktop authorization began. */
  ghost predicate Entries(w: World) {
    forall state | state in w.pending ::
      && Records(w, state, w.pending[state])
      && (w.pending[state].desktop ==> w.starts[state].era == w.era)
      && (w.pending[state].completing ==> w.pending[state].desktop)
  }

  /** An authorization is exchanged at most once, and not while it waits for its callback. */
  ghost predicate Exchanges(w: World) {
    && (forall i, j | 0 <= i < j < |w.exchanges| :: w.exchanges[i].state != w.exchanges[j].state)
    && forall i | 0 <= i < |w.exchanges| ::
         && Records(w, w.exchanges[i].state, w.exchanges[i].entry)
         && w.exchanges[i].since < w.exchanges[i].entry.expiresAt
         && (w.exchanges[i].state in w.pending ==> w.pending[w.exchanges[i].state].completing)
  }

  predicate Holds(w: World, c: Connect) {
    && c.state < |w.starts|
    && c.origin == w.starts[c.state].origin == c.loginOrigin
    && c.version == w.starts[c.state].version
    && c.since < w.starts[c.state].expiresAt
    && (w.starts[c.state].desktop ==> c.era == w.starts[c.state].era)
  }

  predicate ConnectedBy(w: World, i: int, state: nat) {
    0 <= i < |w.exchanges| && w.exchanges[i].state == state && !w.exchanges[i].phase.Fetching?
  }

  ghost predicate WasConnected(w: World, state: nat) {
    exists k :: ConnectedBy(w, k, state)
  }

  ghost predicate Connects(w: World) {
    && (forall i, j | 0 <= i < j < |w.connects| :: w.connects[i].state != w.connects[j].state)
    && forall i | 0 <= i < |w.connects| ::
         Holds(w, w.connects[i]) && WasConnected(w, w.connects[i].state)
  }

  ghost predicate Inv(w: World) {
    Entries(w) && Exchanges(w) && Connects(w) && |w.pending| <= LIMIT && |w.completed| <= LIMIT
  }

  /** Starts and exchanges are only added, and no exchange goes back to fetching. */
  predicate Grows(w: World, v: World) {
    && w.starts <= v.starts && |w.exchanges| <= |v.exchanges|
    && forall i | 0 <= i < |w.exchanges| ::
         && v.exchanges[i].state == w.exchanges[i].state
         && v.exchanges[i].entry == w.exchanges[i].entry
         && (v.exchanges[i].phase.Fetching? ==> w.exchanges[i].phase.Fetching?)
  }

  lemma StaysConnected(w: World, v: World, state: nat)
    requires Grows(w, v) && WasConnected(w, state)
    ensures WasConnected(v, state)
  {
    var k :| ConnectedBy(w, k, state);
    assert ConnectedBy(v, k, state);
  }

  lemma ConnectsStay(w: World, v: World)
    requires Connects(w) && Grows(w, v) && v.connects == w.connects
    ensures Connects(v)
  {
    forall i | 0 <= i < |w.connects| ensures Holds(v, v.connects[i]) && WasConnected(v, v.connects[i].state) {
      StaysConnected(w, v, w.connects[i].state);
    }
    hide WasConnected, Grows;
  }

  lemma {:induction false} UnexpiredIsShort(receipts: seq<Receipt>, now: nat)
    ensures |Unexpired(receipts, now)| <= |receipts|
  {
    if receipts != [] {
      UnexpiredIsShort(receipts[..|receipts| - 1], now);
    }
  }

  lemma PrunedKeeps(w: World, desktop: bool)
    ensures
      var pruned := Pruned(w, desktop);
      && (forall state | state in pruned :: state in w.pending && pruned[state] == w.pending[state])
      && (desktop ==> forall state | state in pruned :: !pruned[state].desktop)
      && |pruned| <= |w.pending|
  {
    FewerKeys(w.pending.Keys, Pruned(w, desktop).Keys);
    assert |Pruned(w, desktop)| == |Pruned(w, desktop).Keys| && |w.pending| == |w.pending.Keys|;
    hide Expired;
  }

  /** A new era is of no account once no desktop entry is left. */
  lemma EraKeepsInv(w: World, era: nat)
    requires Inv(w) && (era == w.era || forall state | state in w.pending :: !w.pending[state].desktop)
    ensures Inv(w.(era := era))
  {
    var v := w.(era := era);
    ConnectsStay(w, v);
    hide Connects;
    assert forall state: nat, entry | Records(w, state, entry) :: Records(v, state, entry);
    hide Records;
  }

  /** Pruning: fewer entries, and no desktop entry where a desktop start ends them all. */
  lemma PruneKeepsInv(w: World, desktop: bool)
    requires Inv(w)
    ensures Inv(w.(pending := Pruned(w, desktop), era := if desktop then w.era + 1 else w.era))
  {
    PrunedKeeps(w, desktop);
    OnlyPending(w, w.(pending := Pruned(w, desktop)));
    hide Entries, Exchanges, Connects, Pruned;
    EraKeepsInv(w.(pending := Pruned(w, desktop)), if desktop then w.era + 1 else w.era);
  }

  lemma FewerKeys(keys: set<nat>, fewer: set<nat>)
    requires fewer <= keys
    ensures |fewer| <= |keys|
  {
    assert |keys| == |fewer| + |keys - fewer| by {
      assert fewer + (keys - fewer) == keys && fewer !! keys - fewer;
    }
  }

  lemma StartKeepsInv(w: World, start: Start, entry: Entry)
    requires Inv(w) && |w.pending| < LIMIT && start.era == w.era && !entry.completing
    requires entry.origin == start.origin && entry.version == start.version
    requires entry.desktop == start.desktop && entry.expiresAt == start.expiresAt
    ensures Inv(w.(pending := w.pending[|w.starts| := entry], starts := w.starts + [start]))
  {
    var v := w.(pending := w.pending[|w.starts| := entry], starts := w.starts + [start]);
    ConnectsStay(w, v);
    hide Connects;
    assert Records(v, |w.starts|, entry) && v.starts[|w.starts|] == start;
    assert forall state: nat, e | Records(w, state, e) :: Records(v, state, e) && state < |w.starts|;
    assert forall i | 0 <= i < |w.starts| :: v.starts[i] == w.starts[i];
    hide Records;
  }

  lemma BeginKeepsInv(w: World, desktop: bool)
    requires Inv(w)
    ensures Inv(Began(w, desktop))
  {
    hide Inv, Pruned;
    PruneKeepsInv(w, desktop);
    var pruned := w.(pending := Pruned(w, desktop), era := if desktop then w.era + 1 else w.era);
    if |pruned.pending| < LIMIT {
      StartKeepsInv(pruned, Start(w.loginOrigin, w.version, pruned.era, desktop, w.now + TTL),
                    Entry(w.loginOrigin, w.version, w.now + TTL, desktop, false));
    }
  }

  lemma DropKeepsInv(w: World, state: nat)
    requires Inv(w)
    ensures Inv(Drop(w, state))
  {
    var v := Drop(w, state);
    FewerKeys(w.pending.Keys, v.pending.Keys);
    assert |v.pending| == |v.pending.Keys| && |w.pending| == |w.pending.Keys|;
    OnlyPending(w, v);
  }

  /** Fewer pending entries change nothing for the exchanges and the calls of `connect`. */
  lemma OnlyPending(w: World, v: World)
    requires Entries(w) && Exchanges(w) && Connects(w)
    requires v == w.(pending := v.pending)
    requires forall state | state in v.pending :: state in w.pending && v.pending[state] == w.pending[state]
    ensures Entries(v) && Exchanges(v) && Connects(v)
  {
    ConnectsStay(w, v);
    hide Connects;
    assert forall state: nat, entry | Records(w, state, entry) :: Records(v, state, entry);
    hide Records;
  }

  lemma ExchangeKeepsInv(w: World, state: nat, entry: Entry)
    requires Inv(w) && Records(w, state, entry) && !Expired(entry, w.now)
    requires forall i | 0 <= i < |w.exchanges| :: w.exchanges[i].state != state
    requires state in w.pending ==> w.pending[state].completing
    ensures Inv(Exchanged(w, state, entry))
  {
    var v := Exchanged(w, state, entry);
    ConnectsStay(w, v);
    hide Connects;
  }

  /** The clock, the settings, the version and the receipts are not what the tables depend on. */
  lemma SurroundingsKeepInv(w: World, v: World)
    requires Inv(w) && |v.completed| <= LIMIT
    requires v == w.(now := v.now, loginOrigin := v.loginOrigin, version := v.version,
                     completed := v.completed)
    ensures Inv(v)
  {
    ConnectsStay(w, v);
    hide Connects;
  }

  lemma CallbackKeepsInv(w: World, state: nat, denied: bool, code: Code)
    requires Inv(w)
    ensures Inv(Called(w, state, denied, code))
  {
    hide Inv, Unexpired, HasReceipt, Drop, Exchanged, Current;
    var v := w.(completed := Unexpired(w.completed, w.now));
    CompletedIsShort(w);
    UnexpiredIsShort(w.completed, w.now);
    SurroundingsKeepInv(w, v);
    DropKeepsInv(v, state);
    if state in w.pending && !w.pending[state].desktop && !Expired(w.pending[state], w.now) {
      BrowserCallbackKeepsInv(v, state);
    }
  }

  lemma BrowserCallbackKeepsInv(w: World, state: nat)
    requires Inv(w) && state in w.pending
    requires !w.pending[state].desktop && !Expired(w.pending[state], w.now)
    ensures Inv(Exchanged(Drop(w, state), state, w.pending[state]))
  {
    DropKeepsInv(w, state);
    BrowserEntry(w, state);
    assert !w.pending[state].completing;
    hide Inv, Exchanged, Expired;
    ExchangeKeepsInv(Drop(w, state), state, w.pending[state]);
  }

  lemma BrowserEntry(w: World, state: nat)
    requires Inv(w) && state in w.pending
    ensures Records(w, state, w.pending[state])
    ensures !w.pending[state].completing ==>
              forall i | 0 <= i < |w.exchanges| :: w.exchanges[i].state != state
  {
  }

  lemma LogoutKeepsInv(w: World)
    requires Inv(w)
    ensures Inv(w.(pending := map[], era := w.era + 1))
  {
    var v := w.(pending := map[], era := w.era + 1);
    ConnectsStay(w, v);
    hide Connects;
  }

  /** Marking a pending desktop authorization as completing. */
  lemma MarkKeepsInv(w: World, state: nat)
    requires Inv(w) && state in w.pending && w.pending[state].desktop
    ensures Inv(w.(pending := w.pending[state := w.pending[state].(completing := true)]))
  {
    var v := w.(pending := w.pending[state := w.pending[state].(completing := true)]);
    assert v.pending.Keys == w.pending.Keys;
    assert |v.pending| == |v.pending.Keys|;
    ConnectsStay(w, v);
    hide Connects;
    hide Holds;
  }

  lemma CompleteKeepsInv(w: World, state: nat)
    requires Inv(w)
    ensures Inv(Completed(w, state))
  {
    hide Entries, Exchanges, Connects;
    if state in w.pending && w.pending[state].desktop && !w.pending[state].completing
       && !Expired(w.pending[state], w.now)
    {
      BrowserEntry(w, state);
      MarkKeepsInv(w, state);
      ExchangeKeepsInv(w.(pending := w.pending[state := w.pending[state].(completing := true)]), state,
                       w.pending[state].(completing := true));
    }
  }

  lemma PhaseKeepsInv(w: World, id: nat, phase: Phase)
    requires Inv(w) && id < |w.exchanges| && !phase.Fetching?
    ensures Inv(PutPhase(w, id, phase))
  {
    var v := PutPhase(w, id, phase);
    ConnectsStay(w, v);
    hide Connects;
    hide Holds, Records;
  }

  lemma EndKeepsInv(w: World, id: nat)
    requires Inv(w) && id < |w.exchanges|
    ensures Inv(Ended(w, id))
  {
    hide Inv;
    PhaseKeepsInv(w, id, Over);
    DropKeepsInv(PutPhase(w, id, Over), w.exchanges[id].state);
  }

  /** The call of `connect`: everything is as it was when the authorization began. */
  lemma ConnectKeepsInv(w: World, id: nat)
    requires Inv(w) && id < |w.exchanges| && w.exchanges[id].phase.Fetching?
    requires Current(w, w.exchanges[id].entry)
    requires w.exchanges[id].entry.desktop ==> w.exchanges[id].state in w.pending
    ensures
      var e := w.exchanges[id];
      Inv(PutPhase(w, id, Connecting)
          .(connects := w.connects + [Connect(e.state, e.entry.origin, w.loginOrigin, w.version, w.era,
                                            e.since)]))
  {
    var e := w.exchanges[id];
    var c := Connect(e.state, e.entry.origin, w.loginOrigin, w.version, w.era, e.since);
    PhaseKeepsInv(w, id, Connecting);
    var u := PutPhase(w, id, Connecting);
    var v := u.(connects := w.connects + [c]);
    assert Records(w, e.state, e.entry);
    AddConnect(w, u, id, c);
    SameTables(u, v);
    hide Entries, Exchanges, Connects;
  }

  lemma SameTables(u: World, v: World)
    requires Inv(u) && v == u.(connects := v.connects)
    ensures Entries(v) && Exchanges(v)
  {
    hide Connects;
  }

  lemma AddConnect(w: World, u: World, id: nat, c: Connect)
    requires Exchanges(w) && Connects(w)
    requires id < |w.exchanges| && w.exchanges[id].phase.Fetching? && w.exchanges[id].state == c.state
    requires u == PutPhase(w, id, Connecting)
    requires Holds(w, c)
    ensures Connects(u.(connects := w.connects + [c]))
  {
    var v := u.(connects := w.connects + [c]);
    SameHolds(w, v, c);
    assert ConnectedBy(v, id, c.state);
    assert Grows(w, v);
    forall i | 0 <= i < |w.connects|
      ensures w.connects[i].state != c.state
      ensures Holds(v, w.connects[i]) && WasConnected(v, w.connects[i].state)
    {
      SameHolds(w, v, w.connects[i]);
      StaysConnected(w, v, w.connects[i].state);
      NotYetConnected(w, id, w.connects[i].state);
    }
    hide Holds, Grows, Exchanges;
  }

  /** An authorization whose token is being fetched has not called `connect`. */
  lemma NotYetConnected(w: World, id: nat, state: nat)
    requires Exchanges(w) && id < |w.exchanges| && w.exchanges[id].phase.Fetching?
    requires WasConnected(w, state)
    ensures state != w.exchanges[id].state
  {
    var k :| ConnectedBy(w, k, state);
    assert k != id;
    hide Records;
  }

  lemma SameHolds(w: World, v: World, c: Connect)
    requires Holds(w, c) && v.starts == w.starts
    ensures Holds(v, c)
  {
  }

  lemma FetchedKeepsInv(w: World, id: nat, token: bool)
    requires Inv(w) && Enabled(w, Fetched(id, token))
    ensures Inv(Answered(w, id, token))
  {
    hide Inv, Ended, PutPhase;
    EndKeepsInv(w, id);
    var e := w.exchanges[id];
    if token && Current(w, e.entry) && (e.entry.desktop ==> e.state in w.pending) {
      ConnectKeepsInv(w, id);
      PutPhaseKeepsConnects(w, id);
    }
  }

  lemma PutPhaseKeepsConnects(w: World, id: nat)
    requires id < |w.exchanges|
    ensures PutPhase(w, id, Connecting).connects == w.connects
  {
  }

  lemma ConnectedKeepsInv(w: World, id: nat, succeeded: bool)
    requires Inv(w) && Enabled(w, Connected(id, succeeded))
    ensures Inv(Settled(w, id, succeeded))
  {
    EndKeepsInv(w, id);
    EndKeepsReceipts(w, id);
    assert |w.completed| <= LIMIT;
    hide Entries, Exchanges, Connects, Ended;
    if !w.exchanges[id].entry.desktop && succeeded {
      SurroundingsKeepInv(Ended(w, id), Settled(w, id, succeeded));
    }
  }

  lemma EndKeepsReceipts(w: World, id: nat)
    requires id < |w.exchanges|
    ensures Ended(w, id).completed == w.completed
  {
  }

  lemma PrunedIs(w: World, desktop: bool, gone: set<nat>)
    requires forall state | state in gone :: state in w.pending
    requires forall state | state in w.pending ::
      state in gone <==> Expired(w.pending[state], w.now) || (desktop && w.pending[state].desktop)
    ensures Pruned(w, desktop) == w.pending - gone
  {
    hide Expired;
    assert gone == set state | state in w.pending
      && (Expired(w.pending[state], w.now) || (desktop && w.pending[state].desktop));
  }

  lemma CompletedIsShort(w: World)
    requires Inv(w)
    ensures |w.completed| <= LIMIT
  {
    hide Entries, Exchanges, Connects;
  }

  lemma StepKeepsInv(w: World, step: Step)
    requires Inv(w) && Enabled(w, step)
    ensures Inv(Apply(w, step))
  {
    hide Inv, Began, Called, Completed, Answered, Settled;
    CompletedIsShort(w);
    match step {
      case Tick(later) => SurroundingsKeepInv(w, w.(now := later));
      case Settings(origin) => SurroundingsKeepInv(w, w.(loginOrigin := origin));
      case Switched => SurroundingsKeepInv(w, w.(version := w.version + 1));
      case Logout => LogoutKeepsInv(w);
      case Begin(desktop) => BeginKeepsInv(w, desktop);
      case Callback(state, denied, code) => CallbackKeepsInv(w, state, denied, code);
      case Complete(state) => CompleteKeepsInv(w, state);
      case Fetched(id, token) => FetchedKeepsInv(w, id, token);
      case Connected(id, succeeded) => ConnectedKeepsInv(w, id, succeeded);
    }
  }

  lemma {:induction false} InvAlways(w: World, steps: seq<Step>)
    requires Inv(w) && Runs(w, steps)
    ensures Inv(After(w, steps))
    decreases |steps|
  {
    hide Inv, Apply;
    if steps != [] {
      StepKeepsInv(w, steps[0]);
      InvAlways(Apply(w, steps[0]), steps[1..]);
    }
  }

  lemma OpenedHasInv(origin: string)
    ensures Inv(Opened(origin))
  {
  }

  // ---------- What every interleaving keeps ----------

  /** Each authorization calls `connect` at most once. */
  lemma ConnectsOnce(origin: string, steps: seq<Step>, i: nat, j: nat)
    requires Runs(Opened(origin), steps)
    requires i < j < |After(Opened(origin), steps).connects|
    ensures After(Opened(origin), steps).connects[i].state
            != After(Opened(origin), steps).connects[j].state
  {
    hide Apply, Entries, Exchanges, Holds, WasConnected;
    OpenedHasInv(origin);
    InvAlways(Opened(origin), steps);
  }

  /**
   * `connect` is called only while login origin and connection version are those that the
   * authorization began with and, for a desktop one, before any later desktop start or logout;
   * and only for a code that was handed in before the authorization expired.
   */
  lemma ConnectsWhileCurrent(origin: string, steps: seq<Step>, i: nat)
    requires Runs(Opened(origin), steps)
    requires i < |After(Opened(origin), steps).connects|
    ensures
      var w := After(Opened(origin), steps);
      var c := w.connects[i];
      && c.state < |w.starts|
      && c.origin == c.loginOrigin == w.starts[c.state].origin
      && c.version == w.starts[c.state].version
      && c.since < w.starts[c.state].expiresAt
      && (w.starts[c.state].desktop ==> c.era == w.starts[c.state].era)
  {
    hide Apply, Entries, Exchanges;
    OpenedHasInv(origin);
    InvAlways(Opened(origin), steps);
    assert Holds(After(Opened(origin), steps), After(Opened(origin), steps).connects[i]);
  }

  /** Neither table ever has more than 32 entries. */
  lemma TablesAreBounded(origin: string, steps: seq<Step>)
    requires Runs(Opened(origin), steps)
    ensures |After(Opened(origin), steps).pending| <= 32
    ensures |After(Opened(origin), steps).completed| <= 32
  {
    hide Apply, Entries, Exchanges, Connects;
    OpenedHasInv(origin);
    InvAlways(Opened(origin), steps);
  }

  /** There is never more than one desktop authorization waiting. */
  lemma OneDesktopAuthorization(origin: string, steps: seq<Step>, a: nat, b: nat)
    requires Runs(Opened(origin), steps)
    requires
      var w := After(Opened(origin), steps);
      a in w.pending && b in w.pending && w.pending[a].desktop && w.pending[b].desktop
    ensures a == b
  {
    hide Apply, Inv;
    SoloAlways(Opened(origin), steps);
  }

  ghost predicate Solo(w: World) {
    forall a, b | a in w.pending && b in w.pending && w.pending[a].desktop && w.pending[b].desktop :: a == b
  }

  /** Every step but a desktop start leaves the desktop entries or removes some. */
  lemma FewerDesktops(w: World, step: Step)
    requires Enabled(w, step) && step != Begin(true)
    ensures
      var v := Apply(w, step);
      forall state | state in v.pending && v.pending[state].desktop ::
        state in w.pending && w.pending[state].desktop
  {
    match step {
      case Begin(_) => BegunDesktops(w);
      case Callback(state, denied, code) => CalledDesktops(w, state, denied, code);
      case Complete(state) => CompletedDesktops(w, state);
      case Fetched(id, token) => OverDesktops(w, id, token);
      case Connected(id, succeeded) => OverDesktops(w, id, succeeded);
      case _ =>
    }
    hide Began, Called, Completed, Answered, Settled;
  }

  lemma BegunDesktops(w: World)
    ensures
      var v := Began(w, false);
      forall state | state in v.pending && v.pending[state].desktop ::
        state in w.pending && w.pending[state].desktop
  {
    hide Expired;
  }

  lemma CalledDesktops(w: World, state: nat, denied: bool, code: Code)
    ensures
      var v := Called(w, state, denied, code);
      forall state | state in v.pending && v.pending[state].desktop ::
        state in w.pending && w.pending[state].desktop
  {
    hide Unexpired, HasReceipt, Current, Expired;
  }

  lemma CompletedDesktops(w: World, state: nat)
    ensures
      var v := Completed(w, state);
      forall state | state in v.pending && v.pending[state].desktop ::
        state in w.pending && w.pending[state].desktop
  {
    hide Current, Expired;
  }

  lemma OverDesktops(w: World, id: nat, done: bool)
    requires id < |w.exchanges|
    ensures
      var v, t := Answered(w, id, done), Settled(w, id, done);
      && (forall state | state in v.pending && v.pending[state].desktop ::
            state in w.pending && w.pending[state].desktop)
      && forall state | state in t.pending && t.pending[state].desktop ::
           state in w.pending && w.pending[state].desktop
  {
    hide Current;
  }

  lemma NewDesktopAlone(w: World)
    ensures
      var v := Began(w, true);
      forall state | state in v.pending && v.pending[state].desktop :: state == |w.starts|
  {
    hide Expired;
  }

  lemma SoloStep(w: World, step: Step)
    requires Solo(w) && Enabled(w, step)
    ensures Solo(Apply(w, step))
  {
    if step == Begin(true) {
      NewDesktopAlone(w);
      assert Apply(w, step) == Began(w, true);
    } else {
      FewerDesktops(w, step);
    }
    hide Apply, Began;
  }

  lemma {:induction false} SoloAlways(w: World, steps: seq<Step>)
    requires Solo(w) && Runs(w, steps)
    ensures Solo(After(w, steps))
    decreases |steps|
  {
    hide Apply, Solo;
    if steps != [] {
      SoloStep(w, steps[0]);
      SoloAlways(Apply(w, steps[0]), steps[1..]);
    }
  }

  // ---------- Authorizations that succeed ----------

  /** Receipts are for authorizations that have begun. */
  ghost predicate Receipted(w: World) {
    forall receipt | receipt in w.completed :: receipt.state < |w.starts|
  }

  lemma {:induction false} UnexpiredAreSome(receipts: seq<Receipt>, now: nat)
    ensures forall receipt :: receipt in Unexpired(receipts, now)
                              <==> receipt in receipts && receipt.expiresAt > now
  {
    if receipts != [] {
      UnexpiredAreSome(receipts[..|receipts| - 1], now);
      assert receipts == receipts[..|receipts| - 1] + [receipts[|receipts| - 1]];
    }
  }

  lemma StepKeepsReceipted(w: World, step: Step)
    requires Inv(w) && Receipted(w) && Enabled(w, step)
    ensures Receipted(Apply(w, step))
  {
    hide Inv, Began, Called, Completed, Answered, Settled;
    match step {
      case Begin(desktop) => BeganIs(w, desktop);
      case Callback(state, denied, code) =>
        CalledLeaves(w, state, denied, code);
        UnexpiredAreSome(w.completed, w.now);
      case Complete(state) => CompletedLeaves(w, state);
      case Fetched(id, token) => AnsweredLeaves(w, id, token);
      case Connected(id, succeeded) =>
        ExchangedHasBegun(w, id);
        SettledLeaves(w, id, succeeded);
      case _ =>
    }
    hide Unexpired, Pruned;
  }

  lemma CalledLeaves(w: World, state: nat, denied: bool, code: Code)
    ensures
      var v := Called(w, state, denied, code);
      v.starts == w.starts && v.completed == Unexpired(w.completed, w.now)
  {
    hide Unexpired, HasReceipt;
  }

  lemma CompletedLeaves(w: World, state: nat)
    ensures Completed(w, state).starts == w.starts && Completed(w, state).completed == w.completed
  {}

  lemma AnsweredLeaves(w: World, id: nat, token: bool)
    requires id < |w.exchanges|
    ensures Answered(w, id, token).starts == w.starts && Answered(w, id, token).completed == w.completed
  {}

  lemma SettledLeaves(w: World, id: nat, succeeded: bool)
    requires id < |w.exchanges|
    ensures
      var v := Settled(w, id, succeeded);
      && v.starts == w.starts
      && forall receipt | receipt in v.completed ::
           receipt in w.completed || receipt.state == w.exchanges[id].state
  {}

  lemma ExchangedHasBegun(w: World, id: nat)
    requires Inv(w) && id < |w.exchanges|
    ensures w.exchanges[id].state < |w.starts|
  {
    hide Entries, Connects;
  }

  lemma {:induction false} ReceiptedAlways(w: World, steps: seq<Step>)
    requires Inv(w) && Receipted(w) && Runs(w, steps)
    ensures Inv(After(w, steps)) && Receipted(After(w, steps))
    decreases |steps|
  {
    hide Inv, Apply, Receipted;
    if steps != [] {
      StepKeepsReceipted(w, steps[0]);
      StepKeepsInv(w, steps[0]);
      ReceiptedAlways(Apply(w, steps[0]), steps[1..]);
    }
  }

  /** What a browser does: it begins, and comes back with a code that becomes a token. */
  function BrowserSteps(w: World, later: nat): seq<Step> {
    [Begin(false), Tick(later), Callback(|w.starts|, false, Code.Code),
     Fetched(|w.exchanges|, true), Connected(|w.exchanges|, true)]
  }

  /** What the desktop does: the browser brings the code, and the desktop client hands it in. */
  function DesktopSteps(w: World, later: nat): seq<Step> {
    [Begin(true), Tick(later), Callback(|w.starts|, false, Code.Code), Complete(|w.starts|),
     Fetched(|w.exchanges|, true), Connected(|w.exchanges|, true)]
  }

  /**
   * From any state that a run reaches, with fewer than 32 authorizations left after pruning: one
   * that is begun, comes back with a code within ten minutes and gets its token calls `connect`
   * once, for the origin it began with, and leaves a receipt.
   */
  lemma BrowserConnects(origin: string, steps: seq<Step>, w: World, later: nat)
    requires Runs(Opened(origin), steps) && w == After(Opened(origin), steps)
    requires |Pruned(w, false)| < 32 && w.now <= later < w.now + 10 * 60 * 1000
    ensures Runs(w, BrowserSteps(w, later))
    ensures
      var v := After(w, BrowserSteps(w, later));
      && v.connects
         == w.connects + [Connect(|w.starts|, w.loginOrigin, w.loginOrigin, w.version, w.era, later)]
      && HasReceipt(v.completed, |w.starts|) && |w.starts| !in v.pending
  {
    hide Inv, Apply, Enabled, Receipted, Pruned, Called, Answered, Settled, HasReceipt, Unexpired, Runs, After;
    OpenedHasInv(origin);
    OpenedIsReceipted(origin);
    ReceiptedAlways(Opened(origin), steps);
    BrowserBegins(w, later);
    BrowserReturns(w, later);
  }

  lemma OpenedIsReceipted(origin: string)
    ensures Receipted(Opened(origin))
  {}

  /** Begun, and waiting until `later`. */
  function Waiting(w: World, later: nat, desktop: bool): World {
    w.(now := later,
       era := if desktop then w.era + 1 else w.era,
       pending := Pruned(w, desktop)[|w.starts| := Entry(w.loginOrigin, w.version, w.now + TTL, desktop, false)],
       starts := w.starts + [Start(w.loginOrigin, w.version, if desktop then w.era + 1 else w.era, desktop,
                                   w.now + TTL)])
  }

  lemma BrowserBegins(w: World, later: nat)
    requires |Pruned(w, false)| < 32 && w.now <= later
    ensures Apply(Apply(w, Begin(false)), Tick(later)) == Waiting(w, later, false)
  {
    hide Pruned;
    BeganIs(w, false);
  }

  lemma DesktopBegins(w: World, later: nat)
    requires |Pruned(w, true)| < 32 && w.now <= later
    ensures Apply(Apply(w, Begin(true)), Tick(later)) == Waiting(w, later, true)
  {
    hide Pruned;
    BeganIs(w, true);
  }

  lemma NoReceiptYet(w: World, now: nat)
    requires Receipted(w)
    ensures !HasReceipt(Unexpired(w.completed, now), |w.starts|)
  {
    UnexpiredAreSome(w.completed, now);
    hide Unexpired;
  }

  lemma NewReceipt(receipts: seq<Receipt>, receipt: Receipt)
    ensures HasReceipt(receipts + [receipt], receipt.state)
  {
    assert (receipts + [receipt])[|receipts|] == receipt;
  }

  lemma FiveSteps(w: World, a: Step, b: Step, c: Step, d: Step, e: Step)
    requires Enabled(w, a) && Enabled(Apply(w, a), b)
    requires Enabled(Apply(Apply(w, a), b), c) && Enabled(Apply(Apply(Apply(w, a), b), c), d)
    requires Enabled(Apply(Apply(Apply(Apply(w, a), b), c), d), e)
    ensures Runs(w, [a, b, c, d, e])
    ensures After(w, [a, b, c, d, e]) == Apply(Apply(Apply(Apply(Apply(w, a), b), c), d), e)
  {
    hide *;
    var first, second := Apply(w, a), Apply(Apply(w, a), b);
    var third, fourth := Apply(second, c), Apply(Apply(second, c), d);
    NoStep(Apply(fourth, e));
    StepThen(fourth, e, []);
    StepThen(third, d, [e] + []);
    StepThen(second, c, [d] + ([e] + []));
    StepThen(first, b, [c] + ([d] + ([e] + [])));
    StepThen(w, a, [b] + ([c] + ([d] + ([e] + []))));
    assert [a, b, c, d, e] == [a] + ([b] + ([c] + ([d] + ([e] + []))));
  }

  lemma NoStep(w: World)
    ensures Runs(w, []) && After(w, []) == w
  {}

  lemma BrowserReturns(w: World, later: nat)
    requires Receipted(w) && |Pruned(w, false)| < 32 && w.now <= later < w.now + TTL
    ensures Runs(w, BrowserSteps(w, later))
    ensures
      var v := After(w, BrowserSteps(w, later));
      && v.connects
         == w.connects + [Connect(|w.starts|, w.loginOrigin, w.loginOrigin, w.version, w.era, later)]
      && HasReceipt(v.completed, |w.starts|) && |w.starts| !in v.pending
  {
    hide Pruned, Unexpired, HasReceipt, Receipted, Runs, After;
    BrowserBegins(w, later);
    NoReceiptYet(w, later);
    var state, id := |w.starts|, |w.exchanges|;
    var v := Waiting(w, later, false);
    var called := Apply(v, Callback(state, false, Code.Code));
    assert called.exchanges
           == w.exchanges + [Exchange(state, v.pending[state], Fetching, later)];
    var answered := Apply(called, Fetched(id, true));
    assert answered.connects
           == w.connects + [Connect(state, w.loginOrigin, w.loginOrigin, w.version, w.era, later)];
    var settled := Apply(answered, Connected(id, true));
    var kept := if |answered.completed| >= LIMIT then answered.completed[1..] else answered.completed;
    NewReceipt(kept, Receipt(state, later + TTL, w.version));
    FiveSteps(w, Begin(false), Tick(later), Callback(state, false, Code.Code), Fetched(id, true),
              Connected(id, true));
  }

  /** The same on the desktop, where a new authorization takes the place of the one before. */
  lemma DesktopConnects(origin: string, steps: seq<Step>, w: World, later: nat)
    requires Runs(Opened(origin), steps) && w == After(Opened(origin), steps)
    requires |Pruned(w, true)| < 32 && w.now <= later < w.now + 10 * 60 * 1000
    ensures Runs(w, DesktopSteps(w, later))
    ensures
      var v := After(w, DesktopSteps(w, later));
      && v.connects
         == w.connects + [Connect(|w.starts|, w.loginOrigin, w.loginOrigin, w.version, w.era + 1, later)]
      && |w.starts| !in v.pending
  {
    hide Inv, Apply, Enabled, Receipted, Pruned, Called, Answered, Settled, HasReceipt, Unexpired, Runs, After;
    OpenedHasInv(origin);
    OpenedIsReceipted(origin);
    ReceiptedAlways(Opened(origin), steps);
    DesktopReturns(w, later);
  }

  lemma DesktopReturns(w: World, later: nat)
    requires Receipted(w) && |Pruned(w, true)| < 32 && w.now <= later < w.now + TTL
    ensures Runs(w, DesktopSteps(w, later))
    ensures
      var v := After(w, DesktopSteps(w, later));
      && v.connects
         == w.connects + [Connect(|w.starts|, w.loginOrigin, w.loginOrigin, w.version, w.era + 1, later)]
      && |w.starts| !in v.pending
  {
    hide Pruned, Unexpired, HasReceipt, Receipted, Runs, After;
    DesktopBegins(w, later);
    NoReceiptYet(w, later);
    var state, id := |w.starts|, |w.exchanges|;
    var v := Waiting(w, later, true);
    var called := Apply(v, Callback(state, false, Code.Code));
    assert called.pending == v.pending && called.exchanges == w.exchanges;
    var completed := Apply(called, Complete(state));
    assert completed.exchanges[id].state == state && completed.exchanges[id].phase == Fetching;
    var answered := Apply(completed, Fetched(id, true));
    assert answered.connects
           == w.connects + [Connect(state, w.loginOrigin, w.loginOrigin, w.version, w.era + 1, later)];
    assert DesktopSteps(w, later)
           == [Begin(true)] + [Tick(later), Callback(state, false, Code.Code), Complete(state),
                               Fetched(id, true), Connected(id, true)];
    assert state !in Apply(answered, Connected(id, true)).pending;
    StepThen(w, Begin(true), [Tick(later), Callback(state, false, Code.Code), Complete(state),
                              Fetched(id, true), Connected(id, true)]);
    FiveSteps(Apply(w, Begin(true)), Tick(later), Callback(state, false, Code.Code), Complete(state),
              Fetched(id, true), Connected(id, true));
  }

  lemma StepThen(w: World, step: Step, rest: seq<Step>)
    requires Enabled(w, step)
    ensures Runs(w, [step] + rest) <==> Runs(Apply(w, step), rest)
    ensures Runs(w, [step] + rest) ==> After(w, [step] + rest) == After(Apply(w, step), rest)
  {
    hide Apply, Enabled;
    assert ([step] + rest)[1..] == rest;
  }

  // ---------- The handlers and their tables ----------

  class Authorizations {
    var now: nat
    var loginOrigin: string
    var version: nat
    var era: nat
    var starts: seq<Start>
    var pending: map<nat, Entry>
    var completed: seq<Receipt>
    var exchanges: seq<Exchange>
    var connects: seq<Connect>

    ghost function View(): World
      reads this
    {
      World(now, loginOrigin, version, era, starts, pending, completed, exchanges, connects)
    }

    ghost predicate Valid()
      reads this
    {
      Inv(View())
    }

    constructor (origin: string)
      ensures Valid() && View() == Opened(origin)
    {
      now, loginOrigin, version, era := 0, origin, 0, 0;
      starts, pending, completed, exchanges, connects := [], map[], [], [], [];
    }

    /** The loop at the head of `beginOAuth`. */
    method Prune(desktop: bool)
      modifies this`pending
      ensures pending == Pruned(old(View()), desktop)
    {
      hide Expired, Pruned;
      ghost var first := pending;
      ghost var gone: set<nat> := {};
      var rest := pending.Keys;
      while rest != {}
        invariant rest <= first.Keys && gone <= first.Keys && gone !! rest
        invariant pending == first - gone
        invariant forall state | state in first && state !in rest ::
          state in gone <==> Expired(first[state], now) || (desktop && first[state].desktop)
        decreases |rest|
      {
        var state :| state in rest;
        rest := rest - {state};
        if Expired(pending[state], now) || (desktop && pending[state].desktop) {
          pending := pending - {state};
          gone := gone + {state};
        }
      }
      PrunedIs(old(View()), desktop, gone);
    }

    /** `beginOAuth` */
    method BeginOAuth(desktop: bool) returns (state: Option<nat>)
      requires Valid()
      modifies this`pending, this`starts, this`era
      ensures Valid() && View() == Apply(old(View()), Begin(desktop))
      ensures state.Some? ==>
                && state.value == |old(starts)| && state.value in pending
                && state.value !in old(pending) && pending[state.value].expiresAt == now + TTL
      ensures state.None? <==> |Pruned(old(View()), desktop)| >= 32
      ensures state.None? ==> pending == Pruned(old(View()), desktop)
    {
      hide Inv, Pruned, Began;
      StepKeepsInv(View(), Begin(desktop));
      Known(View(), |starts|);
      BeganIs(View(), desktop);
      Prune(desktop);
      if desktop {
        era := era + 1;
      }
      if |pending| >= LIMIT {
        return None;
      }
      var drawn := |starts|;
      pending := pending[drawn := Entry(loginOrigin, version, now + TTL, desktop, false)];
      starts := starts + [Start(loginOrigin, version, era, desktop, now + TTL)];
      return Some(drawn);
    }

    /** The loop over the receipts at the head of the callback. */
    method DropReceipts()
      modifies this`completed
      ensures completed == Unexpired(old(completed), now)
    {
      var kept: seq<Receipt> := [];
      for i := 0 to |completed|
        invariant kept == Unexpired(completed[..i], now)
      {
        assert completed[..i + 1][..i] == completed[..i];
        if completed[i].expiresAt > now {
          kept := kept + [completed[i]];
        }
      }
      assert completed[..|completed|] == completed;
      completed := kept;
    }

    /** `exchangeOAuth` up to the token request. */
    method RequestToken(state: nat, entry: Entry)
      modifies this`exchanges
      ensures View() == Exchanged(old(View()), state, entry)
    {
      var phase := if entry.origin == loginOrigin && entry.version == version then Fetching else Over;
      exchanges := exchanges + [Exchange(state, entry, phase, now)];
    }

    /** The callback handler up to its first await. */
    method OAuthCallback(state: nat, denied: bool, code: Code)
      requires Valid()
      modifies this`pending, this`completed, this`exchanges
      ensures Valid() && View() == Apply(old(View()), Callback(state, denied, code))
      ensures |exchanges| > |old(exchanges)| <==>
                && !HasReceipt(completed, state) && state in old(pending)
                && !old(pending)[state].desktop && old(pending)[state].expiresAt > now
                && !denied && code != NoCode
    {
      hide Inv, Unexpired;
      StepKeepsInv(View(), Callback(state, denied, code));
      DropReceipts();
      if exists receipt | receipt in completed :: receipt.state == state {
        return;
      }
      if state !in pending {
        return;
      }
      var entry := pending[state];
      if entry.desktop {
        var current := entry.expiresAt > now && entry.origin == loginOrigin && entry.version == version;
        if !current || denied || code != Code.Code {
          pending := pending - {state};
        }
        return;
      }
      if entry.expiresAt <= now || denied {
        pending := pending - {state};
        return;
      }
      if code == NoCode {
        return;
      }
      pending := pending - {state};
      RequestToken(state, entry);
    }

    /** The desktop completion: marked before the network call. */
    method CompleteDesktop(state: nat) returns (accepted: bool)
      requires Valid()
      modifies this`pending, this`exchanges
      ensures Valid() && View() == Apply(old(View()), Complete(state))
      ensures accepted <==> |exchanges| == |old(exchanges)| + 1
      ensures accepted <==>
                && state in old(pending)
                && var entry := old(pending)[state];
                   && entry.desktop && !entry.completing && entry.expiresAt > now
                   && entry.origin == loginOrigin && entry.version == version
    {
      hide Inv;
      StepKeepsInv(View(), Complete(state));
      if state !in pending {
        return false;
      }
      var entry := pending[state];
      if !entry.desktop || entry.completing || entry.expiresAt <= now || entry.origin != loginOrigin
         || entry.version != version
      {
        return false;
      }
      entry := entry.(completing := true);
      pending := pending[state := entry];
      RequestToken(state, entry);
      return true;
    }

    /** Behind the token response; `called`: `connect` is called now. */
    method TokenAnswered(id: nat, token: bool) returns (called: bool)
      requires Valid() && Enabled(View(), Fetched(id, token))
      modifies this`pending, this`exchanges, this`connects
      ensures Valid() && View() == Apply(old(View()), Fetched(id, token))
      ensures called <==>
                var entry := old(exchanges)[id].entry;
                && token && entry.origin == loginOrigin && entry.version == version
                && (entry.desktop ==> old(exchanges)[id].state in old(pending))
      ensures connects
              == old(connects)
                 + if called
                   then [Connect(old(exchanges)[id].state, old(exchanges)[id].entry.origin, loginOrigin,
                                 version, era, old(exchanges)[id].since)]
                   else []
    {
      hide Inv;
      StepKeepsInv(View(), Fetched(id, token));
      var exchange := exchanges[id];
      var entry := exchange.entry;
      called := token && entry.origin == loginOrigin && entry.version == version
                && (!entry.desktop || exchange.state in pending);
      if called {
        exchanges := exchanges[id := exchange.(phase := Connecting)];
        connects := connects + [Connect(exchange.state, entry.origin, loginOrigin, version, era, exchange.since)];
      } else {
        exchanges := exchanges[id := exchange.(phase := Over)];
        if entry.desktop {
          pending := pending - {exchange.state};
        }
      }
    }

    /** Behind `connect`. */
    method ConnectSettled(id: nat, succeeded: bool)
      requires Valid() && Enabled(View(), Connected(id, succeeded))
      modifies this`pending, this`exchanges, this`completed
      ensures Valid() && View() == Apply(old(View()), Connected(id, succeeded))
    {
      hide Inv;
      StepKeepsInv(View(), Connected(id, succeeded));
      var exchange := exchanges[id];
      exchanges := exchanges[id := exchange.(phase := Over)];
      if exchange.entry.desktop {
        pending := pending - {exchange.state};
      } else if succeeded {
        if |completed| >= LIMIT {
          completed := completed[1..];
        }
        completed := completed + [Receipt(exchange.state, now + TTL, version)];
      }
    }

    /** The logout route forgets every pending authorization. */
    method CancelPending()
      requires Valid()
      modifies this`pending, this`era
      ensures Valid() && View() == Apply(old(View()), Logout)
    {
      StepKeepsInv(View(), Logout);
      hide Inv;
      pending, era := map[], era + 1;
    }
  }

  lemma BeganIs(w: World, desktop: bool)
    ensures
      var pruned := Pruned(w, desktop);
      var era := if desktop then w.era + 1 else w.era;
      var entry := Entry(w.loginOrigin, w.version, w.now + TTL, desktop, false);
      Began(w, desktop)
      == if |pruned| >= LIMIT then
           World(w.now, w.loginOrigin, w.version, era, w.starts, pruned, w.completed, w.exchanges, w.connects)
         else
           World(w.now, w.loginOrigin, w.version, era,
                 w.starts + [Start(w.loginOrigin, w.version, era, desktop, w.now + TTL)],
                 pruned[|w.starts| := entry], w.completed, w.exchanges, w.connects)
  {
    hide Pruned;
  }

  /** A state that has not been drawn yet is in neither table. */
  lemma Known(w: World, state: nat)
    requires Inv(w) && state >= |w.starts|
    ensures state !in w.pending
  {
  }
}
