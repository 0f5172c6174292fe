/**
 * The durable connection record of the Agent: what is accepted on reading, what is written, and
 * how the two relate (connection-state.ts).
 */
module ConnectionState {
  import opened Wrappers
  import opened Strings

  datatype Identity = Identity(userId: string, username: string, displayName: Option<string>)

  datatype Connection = Connection(origin: string, identity: Identity, sessionToken: string)

  datatype State = State(configuredOrigin: Option<string>, active: Option<Connection>)

  /** Parsed JSON, as far as the record looks into it. */
  datatype Value =
    | Null
    | Number(number: int)
    | Text(chars: string)
    | Record(members: map<string, Value>)
    | Other

  const VERSION := 1

  /** `canonicalWorkspaceOrigin`: the origin of a web address, or nothing where it throws. */
  type Canonical = string -> Option<string>

  /** Canonical origins are not blank, carry no outer white space and are canonical already. */
  ghost predicate Lawful(canonical: Canonical) {
    forall s | canonical(s).Some? ::
      var origin := canonical(s).value;
      origin != "" && Trimmed(origin) && canonical(origin) == Some(origin)
  }

  // ---------- Reading ----------

  function Member(v: Value, key: string): Option<Value>
    requires v.Record?
  {
    if key in v.members then Some(v.members[key]) else None
  }

  /** The trimmed text, or nothing where the original throws. */
  function RequiredString(value: Option<Value>): (r: Option<string>)
    ensures r.Some? ==> r.value != "" && Trimmed(r.value)
  {
    match value
    case Some(Text(chars)) =>
      TrimTwice(chars);
      if Trim(chars) == "" then None else Some(Trim(chars))
    case _ => None
  }

  /** An absent text is accepted, any other value must be a text with content. */
  function OptionalString(value: Option<Value>): (r: Option<Option<string>>)
    ensures r.Some? && r.value.Some? ==> r.value.value != "" && Trimmed(r.value.value)
  {
    if value.None? then Some(None)
    else
      match RequiredString(value)
      case Some(chars) => Some(Some(chars))
      case None => None
  }

  function RequiredOrigin(canonical: Canonical, value: Option<Value>): Option<string> {
    match RequiredString(value)
    case Some(chars) => canonical(chars)
    case None => None
  }

  /** `normalizeConnection`: nothing where the original throws. */
  function NormalizeConnection(canonical: Canonical, value: Value): Option<Connection>
    requires value.Record?
  {
    match Member(value, "identity")
    case Some(Record(members)) =>
      var identity := Record(members);
      var userId := RequiredString(Member(identity, "userId"));
      var username := RequiredString(Member(identity, "username"));
      var displayName := OptionalString(Member(identity, "displayName"));
      var sessionToken := RequiredString(Member(value, "sessionToken"));
      var origin := RequiredOrigin(canonical, Member(value, "origin"));
      if userId.None? || username.None? || displayName.None? || sessionToken.None? || origin.None?
      then None
      else
        Some(Connection(origin.value, Identity(userId.value, username.value, displayName.value),
                        sessionToken.value))
    case _ => None
  }

  /** `parseConnectionState` */
  function ParseConnectionState(canonical: Canonical, value: Value): Option<State> {
    if !value.Record? || Member(value, "version") != Some(Number(VERSION)) then None
    else
      var configured := Member(value, "configuredOrigin");
      var origin := RequiredOrigin(canonical, configured);
      if configured.Some? && origin.None? then None
      else
        match Member(value, "active")
        case None => Some(State(origin, None))
        case Some(Record(members)) =>
          (match NormalizeConnection(canonical, Record(members))
           case Some(connection) => Some(State(origin, Some(connection)))
           case None => None)
        case Some(_) => None
  }

  // ---------- Writing ----------

  function IdentityValue(identity: Identity): Value {
    var required := map["userId" := Text(identity.userId), "username" := Text(identity.username)];
    Record(if identity.displayName.Some?
           then required["displayName" := Text(identity.displayName.value)] else required)
  }

  function ConnectionValue(c: Connection): (v: Value)
    ensures v.Record?
  {
    Record(map["origin" := Text(c.origin), "identity" := IdentityValue(c.identity),
               "sessionToken" := Text(c.sessionToken)])
  }

  /** `JSON.stringify` of a state, read back as JSON. */
  function StateValue(s: State): Value {
    var base := map["version" := Number(VERSION)];
    var withOrigin := if s.configuredOrigin.Some?
                      then base["configuredOrigin" := Text(s.configuredOrigin.value)] else base;
    Record(if s.active.Some? then withOrigin["active" := ConnectionValue(s.active.value)]
           else withOrigin)
  }

  /** `normalizeConnection` on a connection that the program holds. */
  function Normalized(canonical: Canonical, c: Connection): Option<Connection> {
    NormalizeConnection(canonical, ConnectionValue(c))
  }

  predicate NormalText(s: string) {
    s != "" && Trimmed(s)
  }

  ghost predicate NormalConnection(canonical: Canonical, c: Connection) {
    && NormalText(c.origin) && canonical(c.origin) == Some(c.origin)
    && NormalText(c.identity.userId) && NormalText(c.identity.username)
    && (c.identity.displayName.Some? ==> NormalText(c.identity.displayName.value))
    && NormalText(c.sessionToken)
  }

  ghost predicate NormalState(canonical: Canonical, s: State) {
    && (s.configuredOrigin.Some? ==>
          NormalText(s.configuredOrigin.value)
          && canonical(s.configuredOrigin.value) == s.configuredOrigin)
    && (s.active.Some? ==> NormalConnection(canonical, s.active.value))
  }

  lemma NormalStringStays(s: string)
    requires NormalText(s)
    ensures RequiredString(Some(Text(s))) == Some(s)
  {
    TrimIdentity(s);
  }

  lemma NormalConnectionStays(canonical: Canonical, c: Connection)
    requires NormalConnection(canonical, c)
    ensures Normalized(canonical, c) == Some(c)
  {
    NormalStringStays(c.origin);
    NormalStringStays(c.identity.userId);
    NormalStringStays(c.identity.username);
    NormalStringStays(c.sessionToken);
    if c.identity.displayName.Some? {
      NormalStringStays(c.identity.displayName.value);
    }
    var v, i := ConnectionValue(c), IdentityValue(c.identity);
    assert Member(v, "identity") == Some(i) && Member(v, "origin") == Some(Text(c.origin));
    assert Member(v, "sessionToken") == Some(Text(c.sessionToken));
    assert Member(i, "userId") == Some(Text(c.identity.userId));
    assert Member(i, "username") == Some(Text(c.identity.username));
    hide RequiredString, Trimmed;
  }

  /** What is read is in normal form, whatever the file held. */
  lemma ParsedIsNormal(canonical: Canonical, value: Value)
    requires Lawful(canonical)
    ensures
      var s := ParseConnectionState(canonical, value);
      s.Some? ==> NormalState(canonical, s.value)
  {
    if value.Record? && Member(value, "active").Some? && Member(value, "active").value.Record? {
      NormalizedIsNormal(canonical, Member(value, "active").value);
    }
    hide NormalizeConnection, RequiredString;
  }

  lemma NormalizedIsNormal(canonical: Canonical, value: Value)
    requires Lawful(canonical) && value.Record?
    ensures
      var c := NormalizeConnection(canonical, value);
      c.Some? ==> NormalConnection(canonical, c.value)
  {
    hide RequiredString;
  }

  /** A state in normal form is read back exactly as it was written. */
  lemma ReadBack(canonical: Canonical, s: State)
    requires NormalState(canonical, s)
    ensures ParseConnectionState(canonical, StateValue(s)) == Some(s)
  {
    var v := StateValue(s);
    assert Member(v, "version") == Some(Number(VERSION));
    if s.configuredOrigin.Some? {
      NormalStringStays(s.configuredOrigin.value);
      assert Member(v, "configuredOrigin") == Some(Text(s.configuredOrigin.value));
    } else {
      assert Member(v, "configuredOrigin").None?;
    }
    if s.active.Some? {
      NormalConnectionStays(canonical, s.active.value);
      assert Member(v, "active") == Some(ConnectionValue(s.active.value));
    } else {
      assert Member(v, "active").None?;
    }
    hide NormalizeConnection, RequiredString;
  }

  // ---------- The two writers ----------

  datatype Update = SetConnection(active: Option<Connection>) | SetOrigin(origin: string)

  /** The closures that `writeConnectionState` and `writeConfiguredOrigin` pass on. */
  function ApplyUpdate(canonical: Canonical, u: Update, s: State): Option<State> {
    match u
    case SetConnection(None) => Some(s.(active := None))
    case SetConnection(Some(connection)) =>
      (match Normalized(canonical, connection)
       case Some(normal) => Some(s.(active := Some(normal)))
       case None => None)
    case SetOrigin(origin) => Some(s.(configuredOrigin := Some(origin)))
  }

  /** Origins are made canonical before the write is queued. */
  ghost predicate Queueable(canonical: Canonical, u: Update) {
    u.SetOrigin? ==> NormalText(u.origin) && canonical(u.origin) == Some(u.origin)
  }

  /** An update keeps the normal form and leaves the other writer's field alone. */
  lemma UpdateIsNormal(canonical: Canonical, u: Update, s: State)
    requires Lawful(canonical) && NormalState(canonical, s) && Queueable(canonical, u)
    ensures
      var t := ApplyUpdate(canonical, u, s);
      t.Some? ==>
        && NormalState(canonical, t.value)
        && (u.SetOrigin? ==> t.value.active == s.active && t.value.configuredOrigin == Some(u.origin))
        && (u.SetConnection? ==> t.value.configuredOrigin == s.configuredOrigin)
  {
    match u
    case SetConnection(Some(c)) => NormalizedIsNormal(canonical, ConnectionValue(c));
    case _ =>
  }

  /** An update of a connection fails exactly when one of its texts is not acceptable. */
  lemma UpdateFailsExactly(canonical: Canonical, u: Update, s: State)
    ensures ApplyUpdate(canonical, u, s).None?
            <==> u.SetConnection? && u.active.Some? &&
                 var c := u.active.value;
                 || Trim(c.origin) == "" || canonical(Trim(c.origin)).None?
                 || Trim(c.identity.userId) == "" || Trim(c.identity.username) == ""
                 || Trim(c.sessionToken) == ""
                 || (c.identity.displayName.Some? && Trim(c.identity.displayName.value) == "")
  {
    if u.SetConnection? && u.active.Some? {
      var c := u.active.value;
      var v, i := ConnectionValue(c), IdentityValue(c.identity);
      assert Member(v, "identity") == Some(i) && Member(v, "origin") == Some(Text(c.origin));
      assert Member(v, "sessionToken") == Some(Text(c.sessionToken));
      assert Member(i, "userId") == Some(Text(c.identity.userId));
      assert Member(i, "username") == Some(Text(c.identity.username));
      assert c.identity.displayName.Some? ==>
               Member(i, "displayName") == Some(Text(c.identity.displayName.value));
      assert c.identity.displayName.None? ==> Member(i, "displayName").None?;
      hide Trim;
    }
  }
}
