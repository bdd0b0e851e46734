/** Sessions, recovery codes, OAuth consents and trusted devices of one account, as interleaved atomic steps. */
module Sessions {
  import opened Wrappers

  datatype Scope = FinanceRead | FinanceWrite
  datatype Model = GrantModel | TokenModel

  /** A password stands for its own hash, a recovery code likewise. */
  datatype User = User(password: int, recoveryCode: Option<int>, sessionVersion: int, deviceVersion: int,
                       proofFailures: nat, proofWindowAt: Option<int>)

  datatype Connection = Connection(grantId: int, scopes: set<Scope>, revoked: bool)
  datatype ArtifactKey = ArtifactKey(model: Model, id: int)
  datatype Artifact = Artifact(grantId: Option<int>, expiresAt: Option<int>)
  datatype Device = Device(credentialVersion: int, revoked: bool)

  datatype Account = Account(user: User, connections: map<string, Connection>, artifacts: map<ArtifactKey, Artifact>,
                             devices: map<int, Device>)

  // ---- the conditional updates ----

  /** What a recovery or a rotation read before its conditional update. */
  datatype Snapshot = Snapshot(password: int, recoveryCode: Option<int>, sessionVersion: int)

  function Read(u: User): Snapshot {
    Snapshot(u.password, u.recoveryCode, u.sessionVersion)
  }

  predicate RecoveryStillHolds(u: User, seen: Snapshot) {
    u.recoveryCode == seen.recoveryCode && u.sessionVersion == seen.sessionVersion
  }

  predicate RotationStillHolds(u: User, seen: Snapshot) {
    u.password == seen.password && u.sessionVersion == seen.sessionVersion && u.recoveryCode == seen.recoveryCode
  }

  function WithoutGrants(artifacts: map<ArtifactKey, Artifact>, grants: set<int>): map<ArtifactKey, Artifact> {
    map k | k in artifacts
            && !(artifacts[k].grantId.Some? && artifacts[k].grantId.value in grants)
            && !(k.model == GrantModel && k.id in grants) :: artifacts[k]
  }

  function GrantsOf(connections: map<string, Connection>): set<int> {
    set client | client in connections :: connections[client].grantId
  }

  /** Recovery: new credentials, a new session epoch, and everything older revoked. */
  function Recovered(a: Account, newPassword: int, newCode: int): Account {
    Account(User(newPassword, Some(newCode), a.user.sessionVersion + 1, a.user.deviceVersion + 1, 0, None),
            map c | c in a.connections :: a.connections[c].(revoked := true),
            WithoutGrants(a.artifacts, GrantsOf(a.connections)),
            map d | d in a.devices :: a.devices[d].(revoked := true))
  }

  function Rotated(a: Account, newCode: int): Account {
    a.(user := a.user.(recoveryCode := Some(newCode)))
  }

  function LoggedOut(a: Account): Account {
    a.(user := a.user.(sessionVersion := a.user.sessionVersion + 1))
  }

  function Consented(a: Account, client: string, grantId: int, scopes: set<Scope>): Account {
    a.(connections := a.connections[client := Connection(grantId, scopes, false)])
  }

  function Disconnected(a: Account, client: string): Account {
    if client !in a.connections || a.connections[client].revoked then a
    else
      a.(connections := a.connections[client := a.connections[client].(revoked := true)],
         artifacts := WithoutGrants(a.artifacts, {a.connections[client].grantId}))
  }

  /** The fence inside every financial write made for an OAuth client. */
  predicate GrantActive(a: Account, client: string, grantId: int, now: int) {
    && client in a.connections
    && var c := a.connections[client];
    && !c.revoked && c.grantId == grantId
    && ArtifactKey(GrantModel, grantId) in a.artifacts
    && var grant := a.artifacts[ArtifactKey(GrantModel, grantId)];
    && (grant.expiresAt.Some? ==> grant.expiresAt.value > now)
    && FinanceRead in c.scopes && FinanceWrite in c.scopes
  }

  predicate DeviceUsable(a: Account, device: int) {
    device in a.devices && !a.devices[device].revoked && a.devices[device].credentialVersion == a.user.deviceVersion
  }

  // ---- runs ----

  datatype Event =
    | Login(password: int)
    | DeviceLogin(device: int, password: int)
    | Enroll(token: int, password: int)
    | RevokeDevice(device: int, password: int)
    | RecoverRead(code: int)
    | RecoverCommit(request: int, newPassword: int)
    | RotateRead(password: int)
    | RotateCommit(request: int)
    | Logout(token: int)
    | Consent(token: int, client: string, grantId: int, scopes: set<Scope>)
    | Disconnect(client: string)
    | ProviderWrites(key: ArtifactKey, artifact: Artifact)
    | Write(client: string, grantId: int, now: int)
    | OtherService

  datatype Outcome =
    | Denied
    | Done
    | Authenticated(token: int)
    | DidEnroll(device: int)
    | DeviceAuthenticated(device: int, token: int)
    | Began(request: int)
    | DidRecover(code: int, token: int, published: int)
    | DidRotate(replaced: Option<int>, published: int)
    | DidConsent(client: string, grantId: int, token: int)
    | DidDisconnect(client: string)
    | DidWrite(client: string, grantId: int)

  datatype Request = RecoverRequest(seen: Snapshot) | RotateRequest(seen: Snapshot)

  /** Signed tokens name the session version they were minted for; requests in flight hold their snapshot. */
  datatype World = World(account: Account, tokens: map<int, int>, inFlight: map<int, Request>,
                         nextId: int, log: seq<Outcome>)

  function Mint(w: World, version: int): World {
    w.(tokens := w.tokens[w.nextId := version], nextId := w.nextId + 1)
  }

  function Begin(w: World, request: Request): World {
    w.(inFlight := w.inFlight[w.nextId := request], nextId := w.nextId + 1)
  }

  predicate CurrentToken(w: World, token: int) {
    token in w.tokens && w.tokens[token] == w.account.user.sessionVersion
  }

  /** One atomic step: the world it leaves and the answer, before the answer is logged. */
  function Act(w: World, e: Event): (World, Outcome) {
    var a, u := w.account, w.account.user;
    match e
    case Login(password) =>
      if password != u.password then (w, Denied)
      else (Mint(w, u.sessionVersion), Authenticated(w.nextId))
    case DeviceLogin(device, password) =>
      if !DeviceUsable(a, device) || password != u.password then (w, Denied)
      else (Mint(w, u.sessionVersion), DeviceAuthenticated(device, w.nextId))
    case Enroll(token, password) =>
      if !CurrentToken(w, token) || password != u.password then (w, Denied)
      else (w.(account := a.(devices := a.devices[w.nextId := Device(u.deviceVersion, false)]), nextId := w.nextId + 1),
            DidEnroll(w.nextId))
    case RevokeDevice(device, password) =>
      if device !in a.devices || password != u.password then (w, Denied)
      else (w.(account := a.(devices := a.devices[device := a.devices[device].(revoked := true)])), Done)
    case RecoverRead(code) =>
      if u.recoveryCode != Some(code) then (w, Denied)
      else (Begin(w, RecoverRequest(Read(u))), Began(w.nextId))
    case RecoverCommit(request, newPassword) =>
      if request !in w.inFlight || !w.inFlight[request].RecoverRequest? || w.inFlight[request].seen.recoveryCode.None?
         || !RecoveryStillHolds(u, w.inFlight[request].seen) then (w, Denied)
      else
        var seen := w.inFlight[request].seen;
        var next := w.(account := Recovered(a, newPassword, w.nextId), nextId := w.nextId + 1);
        (Mint(next, seen.sessionVersion + 1), DidRecover(seen.recoveryCode.value, next.nextId, w.nextId))
    case RotateRead(password) =>
      if password != u.password then (w, Denied) else (Begin(w, RotateRequest(Read(u))), Began(w.nextId))
    case RotateCommit(request) =>
      if request !in w.inFlight || !w.inFlight[request].RotateRequest?
         || !RotationStillHolds(u, w.inFlight[request].seen) then (w, Denied)
      else (w.(account := Rotated(a, w.nextId), nextId := w.nextId + 1), DidRotate(u.recoveryCode, w.nextId))
    case Logout(token) =>
      if !CurrentToken(w, token) then (w, Denied) else (w.(account := LoggedOut(a)), Done)
    case Consent(token, client, grantId, scopes) =>
      if !CurrentToken(w, token) then (w, Denied)
      else (w.(account := Consented(a, client, grantId, scopes)), DidConsent(client, grantId, token))
    case Disconnect(client) => (w.(account := Disconnected(a, client)), DidDisconnect(client))
    case ProviderWrites(key, artifact) => (w.(account := a.(artifacts := a.artifacts[key := artifact])), Done)
    case Write(client, grantId, now) =>
      if GrantActive(a, client, grantId, now) then (w, DidWrite(client, grantId)) else (w, Denied)
    case OtherService => (w, Done)
  }

  function Step(w: World, e: Event): World {
    var r := Act(w, e);
    r.0.(log := w.log + [r.1])
  }

  function Run(w: World, events: seq<Event>): World
    decreases |events|
  {
    if events == [] then w else Run(Step(w, events[0]), events[1..])
  }

  // ---- history ----

  /** No recovery was logged after position `i` and before position `j`. */
  ghost predicate NoRecoveryBetween(log: seq<Outcome>, i: int, j: int) {
    forall k :: i < k < j && 0 <= k < |log| ==> !log[k].DidRecover?
  }

  predicate Authenticates(o: Outcome, token: int) {
    match o
    case Authenticated(t) => t == token
    case DeviceAuthenticated(_, t) => t == token
    case DidRecover(_, t, _) => t == token
    case _ => false
  }

  /** At position `k` the account proved its password or recovery code for this token; no recovery followed. */
  ghost predicate ProvedAt(log: seq<Outcome>, k: int, token: int, j: int) {
    0 <= k < |log| && Authenticates(log[k], token) && NoRecoveryBetween(log, k, j)
  }

  ghost predicate AuthenticatedSinceRecovery(log: seq<Outcome>, token: int, j: int) {
    exists k :: k < j && ProvedAt(log, k, token, j)
  }

  /** The user did not disconnect the client after position `i` and before position `j`. */
  ghost predicate NoDisconnectBetween(log: seq<Outcome>, i: int, j: int, client: string) {
    forall k :: i < k < j && 0 <= k < |log| ==> log[k] != DidDisconnect(client)
  }

  /** At position `i` the grant was consented to by a session authenticated, like it, after the last recovery;
      the client was not disconnected since. */
  ghost predicate BackedBy(log: seq<Outcome>, i: int, client: string, grantId: int, j: int) {
    && 0 <= i < j && i < |log| && log[i].DidConsent? && log[i].client == client && log[i].grantId == grantId
    && NoDisconnectBetween(log, i, j, client)
    && exists k :: k < i && ProvedAt(log, k, log[i].token, j)
  }

  ghost predicate StandingConsent(log: seq<Outcome>, client: string, grantId: int, j: int) {
    exists i :: BackedBy(log, i, client, grantId, j)
  }

  ghost predicate EnrolledAt(log: seq<Outcome>, i: int, device: int, j: int) {
    0 <= i < j && i < |log| && log[i] == DidEnroll(device) && NoRecoveryBetween(log, i, j)
  }

  ghost predicate EnrolledSinceRecovery(log: seq<Outcome>, device: int, j: int) {
    exists i :: EnrolledAt(log, i, device, j)
  }

  /** The code an outcome retired for good. */
  function Retires(o: Outcome): Option<int> {
    match o
    case DidRecover(code, _, _) => Some(code)
    case DidRotate(replaced, _) => replaced
    case _ => None
  }

  function Registered(password: int, code: nat): World {
    World(Account(User(password, Some(code), 0, 0, 0, None), map[], map[], map[]), map[], map[], code + 1, [])
  }

  ghost predicate TokensFresh(w: World) {
    forall t :: t in w.tokens ==>
      && t < w.nextId && w.tokens[t] <= w.account.user.sessionVersion
      && (w.tokens[t] == w.account.user.sessionVersion ==> AuthenticatedSinceRecovery(w.log, t, |w.log|))
  }

  ghost predicate ConsentsFresh(w: World) {
    forall c :: c in w.account.connections && !w.account.connections[c].revoked ==>
      StandingConsent(w.log, c, w.account.connections[c].grantId, |w.log|)
  }

  ghost predicate DevicesFresh(w: World) {
    forall d :: d in w.account.devices ==>
      d < w.nextId && (!w.account.devices[d].revoked ==> EnrolledSinceRecovery(w.log, d, |w.log|))
  }

  ghost predicate CodesRetired(w: World) {
    && (w.account.user.recoveryCode.Some? ==> w.account.user.recoveryCode.value < w.nextId)
    && (forall i :: 0 <= i < |w.log| && Retires(w.log[i]).Some? ==>
          Retires(w.log[i]).value < w.nextId && w.account.user.recoveryCode != Retires(w.log[i]))
  }

  ghost predicate Inv(w: World) {
    TokensFresh(w) && ConsentsFresh(w) && DevicesFresh(w) && CodesRetired(w)
  }

  // ---- history only grows ----

  lemma ProofStaysFresh(log: seq<Outcome>, o: Outcome, token: int)
    requires !o.DidRecover? && AuthenticatedSinceRecovery(log, token, |log|)
    ensures AuthenticatedSinceRecovery(log + [o], token, |log| + 1)
  {
    var k :| k < |log| && ProvedAt(log, k, token, |log|);
    assert ProvedAt(log + [o], k, token, |log| + 1);
  }

  lemma ConsentStaysFresh(log: seq<Outcome>, o: Outcome, client: string, grantId: int)
    requires !o.DidRecover? && o != DidDisconnect(client) && StandingConsent(log, client, grantId, |log|)
    ensures StandingConsent(log + [o], client, grantId, |log| + 1)
  {
    var i :| BackedBy(log, i, client, grantId, |log|);
    var k :| k < i && ProvedAt(log, k, log[i].token, |log|);
    assert ProvedAt(log + [o], k, (log + [o])[i].token, |log| + 1);
    assert BackedBy(log + [o], i, client, grantId, |log| + 1);
  }

  lemma EnrollmentStaysFresh(log: seq<Outcome>, o: Outcome, device: int)
    requires !o.DidRecover? && EnrolledSinceRecovery(log, device, |log|)
    ensures EnrolledSinceRecovery(log + [o], device, |log| + 1)
  {
    var i :| EnrolledAt(log, i, device, |log|);
    assert EnrolledAt(log + [o], i, device, |log| + 1);
  }

  lemma StepKeepsTokens(w: World, e: Event)
    requires TokensFresh(w)
    ensures TokensFresh(Step(w, e))
  {
    hide AuthenticatedSinceRecovery, GrantActive, DeviceUsable, WithoutGrants, GrantsOf;
    var v, o := Step(w, e), Act(w, e).1;
    forall t | t in v.tokens && v.tokens[t] == v.account.user.sessionVersion
      ensures AuthenticatedSinceRecovery(v.log, t, |v.log|)
    {
      if Authenticates(o, t) {
        NewestProof(w.log, o, t);
      } else {
        UnmintedTokenStays(w, e, t);
        ProofStaysFresh(w.log, o, t);
      }
    }
    assert forall t :: t in v.tokens ==> t < v.nextId && v.tokens[t] <= v.account.user.sessionVersion;
  }

  lemma NewestProof(log: seq<Outcome>, o: Outcome, t: int)
    requires Authenticates(o, t)
    ensures AuthenticatedSinceRecovery(log + [o], t, |log| + 1)
  {
    assert ProvedAt(log + [o], |log|, t, |log| + 1);
  }

  lemma UnmintedTokenStays(w: World, e: Event, t: int)
    requires TokensFresh(w)
    requires var v := Step(w, e);
      t in v.tokens && v.tokens[t] == v.account.user.sessionVersion && !Authenticates(Act(w, e).1, t)
    ensures t in w.tokens && w.tokens[t] == w.account.user.sessionVersion && !Act(w, e).1.DidRecover?
  {
    hide AuthenticatedSinceRecovery, GrantActive, DeviceUsable, WithoutGrants, GrantsOf;
  }

  lemma StepKeepsConsents(w: World, e: Event)
    requires TokensFresh(w) && ConsentsFresh(w)
    ensures ConsentsFresh(Step(w, e))
  {
    hide StandingConsent, AuthenticatedSinceRecovery, GrantActive, DeviceUsable, WithoutGrants, GrantsOf;
    var v, o := Step(w, e), Act(w, e).1;
    forall c | c in v.account.connections && !v.account.connections[c].revoked
      ensures StandingConsent(v.log, c, v.account.connections[c].grantId, |v.log|)
    {
      if e.Consent? && e.client == c && o.DidConsent? {
        NewestConsent(w.log, o);
      } else {
        ConsentStaysFresh(w.log, o, c, v.account.connections[c].grantId);
      }
    }
  }

  lemma NewestConsent(log: seq<Outcome>, o: Outcome)
    requires o.DidConsent? && AuthenticatedSinceRecovery(log, o.token, |log|)
    ensures StandingConsent(log + [o], o.client, o.grantId, |log| + 1)
  {
    var k :| k < |log| && ProvedAt(log, k, o.token, |log|);
    assert ProvedAt(log + [o], k, o.token, |log| + 1);
    assert BackedBy(log + [o], |log|, o.client, o.grantId, |log| + 1);
  }

  lemma StepKeepsDevices(w: World, e: Event)
    requires DevicesFresh(w)
    ensures DevicesFresh(Step(w, e))
  {
    hide EnrolledSinceRecovery, GrantActive, WithoutGrants, GrantsOf;
    var v, o := Step(w, e), Act(w, e).1;
    forall d | d in v.account.devices && !v.account.devices[d].revoked
      ensures EnrolledSinceRecovery(v.log, d, |v.log|)
    {
      if o == DidEnroll(d) {
        NewestEnrollment(w.log, d);
      } else {
        EnrollmentStaysFresh(w.log, o, d);
      }
    }
  }

  lemma NewestEnrollment(log: seq<Outcome>, d: int)
    ensures EnrolledSinceRecovery(log + [DidEnroll(d)], d, |log| + 1)
  {
    assert EnrolledAt(log + [DidEnroll(d)], |log|, d, |log| + 1);
  }

  lemma StepKeepsCodes(w: World, e: Event)
    requires CodesRetired(w)
    ensures CodesRetired(Step(w, e))
  {
    hide GrantActive, WithoutGrants, GrantsOf, DeviceUsable;
  }

  lemma StepKeepsInvariant(w: World, e: Event)
    requires Inv(w)
    ensures Inv(Step(w, e))
  {
    hide TokensFresh, ConsentsFresh, DevicesFresh, CodesRetired, Step;
    StepKeepsTokens(w, e);
    StepKeepsConsents(w, e);
    StepKeepsDevices(w, e);
    StepKeepsCodes(w, e);
  }

  lemma {:induction false} RunKeepsInvariant(w: World, events: seq<Event>)
    requires Inv(w)
    ensures Inv(Run(w, events))
    decreases |events|
  {
    hide Inv, Step;
    if events != [] {
      StepKeepsInvariant(w, events[0]);
      RunKeepsInvariant(Step(w, events[0]), events[1..]);
    }
  }

  // ---- whole runs ----

  lemma {:induction false} LogGrows(w: World, events: seq<Event>)
    ensures |Run(w, events).log| == |w.log| + |events| && w.log <= Run(w, events).log
    decreases |events|
  {
    hide Act;
    if events != [] {
      LogGrows(Step(w, events[0]), events[1..]);
    }
  }

  lemma {:induction false} RunSplit(w: World, a: seq<Event>, b: seq<Event>)
    ensures Run(w, a + b) == Run(Run(w, a), b)
    decreases |a|
  {
    hide Step;
    if a == [] {
      assert a + b == b;
    } else {
      assert (a + b)[1..] == a[1..] + b;
      RunSplit(Step(w, a[0]), a[1..], b);
    }
  }

  /** The world just before event `j` has the first `j` answers in its log, and the next answer is its own. */
  lemma LogAt(w: World, events: seq<Event>, j: nat)
    requires w.log == [] && j < |events|
    ensures var before := Run(w, events[..j]);
      && |Run(w, events).log| == |events| && before.log == Run(w, events).log[..j]
      && Run(w, events).log[j] == Act(before, events[j]).1
  {
    hide Act;
    var before := Run(w, events[..j]);
    assert events == events[..j] + events[j..];
    RunSplit(w, events[..j], events[j..]);
    LogGrows(w, events[..j]);
    LogGrows(w, events);
    assert events[j..][0] == events[j];
    LogGrows(Step(before, events[j]), events[j..][1..]);
    assert Step(before, events[j]).log[j] == Act(before, events[j]).1;
  }

  /** Only recovery and logout move the session version, each by one, upwards. */
  lemma SessionVersionStep(w: World, e: Event)
    ensures Step(w, e).account.user.sessionVersion == w.account.user.sessionVersion
      + (if Act(w, e).1.DidRecover? || (e.Logout? && Act(w, e).1.Done?) then 1 else 0)
  {
    hide GrantActive, DeviceUsable, WithoutGrants, GrantsOf;
  }

  lemma {:induction false} SessionVersionOnlyGrows(w: World, events: seq<Event>)
    ensures Run(w, events).account.user.sessionVersion >= w.account.user.sessionVersion
    decreases |events|
  {
    hide Step, Act;
    if events != [] {
      SessionVersionStep(w, events[0]);
      SessionVersionOnlyGrows(Step(w, events[0]), events[1..]);
    }
  }

  /** A code that was used for a recovery, or replaced, never recovers the account again. */
  lemma RecoveryCodesWorkOnce(password: int, code: nat, events: seq<Event>, i: nat, j: nat)
    requires i < j < |events|
    ensures var log := Run(Registered(password, code), events).log;
      |log| == |events|
      && (Retires(log[i]).Some? && log[j].DidRecover? ==> log[j].code != Retires(log[i]).value)
  {
    hide Run, TokensFresh, ConsentsFresh, DevicesFresh, WithoutGrants, GrantsOf;
    var w := Registered(password, code);
    LogAt(w, events, i);
    LogAt(w, events, j);
    InitialInvariant(password, code);
    RunKeepsInvariant(w, events[..j]);
    var before := Run(w, events[..j]);
    assert before.log[i] == Run(w, events).log[i];
  }

  lemma InitialInvariant(password: int, code: nat)
    ensures Inv(Registered(password, code))
  {
  }

  /** Every committed grant-checked write rests on a consent and a session newer than the last recovery, and on a
      consent newer than the last time the user disconnected the client. */
  lemma WritesFollowFreshConsent(password: int, code: nat, events: seq<Event>, j: nat)
    requires j < |events|
    ensures var log := Run(Registered(password, code), events).log;
      |log| == |events|
      && (log[j].DidWrite? ==> StandingConsent(log[..j], log[j].client, log[j].grantId, j))
  {
    hide Run, TokensFresh, DevicesFresh, CodesRetired, StandingConsent, WithoutGrants, GrantsOf;
    var w := Registered(password, code);
    LogAt(w, events, j);
    InitialInvariant(password, code);
    RunKeepsInvariant(w, events[..j]);
  }

  /** A trusted device that logs in was enrolled after the last recovery. */
  lemma DeviceLoginsFollowFreshEnrollment(password: int, code: nat, events: seq<Event>, j: nat)
    requires j < |events|
    ensures var log := Run(Registered(password, code), events).log;
      |log| == |events| && (log[j].DeviceAuthenticated? ==> EnrolledSinceRecovery(log[..j], log[j].device, j))
  {
    hide Run, TokensFresh, ConsentsFresh, CodesRetired, EnrolledSinceRecovery, WithoutGrants, GrantsOf;
    var w := Registered(password, code);
    LogAt(w, events, j);
    InitialInvariant(password, code);
    RunKeepsInvariant(w, events[..j]);
  }

  /** At the moment of a recovery no grant, grant artifact or trusted device survives; a logout keeps them all. */
  lemma RecoveryCutsEverything(a: Account, newPassword: int, newCode: int)
    ensures var r := Recovered(a, newPassword, newCode);
      && (forall client, grantId, now :: !GrantActive(r, client, grantId, now))
      && (forall device :: !DeviceUsable(r, device))
      && (forall client :: client in a.connections ==>
            var grantId := a.connections[client].grantId;
            ArtifactKey(GrantModel, grantId) !in r.artifacts
            && forall k :: k in r.artifacts ==> r.artifacts[k].grantId != Some(grantId))
      && (forall k :: k in a.artifacts && k !in r.artifacts ==>
            exists client :: client in a.connections
              && (a.artifacts[k].grantId == Some(a.connections[client].grantId)
                  || k == ArtifactKey(GrantModel, a.connections[client].grantId)))
    ensures var l := LoggedOut(a);
      && l.connections == a.connections && l.artifacts == a.artifacts && l.devices == a.devices
      && (forall client, grantId, now :: GrantActive(l, client, grantId, now) <==> GrantActive(a, client, grantId, now))
      && (forall device :: DeviceUsable(l, device) <==> DeviceUsable(a, device))
  {
    var r := Recovered(a, newPassword, newCode);
    forall client | client in a.connections
      ensures ArtifactKey(GrantModel, a.connections[client].grantId) !in r.artifacts
      ensures forall k :: k in r.artifacts ==> r.artifacts[k].grantId != Some(a.connections[client].grantId)
    {
      assert a.connections[client].grantId in GrantsOf(a.connections);
    }
  }

  // ---- the stored account ----

  class Store {
    var user: User
    var connections: map<string, Connection>
    var artifacts: map<ArtifactKey, Artifact>
    var devices: map<int, Device>

    function Rows(): Account
      reads this
    {
      Account(user, connections, artifacts, devices)
    }

    constructor (password: int, code: int)
      ensures Rows() == Account(User(password, Some(code), 0, 0, 0, None), map[], map[], map[])
    {
      user := User(password, Some(code), 0, 0, 0, None);
      connections, artifacts, devices := map[], map[], map[];
    }

    /** Second half of a recovery: the conditional update and its revocations, in one transaction. */
    method RecoverPassword(seen: Snapshot, newPassword: int, newCode: int) returns (session: Option<int>)
      modifies this
      ensures if RecoveryStillHolds(old(user), seen)
        then Rows() == Recovered(old(Rows()), newPassword, newCode) && session == Some(user.sessionVersion)
        else Rows() == old(Rows()) && session == None
    {
      if !(user.recoveryCode == seen.recoveryCode && user.sessionVersion == seen.sessionVersion) {
        return None;
      }
      user := User(newPassword, Some(newCode), user.sessionVersion + 1, user.deviceVersion + 1, 0, None);
      devices := map d | d in devices :: devices[d].(revoked := true);
      var grants := GrantsOf(connections);
      connections := map c | c in connections :: connections[c].(revoked := true);
      if grants != {} {
        artifacts := WithoutGrants(artifacts, grants);
      } else {
        assert artifacts == WithoutGrants(artifacts, {});
      }
      assert GrantsOf(old(connections)) == grants;
      return Some(seen.sessionVersion + 1);
    }

    method RotateRecoveryCode(seen: Snapshot, newCode: int) returns (rotated: bool)
      modifies `user
      ensures rotated == RotationStillHolds(old(user), seen)
      ensures Rows() == if rotated then Rotated(old(Rows()), newCode) else old(Rows())
    {
      rotated := user.password == seen.password && user.sessionVersion == seen.sessionVersion
                 && user.recoveryCode == seen.recoveryCode;
      if rotated {
        user := user.(recoveryCode := Some(newCode));
      }
    }

    method RevokeAuthToken(tokenVersion: int)
      modifies `user
      ensures Rows() == if tokenVersion == old(user).sessionVersion then LoggedOut(old(Rows())) else old(Rows())
    {
      if user.sessionVersion == tokenVersion {
        user := user.(sessionVersion := user.sessionVersion + 1);
      }
    }

    method PersistOAuthConsent(sessionVersion: int, client: string, grantId: int, scopes: set<Scope>)
      returns (persisted: bool)
      modifies `connections
      ensures persisted == (sessionVersion == user.sessionVersion)
      ensures Rows() == if persisted then Consented(old(Rows()), client, grantId, scopes) else old(Rows())
    {
      if user.sessionVersion != sessionVersion {
        return false;
      }
      if client in connections {
        var renewed := connections[client].(grantId := grantId, scopes := scopes, revoked := false);
        connections := connections[client := renewed];
      } else {
        connections := connections[client := Connection(grantId, scopes, false)];
      }
      return true;
    }

    method RevokeClientGrant(client: string) returns (revoked: bool)
      modifies `connections, `artifacts
      ensures revoked == (client in old(connections) && !old(connections)[client].revoked)
      ensures Rows() == Disconnected(old(Rows()), client)
    {
      if client !in connections || connections[client].revoked {
        return false;
      }
      var grantId := connections[client].grantId;
      connections := connections[client := connections[client].(revoked := true)];
      artifacts := WithoutGrants(artifacts, {grantId});
      return true;
    }
  }
}
