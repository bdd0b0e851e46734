/** Which tokens, devices and grants an account honours, told from its history alone. */
module AccountHistory {
  import opened Wrappers
  import opened Sessions
  import opened CredentialHistory

  // ---- what the history says ----

  /** A token lives from its login until a logout or a recovery that did not mint it. */
  predicate LiveToken(token: int, events: seq<Event>, log: seq<Outcome>)
    requires |events| == |log|
  {
    log != [] &&
    var n := |log| - 1;
    if Authenticates(log[n], token) then true
    else if log[n].DidRecover? || (events[n].Logout? && log[n] == Done) then false
    else LiveToken(token, events[..n], log[..n])
  }

  /** A device lives from its enrollment until it is revoked or the account recovered. */
  predicate LiveDevice(device: int, events: seq<Event>, log: seq<Outcome>)
    requires |events| == |log|
  {
    log != [] &&
    var n := |log| - 1;
    if log[n] == DidEnroll(device) then true
    else if log[n].DidRecover? || (events[n].RevokeDevice? && events[n].device == device && log[n] == Done) then false
    else LiveDevice(device, events[..n], log[..n])
  }

  /** The grant and scopes a client last got consent for, unless it was disconnected or the account recovered since. */
  function LiveConsent(client: string, events: seq<Event>, log: seq<Outcome>): Option<(int, set<Scope>)>
    requires |events| == |log|
  {
    if log == [] then None
    else
      var n := |log| - 1;
      if log[n].DidConsent? && events[n].Consent? && events[n].client == client
      then Some((events[n].grantId, events[n].scopes))
      else if log[n].DidRecover? || log[n] == DidDisconnect(client) then None
      else LiveConsent(client, events[..n], log[..n])
  }

  predicate ConnectedTo(a: Account, client: string, live: Option<(int, set<Scope>)>) {
    match live
    case None => client in a.connections ==> a.connections[client].revoked
    case Some((grantId, scopes)) =>
      client in a.connections && a.connections[client] == Connection(grantId, scopes, false)
  }

  ghost predicate Honoured(w: World, events: seq<Event>) {
    && |events| == |w.log|
    && (forall t :: CurrentToken(w, t) <==> LiveToken(t, events, w.log))
    && (forall t :: t in w.tokens ==> t < w.nextId && w.tokens[t] <= w.account.user.sessionVersion)
    && (forall d :: DeviceUsable(w.account, d) <==> LiveDevice(d, events, w.log))
    && (forall d :: d in w.account.devices ==>
          d < w.nextId
          && (!w.account.devices[d].revoked ==> w.account.devices[d].credentialVersion == w.account.user.deviceVersion))
    && (forall c :: ConnectedTo(w.account, c, LiveConsent(c, events, w.log)))
  }

  // ---- every step keeps to it ----

  /** A token is current after a step that mints it, or if it was and the step neither recovers nor logs out. */
  lemma TokenAct(w: World, e: Event, t: int)
    requires w.nextId !in w.tokens && (t in w.tokens ==> w.tokens[t] <= w.account.user.sessionVersion)
    requires w.nextId + 1 !in w.tokens
    ensures var o := Act(w, e).1;
      CurrentToken(Step(w, e), t) <==>
      Authenticates(o, t) || (CurrentToken(w, t) && !o.DidRecover? && !(e.Logout? && o == Done))
    ensures t in Step(w, e).tokens ==> Step(w, e).tokens[t] <= Step(w, e).account.user.sessionVersion
    ensures t in Step(w, e).tokens ==> t in w.tokens || t < Step(w, e).nextId
    ensures w.nextId <= Step(w, e).nextId
  {
    hide GrantActive, DeviceUsable, WithoutGrants, GrantsOf;
  }

  lemma TokenStep(w: World, e: Event, events: seq<Event>, t: int)
    requires Honoured(w, events)
    ensures CurrentToken(Step(w, e), t) <==> LiveToken(t, events + [e], Step(w, e).log)
    ensures t in Step(w, e).tokens ==>
      t < Step(w, e).nextId && Step(w, e).tokens[t] <= Step(w, e).account.user.sessionVersion
  {
    hide Act, CurrentToken, DeviceUsable, LiveDevice, LiveConsent, ConnectedTo;
    var v := Step(w, e);
    assert v.log[..|w.log|] == w.log && (events + [e])[..|events|] == events;
    assert CurrentToken(w, t) <==> LiveToken(t, events, w.log);
    TokenAct(w, e, t);
  }

  /** A device is usable after a step when the step enrolls it, or when it was and the step cuts nothing off. */
  lemma DeviceAct(w: World, e: Event, d: int)
    requires w.nextId !in w.account.devices
    requires d in w.account.devices && !w.account.devices[d].revoked ==>
      w.account.devices[d].credentialVersion == w.account.user.deviceVersion
    ensures var o, v := Act(w, e).1, Step(w, e);
      && (DeviceUsable(v.account, d) <==>
            o == DidEnroll(d)
            || (DeviceUsable(w.account, d) && !o.DidRecover? && !(e.RevokeDevice? && e.device == d && o == Done)))
      && (d in v.account.devices ==>
            && (d in w.account.devices || d < v.nextId)
            && (!v.account.devices[d].revoked ==>
                  v.account.devices[d].credentialVersion == v.account.user.deviceVersion))
      && w.nextId <= v.nextId
  {
    hide GrantActive, WithoutGrants, GrantsOf, CurrentToken;
  }

  lemma DeviceStep(w: World, e: Event, events: seq<Event>, d: int)
    requires Honoured(w, events)
    ensures DeviceUsable(Step(w, e).account, d) <==> LiveDevice(d, events + [e], Step(w, e).log)
    ensures d in Step(w, e).account.devices ==>
      var device := Step(w, e).account.devices[d];
      d < Step(w, e).nextId
      && (!device.revoked ==> device.credentialVersion == Step(w, e).account.user.deviceVersion)
  {
    hide Act, CurrentToken, DeviceUsable, LiveToken, LiveConsent, ConnectedTo;
    var v := Step(w, e);
    assert v.log[..|w.log|] == w.log && (events + [e])[..|events|] == events;
    assert DeviceUsable(w.account, d) <==> LiveDevice(d, events, w.log);
    DeviceAct(w, e, d);
  }

  lemma ConsentStep(w: World, e: Event, events: seq<Event>, c: string)
    requires Honoured(w, events)
    ensures ConnectedTo(Step(w, e).account, c, LiveConsent(c, events + [e], Step(w, e).log))
  {
    var v := Step(w, e);
    assert v.log[..|w.log|] == w.log && (events + [e])[..|events|] == events;
    assert ConnectedTo(w.account, c, LiveConsent(c, events, w.log));
    hide GrantActive, DeviceUsable, WithoutGrants, GrantsOf, LiveToken, LiveDevice;
  }

  lemma StepIsHonoured(w: World, e: Event, events: seq<Event>)
    requires Honoured(w, events)
    ensures Honoured(Step(w, e), events + [e])
  {
    hide Act, CurrentToken, DeviceUsable, LiveToken, LiveDevice, LiveConsent, ConnectedTo;
    forall t {
      TokenStep(w, e, events, t);
    }
    forall d {
      DeviceStep(w, e, events, d);
    }
    forall c {
      ConsentStep(w, e, events, c);
    }
  }

  lemma {:induction false} RunIsHonoured(password: int, code: nat, events: seq<Event>)
    ensures Honoured(Run(Registered(password, code), events), events)
    decreases |events|
  {
    hide Honoured, Step;
    if events == [] {
      NothingIsHonoured(password, code);
    } else {
      var n := |events| - 1;
      var w := Run(Registered(password, code), events[..n]);
      RunIsHonoured(password, code, events[..n]);
      RunSplit(Registered(password, code), events[..n], [events[n]]);
      assert events[..n] + [events[n]] == events;
      assert Run(w, [events[n]]) == Step(w, events[n]);
      StepIsHonoured(w, events[n], events[..n]);
    }
  }

  lemma NothingIsHonoured(password: int, code: nat)
    ensures Honoured(Registered(password, code), [])
  {
  }

  lemma HonouredAt(password: int, code: nat, events: seq<Event>, j: nat)
    requires j < |events|
    ensures var w, before := Registered(password, code), Run(Registered(password, code), events[..j]);
      && |Run(w, events).log| == |events| && before.log == Run(w, events).log[..j]
      && Run(w, events).log[j] == Act(before, events[j]).1
      && Honoured(before, events[..j])
  {
    hide Act, Honoured;
    LogAt(Registered(password, code), events, j);
    RunIsHonoured(password, code, events[..j]);
  }

  // ---- what each request needs ----

  /** A trusted device logs in exactly with the current password while it lives. */
  lemma DeviceLoginsExactly(password: int, code: nat, events: seq<Event>, j: nat)
    requires j < |events| && events[j].DeviceLogin?
    ensures var log := Run(Registered(password, code), events).log;
      && |log| == |events|
      && if LiveDevice(events[j].device, events[..j], log[..j])
            && events[j].password == LastPassword(password, events[..j], log[..j])
         then log[j].DeviceAuthenticated? && log[j].device == events[j].device else log[j] == Denied
  {
    hide Run, LastCode, LastPassword, RequestsWereBegun, LiveDevice, LiveToken, LiveConsent, DeviceUsable, GrantActive,
      WithoutGrants, GrantsOf;
    ToldAt(password, code, events, j);
    HonouredAt(password, code, events, j);
  }

  /** Enrolling takes a live session and the current password, a logout a live session, a consent a live session. */
  lemma SessionStepsExactly(password: int, code: nat, events: seq<Event>, j: nat)
    requires j < |events|
    ensures var log := Run(Registered(password, code), events).log;
      && |log| == |events|
      && match events[j]
         case Enroll(token, p) =>
           if LiveToken(token, events[..j], log[..j]) && p == LastPassword(password, events[..j], log[..j])
           then log[j].DidEnroll? else log[j] == Denied
         case Logout(token) => if LiveToken(token, events[..j], log[..j]) then log[j] == Done else log[j] == Denied
         case Consent(token, client, grantId, _) =>
           if LiveToken(token, events[..j], log[..j]) then log[j] == DidConsent(client, grantId, token)
           else log[j] == Denied
         case _ => !log[j].DidEnroll? && !log[j].DidConsent?
  {
    hide Run, LastCode, LastPassword, RequestsWereBegun, LiveDevice, LiveToken, LiveConsent, DeviceUsable, GrantActive,
      WithoutGrants, GrantsOf, CurrentToken;
    ToldAt(password, code, events, j);
    HonouredAt(password, code, events, j);
  }

  /**
   * A grant-checked write passes exactly when the last consent of its client is for its grant and both scopes, nothing
   * cut it off since, and the stored grant has not expired.
   */
  lemma WritesExactly(password: int, code: nat, events: seq<Event>, j: nat)
    requires j < |events| && events[j].Write?
    ensures var log, a := Run(Registered(password, code), events).log,
                          Run(Registered(password, code), events[..j]).account;
      && |log| == |events|
      && var e, consent := events[j], LiveConsent(events[j].client, events[..j], log[..j]);
      var key := ArtifactKey(GrantModel, e.grantId);
      if consent.Some? && consent.value.0 == e.grantId && FinanceRead in consent.value.1
            && FinanceWrite in consent.value.1 && key in a.artifacts
            && (a.artifacts[key].expiresAt.Some? ==> e.now < a.artifacts[key].expiresAt.value)
         then log[j] == DidWrite(e.client, e.grantId) else log[j] == Denied
  {
    hide Run, LiveDevice, LiveToken, LiveConsent, DeviceUsable, CurrentToken, WithoutGrants, GrantsOf;
    HonouredAt(password, code, events, j);
    var log := Run(Registered(password, code), events).log;
    var before := Run(Registered(password, code), events[..j]);
    assert ConnectedTo(before.account, events[j].client, LiveConsent(events[j].client, events[..j], before.log));
  }

  // ---- requests in flight ----

  /** A step that changes the recovery code or the session version, and with it every snapshot taken before. */
  predicate Outdates(e: Event, o: Outcome) {
    o.DidRecover? || o.DidRotate? || (e.Logout? && o == Done)
  }

  /** Whether a request begun by a recovery (or else a rotation) is still up to date. */
  predicate LiveRequest(id: int, recovery: bool, events: seq<Event>, log: seq<Outcome>)
    requires |events| == |log|
  {
    log != [] &&
    var n := |log| - 1;
    if log[n] == Began(id) then events[n].RecoverRead? == recovery
    else !Outdates(events[n], log[n]) && LiveRequest(id, recovery, events[..n], log[..n])
  }

  ghost predicate Snapshots(w: World, events: seq<Event>) {
    && |events| == |w.log|
    && w.account.user.recoveryCode.Some? && w.account.user.recoveryCode.value < w.nextId
    && (forall id :: id in w.inFlight ==> SeenBefore(w, id))
    && (forall id :: UpToDate(w, id, true) <==> LiveRequest(id, true, events, w.log))
    && (forall id :: UpToDate(w, id, false) <==> LiveRequest(id, false, events, w.log))
  }

  /** Versions and codes only grow, so a snapshot never comes back into force. */
  predicate SeenBefore(w: World, id: int)
    requires id in w.inFlight && w.account.user.recoveryCode.Some?
  {
    var seen, u := w.inFlight[id].seen, w.account.user;
    && id < w.nextId && seen.sessionVersion <= u.sessionVersion
    && seen.recoveryCode.Some? && seen.recoveryCode.value <= u.recoveryCode.value
    && (seen.sessionVersion == u.sessionVersion && seen.recoveryCode == u.recoveryCode ==> seen.password == u.password)
  }

  predicate UpToDate(w: World, id: int, recovery: bool) {
    && id in w.inFlight && w.inFlight[id].RecoverRequest? == recovery
    && RecoveryStillHolds(w.account.user, w.inFlight[id].seen)
  }

  lemma RequestStep(w: World, e: Event, events: seq<Event>, id: int, recovery: bool)
    requires Snapshots(w, events)
    ensures UpToDate(Step(w, e), id, recovery) <==> LiveRequest(id, recovery, events + [e], Step(w, e).log)
  {
    var v := Step(w, e);
    assert v.log[..|w.log|] == w.log && (events + [e])[..|events|] == events;
    assert UpToDate(w, id, recovery) <==> LiveRequest(id, recovery, events, w.log);
    hide GrantActive, DeviceUsable, WithoutGrants, GrantsOf;
  }

  lemma SnapshotStep(w: World, e: Event, events: seq<Event>, id: int)
    requires Snapshots(w, events)
    ensures var v := Step(w, e);
      && v.account.user.recoveryCode.Some? && v.account.user.recoveryCode.value < v.nextId
      && (id in v.inFlight ==> SeenBefore(v, id))
  {
    hide GrantActive, DeviceUsable, WithoutGrants, GrantsOf, LiveRequest, UpToDate;
  }

  lemma StepKeepsSnapshots(w: World, e: Event, events: seq<Event>)
    requires Snapshots(w, events)
    ensures Snapshots(Step(w, e), events + [e])
  {
    hide Act, UpToDate, LiveRequest, SeenBefore;
    var v := Step(w, e);
    SnapshotStep(w, e, events, 0);
    forall id | id in v.inFlight
      ensures SeenBefore(v, id)
    {
      SnapshotStep(w, e, events, id);
    }
    forall id, recovery {
      RequestStep(w, e, events, id, recovery);
    }
  }

  lemma {:induction false} RunKeepsSnapshots(password: int, code: nat, events: seq<Event>)
    ensures Snapshots(Run(Registered(password, code), events), events)
    decreases |events|
  {
    hide Snapshots, Step;
    if events == [] {
      NoSnapshots(password, code);
    } else {
      var n := |events| - 1;
      var w := Run(Registered(password, code), events[..n]);
      RunKeepsSnapshots(password, code, events[..n]);
      RunSplit(Registered(password, code), events[..n], [events[n]]);
      assert events[..n] + [events[n]] == events;
      assert Run(w, [events[n]]) == Step(w, events[n]);
      StepKeepsSnapshots(w, events[n], events[..n]);
    }
  }

  lemma NoSnapshots(password: int, code: nat)
    ensures Snapshots(Registered(password, code), [])
  {
  }

  /** A recovery or rotation commits exactly when no recovery, rotation or logout came after it was begun. */
  lemma CommitsExactly(password: int, code: nat, events: seq<Event>, j: nat)
    requires j < |events| && (events[j].RecoverCommit? || events[j].RotateCommit?)
    ensures var log := Run(Registered(password, code), events).log;
      && |log| == |events|
      && if LiveRequest(events[j].request, events[j].RecoverCommit?, events[..j], log[..j])
         then (if events[j].RecoverCommit? then log[j].DidRecover? else log[j].DidRotate?)
         else log[j] == Denied
  {
    hide Run, GrantActive, DeviceUsable, WithoutGrants, GrantsOf, LiveRequest;
    LogAt(Registered(password, code), events, j);
    RunKeepsSnapshots(password, code, events[..j]);
    var before := Run(Registered(password, code), events[..j]);
    assert UpToDate(before, events[j].request, events[j].RecoverCommit?)
        <==> LiveRequest(events[j].request, events[j].RecoverCommit?, events[..j], before.log);
  }
}
