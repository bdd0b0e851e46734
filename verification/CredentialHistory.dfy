/** Which passwords and recovery codes an account answers to, told from its history alone. */
module CredentialHistory {
  import opened Wrappers
  import opened Sessions

  // ---- what the history says ----

  /** The code last published: at registration, or by the latest recovery or rotation. */
  function LastCode(code: int, log: seq<Outcome>): int {
    if log == [] then code
    else
      match log[|log| - 1]
      case DidRecover(_, _, published) => published
      case DidRotate(_, published) => published
      case _ => LastCode(code, log[..|log| - 1])
  }

  /** The password last set: at registration, or by the latest recovery. */
  function LastPassword(password: int, events: seq<Event>, log: seq<Outcome>): int
    requires |events| == |log|
  {
    if log == [] then password
    else
      var n := |log| - 1;
      if log[n].DidRecover? && events[n].RecoverCommit? then events[n].newPassword
      else LastPassword(password, events[..n], log[..n])
  }

  /** At position `i` a request was begun by presenting the code or password in force. */
  ghost predicate BegunAt(i: int, id: int, request: Request, password: int, code: int, events: seq<Event>,
                          log: seq<Outcome>)
    requires |events| == |log|
  {
    && 0 <= i < |log| && log[i] == Began(id)
    && match request
       case RecoverRequest(seen) =>
         && seen.recoveryCode == Some(LastCode(code, log[..i])) && events[i] == RecoverRead(LastCode(code, log[..i]))
       case RotateRequest(seen) =>
         && seen.password == LastPassword(password, events[..i], log[..i])
         && events[i] == RotateRead(LastPassword(password, events[..i], log[..i]))
  }

  ghost predicate WasBegun(id: int, request: Request, password: int, code: int, events: seq<Event>,
                           log: seq<Outcome>)
    requires |events| == |log|
  {
    exists i :: BegunAt(i, id, request, password, code, events, log)
  }

  ghost predicate RequestsWereBegun(w: World, password: int, code: int, events: seq<Event>)
    requires |events| == |w.log|
  {
    forall id :: id in w.inFlight ==> WasBegun(id, w.inFlight[id], password, code, events, w.log)
  }

  ghost predicate Told(w: World, password: int, code: int, events: seq<Event>) {
    && |events| == |w.log|
    && w.account.user.password == LastPassword(password, events, w.log)
    && w.account.user.recoveryCode == Some(LastCode(code, w.log))
    && RequestsWereBegun(w, password, code, events)
  }

  // ---- every run keeps to it ----

  lemma CredentialStep(w: World, e: Event, password: int, code: int, events: seq<Event>)
    requires Told(w, password, code, events)
    ensures var v := Step(w, e);
      && v.account.user.password == LastPassword(password, events + [e], v.log)
      && v.account.user.recoveryCode == Some(LastCode(code, v.log))
  {
    hide RequestsWereBegun, GrantActive, DeviceUsable, WithoutGrants, GrantsOf;
    var v := Step(w, e);
    assert v.log[..|w.log|] == w.log && (events + [e])[..|events|] == events;
  }

  lemma StaysBegun(id: int, request: Request, password: int, code: int, events: seq<Event>, log: seq<Outcome>,
                   e: Event, o: Outcome)
    requires |events| == |log| && WasBegun(id, request, password, code, events, log)
    ensures WasBegun(id, request, password, code, events + [e], log + [o])
  {
    hide LastCode, LastPassword;
    var i :| BegunAt(i, id, request, password, code, events, log);
    assert (events + [e])[..i] == events[..i] && (log + [o])[..i] == log[..i];
    assert BegunAt(i, id, request, password, code, events + [e], log + [o]);
  }

  lemma NewlyBegun(w: World, e: Event, password: int, code: int, events: seq<Event>)
    requires Told(w, password, code, events) && (e.RecoverRead? || e.RotateRead?) && Act(w, e).1.Began?
    ensures var v := Step(w, e);
      && v.inFlight == w.inFlight[w.nextId := v.inFlight[w.nextId]]
      && WasBegun(w.nextId, v.inFlight[w.nextId], password, code, events + [e], v.log)
  {
    hide RequestsWereBegun, LastCode, LastPassword;
    var v, n := Step(w, e), |w.log|;
    assert (events + [e])[..n] == events && v.log[..n] == w.log;
    assert BegunAt(n, w.nextId, v.inFlight[w.nextId], password, code, events + [e], v.log);
  }

  lemma OthersBeginNothing(w: World, e: Event)
    requires !((e.RecoverRead? || e.RotateRead?) && Act(w, e).1.Began?)
    ensures Step(w, e).inFlight == w.inFlight
  {
    hide GrantActive, DeviceUsable, WithoutGrants, GrantsOf;
  }

  lemma RequestStep(w: World, e: Event, password: int, code: int, events: seq<Event>)
    requires Told(w, password, code, events)
    ensures RequestsWereBegun(Step(w, e), password, code, events + [e])
  {
    hide WasBegun, LastCode, LastPassword;
    var v, began := Step(w, e), (e.RecoverRead? || e.RotateRead?) && Act(w, e).1.Began?;
    if began {
      NewlyBegun(w, e, password, code, events);
    } else {
      OthersBeginNothing(w, e);
    }
    hide Act;
    forall id | id in v.inFlight
      ensures WasBegun(id, v.inFlight[id], password, code, events + [e], v.log)
    {
      if !(began && id == w.nextId) {
        StaysBegun(id, w.inFlight[id], password, code, events, w.log, e, Act(w, e).1);
      }
    }
  }

  lemma {:induction false} RunIsTold(password: int, code: nat, events: seq<Event>)
    ensures Told(Run(Registered(password, code), events), password, code, events)
    decreases |events|
  {
    hide Told, Step;
    if events == [] {
      NothingToTell(password, code);
    } else {
      var n := |events| - 1;
      var w := Run(Registered(password, code), events[..n]);
      RunIsTold(password, code, events[..n]);
      RunSplit(Registered(password, code), events[..n], [events[n]]);
      assert events[..n] + [events[n]] == events;
      assert Run(w, [events[n]]) == Step(w, events[n]);
      StepIsTold(w, events[n], password, code, events[..n]);
    }
  }

  lemma NothingToTell(password: int, code: nat)
    ensures Told(Registered(password, code), password, code, [])
  {
  }

  lemma StepIsTold(w: World, e: Event, password: int, code: int, events: seq<Event>)
    requires Told(w, password, code, events)
    ensures Told(Step(w, e), password, code, events + [e])
  {
    CredentialStep(w, e, password, code, events);
    RequestStep(w, e, password, code, events);
    hide Act, RequestsWereBegun, LastCode, LastPassword;
  }

  lemma ToldAt(password: int, code: nat, events: seq<Event>, j: nat)
    requires j < |events|
    ensures var w, before := Registered(password, code), Run(Registered(password, code), events[..j]);
      && |Run(w, events).log| == |events| && before.log == Run(w, events).log[..j]
      && Run(w, events).log[j] == Act(before, events[j]).1
      && Told(before, password, code, events[..j])
  {
    hide Act, Told;
    LogAt(Registered(password, code), events, j);
    RunIsTold(password, code, events[..j]);
  }

  // ---- recovery codes ----

  /** A recovery begins exactly when the code presented is the one last published. */
  lemma CodesAreChecked(password: int, code: nat, events: seq<Event>, j: nat)
    requires j < |events| && events[j].RecoverRead?
    ensures var log := Run(Registered(password, code), events).log;
      && |log| == |events|
      && if events[j].code == LastCode(code, log[..j]) then log[j].Began? else log[j] == Denied
  {
    hide Run, LastCode, LastPassword, RequestsWereBegun;
    ToldAt(password, code, events, j);
  }

  /** A recovery was begun by presenting the code it retires, which was and still is the one last published. */
  lemma RecoveriesPresentTheCode(password: int, code: nat, events: seq<Event>, j: nat)
    requires j < |events|
    ensures var log := Run(Registered(password, code), events).log;
      && |log| == |events|
      && (log[j].DidRecover? ==>
            && events[j].RecoverCommit? && log[j].code == LastCode(code, log[..j])
            && exists i :: 0 <= i < j && events[i] == RecoverRead(log[j].code) && log[i] == Began(events[j].request)
                           && log[j].code == LastCode(code, log[..i]))
  {
    hide Run, LastCode, LastPassword;
    ToldAt(password, code, events, j);
    var log, before := Run(Registered(password, code), events).log, Run(Registered(password, code), events[..j]);
    if log[j].DidRecover? {
      RecoveryCommits(before, events[j]);
      var id := events[j].request;
      assert WasBegun(id, before.inFlight[id], password, code, events[..j], before.log);
      var i :| BegunAt(i, id, before.inFlight[id], password, code, events[..j], before.log);
      assert log[..j][..i] == log[..i] && events[..j][i] == events[i] && log[..j][i] == log[i];
    }
  }

  lemma RecoveryCommits(w: World, e: Event)
    requires Act(w, e).1.DidRecover?
    ensures e.RecoverCommit? && e.request in w.inFlight && w.inFlight[e.request].RecoverRequest?
    ensures w.account.user.recoveryCode == w.inFlight[e.request].seen.recoveryCode == Some(Act(w, e).1.code)
  {
    hide GrantActive, DeviceUsable, WithoutGrants, GrantsOf;
  }

  /** A code that was used or replaced is turned away wherever it is presented. */
  lemma RetiredCodesAreDenied(password: int, code: nat, events: seq<Event>, i: nat, j: nat)
    requires i < j < |events| && events[j].RecoverRead?
    ensures var log := Run(Registered(password, code), events).log;
      && |log| == |events| && (Retires(log[i]) == Some(events[j].code) ==> log[j] == Denied)
  {
    hide Run, Told, TokensFresh, ConsentsFresh, DevicesFresh;
    ToldAt(password, code, events, j);
    InitialInvariant(password, code);
    RunKeepsInvariant(Registered(password, code), events[..j]);
    var log, before := Run(Registered(password, code), events).log, Run(Registered(password, code), events[..j]);
    assert before.log[i] == log[i];
  }

  // ---- passwords ----

  /** Logins and rotations begin exactly with the password last set; device steps only with it. */
  lemma PasswordsAreChecked(password: int, code: nat, events: seq<Event>, j: nat)
    requires j < |events|
    ensures var log := Run(Registered(password, code), events).log;
      && |log| == |events|
      && var current, o := LastPassword(password, events[..j], log[..j]), log[j];
      match events[j]
      case Login(p) => if p == current then o.Authenticated? else o == Denied
      case RotateRead(p) => if p == current then o.Began? else o == Denied
      case DeviceLogin(_, p) => if p == current then o.DeviceAuthenticated? || o == Denied else o == Denied
      case Enroll(_, p) => if p == current then o.DidEnroll? || o == Denied else o == Denied
      case RevokeDevice(_, p) => if p == current then o == Done || o == Denied else o == Denied
      case _ => !o.Authenticated? && !o.DeviceAuthenticated? && !o.DidEnroll?
  {
    hide Run, LastCode, LastPassword, RequestsWereBegun, DeviceUsable, GrantActive, WithoutGrants, GrantsOf;
    ToldAt(password, code, events, j);
  }

  /** A rotation was begun with the password that is still the one last set. */
  lemma RotationsPresentThePassword(password: int, code: nat, events: seq<Event>, j: nat)
    requires j < |events|
    ensures var log := Run(Registered(password, code), events).log;
      && |log| == |events|
      && (log[j].DidRotate? ==>
            && events[j].RotateCommit? && log[j].replaced == Some(LastCode(code, log[..j]))
            && exists i :: 0 <= i < j && log[i] == Began(events[j].request)
                           && events[i] == RotateRead(LastPassword(password, events[..j], log[..j])))
  {
    hide Run, LastCode, LastPassword;
    ToldAt(password, code, events, j);
    var log, before := Run(Registered(password, code), events).log, Run(Registered(password, code), events[..j]);
    if log[j].DidRotate? {
      RotationCommits(before, events[j]);
      var id := events[j].request;
      assert WasBegun(id, before.inFlight[id], password, code, events[..j], before.log);
      var i :| BegunAt(i, id, before.inFlight[id], password, code, events[..j], before.log);
      assert events[..j][i] == events[i] && log[..j][i] == log[i];
    }
  }

  lemma RotationCommits(w: World, e: Event)
    requires Act(w, e).1.DidRotate?
    ensures e.RotateCommit? && e.request in w.inFlight && w.inFlight[e.request].RotateRequest?
    ensures w.account.user.password == w.inFlight[e.request].seen.password
    ensures Act(w, e).1.replaced == w.account.user.recoveryCode
  {
    hide GrantActive, DeviceUsable, WithoutGrants, GrantsOf;
  }

  // ---- sessions ----

  /** A session just opened is current; a recovery leaves no other session current, and a logout none at all. */
  lemma SessionsOpenAndEnd(w: World, e: Event)
    requires Inv(w)
    ensures var o, v := Act(w, e).1, Step(w, e);
      && (forall t :: Authenticates(o, t) ==> CurrentToken(v, t))
      && (o.DidRecover? ==> forall t :: CurrentToken(v, t) ==> Authenticates(o, t))
      && (e.Logout? && o == Done ==> forall t :: !CurrentToken(v, t))
  {
    hide ConsentsFresh, DevicesFresh, CodesRetired, AuthenticatedSinceRecovery, GrantActive, DeviceUsable,
      WithoutGrants, GrantsOf;
  }
}
