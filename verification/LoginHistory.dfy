/** What a trusted-device login presented, told from the history of the account. */
module LoginHistory {
  import opened Wrappers
  import opened TrustedDevices

  /** The password last set: at registration, or by the latest recovery. */
  function CurrentPassword(password: string, events: seq<Event>): string {
    if events == [] then password
    else
      match events[|events| - 1]
      case RecoverEvent(newPassword, _) => newPassword
      case _ => CurrentPassword(password, events[..|events| - 1])
  }

  ghost predicate EnrolledBy(s: State, events: seq<Event>, i: int, id: int, d: Device) {
    && 0 <= i < |events| && events[i].EnrollEvent? && OutcomeAt(s, events, i) == Enrolled(id)
    && d.secret == events[i].secret && d.expiresAt == Run(s, events[..i]).clock - events[i].age + 2592000000
    && d.credentialVersion == Run(s, events[..i]).user.deviceVersion
  }

  ghost predicate OpenedBy(s: State, events: seq<Event>, i: int, id: int, c: Challenge) {
    && 0 <= i < |events| && events[i].BeginEvent? && OutcomeAt(s, events, i) == Opened(id)
    && c.device == events[i].device && c.nonce == events[i].nonce
    && c.expiresAt == Run(s, events[..i]).clock + events[i].wait + 180000
  }

  ghost predicate StartedBy(s: State, events: seq<Event>, i: int, id: int, r: Request) {
    && 0 <= i < |events| && events[i].StartEvent? && OutcomeAt(s, events, i) == Started(id)
    && r == Checked(events[i].device, events[i].secret, events[i].challenge, events[i].nonce,
                    Run(s, events[..i]).clock + events[i].wait)
  }

  /** Started at `i` with a challenge opened at `b` for the same device and nonce, still live then, and burnt at `k`. */
  ghost predicate ClaimedBy(s: State, events: seq<Event>, b: int, i: int, k: int, id: int, device: int, secret: int) {
    && 0 <= b < k < |events| && 0 <= i < k && events[k] == ClaimEvent(id)
    && events[b].BeginEvent? && events[i].StartEvent?
    && OutcomeAt(s, events, b) == Opened(events[i].challenge) && OutcomeAt(s, events, i) == Started(id)
    && OutcomeAt(s, events, k) == Burned(events[i].challenge)
    && events[b].device == events[i].device == device && events[i].secret == secret
    && events[b].nonce == events[i].nonce
    && Run(s, events[..i]).clock + events[i].wait < Run(s, events[..b]).clock + events[b].wait + 180000
  }

  ghost predicate WasEnrolled(s: State, events: seq<Event>, id: int, d: Device) {
    exists i :: EnrolledBy(s, events, i, id, d)
  }

  ghost predicate WasOpened(s: State, events: seq<Event>, id: int, c: Challenge) {
    exists i :: OpenedBy(s, events, i, id, c)
  }

  ghost predicate WasBegun(s: State, events: seq<Event>, id: int, r: Request) {
    match r
    case Checked(_, _, _, _, _) => exists i :: StartedBy(s, events, i, id, r)
    case Claimed(device, secret) => exists b, i, k :: ClaimedBy(s, events, b, i, k, id, device, secret)
  }

  ghost predicate Explained(s: State, events: seq<Event>) {
    var t := Run(s, events);
    && (forall d :: d in t.devices ==> WasEnrolled(s, events, d, t.devices[d]))
    && (forall c :: c in t.challenges ==> WasOpened(s, events, c, t.challenges[c]))
    && (forall r :: r in t.requests ==> WasBegun(s, events, r, t.requests[r]))
  }

  // ---- history only grows ----

  lemma OneMoreStep(s: State, events: seq<Event>, e: Event)
    ensures Run(s, events + [e]) == Step(Run(s, events), e)
    ensures OutcomeAt(s, events + [e], |events|) == Act(Run(s, events), e).1
  {
    hide Step, Act;
    RunSplit(s, events, [e]);
    assert [e][1..] == [];
    assert (events + [e])[..|events|] == events;
  }

  lemma OutcomesStay(s: State, events: seq<Event>, e: Event, i: nat)
    requires i < |events|
    ensures OutcomeAt(s, events + [e], i) == OutcomeAt(s, events, i)
    ensures (events + [e])[..i] == events[..i]
  {
    assert (events + [e])[..i] == events[..i];
  }

  lemma EnrollmentStays(s: State, events: seq<Event>, e: Event, id: int, d: Device)
    requires WasEnrolled(s, events, id, d)
    ensures WasEnrolled(s, events + [e], id, d)
  {
    hide Run, OutcomeAt;
    var i :| EnrolledBy(s, events, i, id, d);
    OutcomesStay(s, events, e, i);
    assert EnrolledBy(s, events + [e], i, id, d);
  }

  lemma OpeningStays(s: State, events: seq<Event>, e: Event, id: int, c: Challenge)
    requires WasOpened(s, events, id, c)
    ensures WasOpened(s, events + [e], id, c)
  {
    hide Run, OutcomeAt;
    var i :| OpenedBy(s, events, i, id, c);
    OutcomesStay(s, events, e, i);
    assert OpenedBy(s, events + [e], i, id, c);
  }

  lemma BeginningStays(s: State, events: seq<Event>, e: Event, id: int, r: Request)
    requires WasBegun(s, events, id, r)
    ensures WasBegun(s, events + [e], id, r)
  {
    hide Run, OutcomeAt;
    match r
    case Checked(_, _, _, _, _) =>
      var i :| StartedBy(s, events, i, id, r);
      OutcomesStay(s, events, e, i);
      assert StartedBy(s, events + [e], i, id, r);
    case Claimed(device, secret) =>
      var b, i, k :| ClaimedBy(s, events, b, i, k, id, device, secret);
      OutcomesStay(s, events, e, b);
      OutcomesStay(s, events, e, i);
      OutcomesStay(s, events, e, k);
      assert ClaimedBy(s, events + [e], b, i, k, id, device, secret);
  }

  // ---- what one step adds ----

  predicate IdsBelow(t: State) {
    && (forall d :: d in t.devices ==> d < t.nextId) && (forall c :: c in t.challenges ==> c < t.nextId)
    && (forall r :: r in t.requests ==> r < t.nextId)
  }

  /** A device is new by enrollment, or keeps its secret, its end and its credential version. */
  lemma DeviceStep(s: State, events: seq<Event>, e: Event, id: int)
    requires IdsBelow(Run(s, events)) && id in Step(Run(s, events), e).devices
    ensures var t, u := Run(s, events), Step(Run(s, events), e);
      if id in t.devices
      then u.devices[id].secret == t.devices[id].secret && u.devices[id].expiresAt == t.devices[id].expiresAt
           && u.devices[id].credentialVersion == t.devices[id].credentialVersion
      else WasEnrolled(s, events + [e], id, u.devices[id])
  {
    hide Run, OutcomeAt, Charge, Clear, Exhausted, UsableDevices, LiveChallenges, Swept, IsLive;
    OneMoreStep(s, events, e);
    if id !in Run(s, events).devices {
      assert (events + [e])[..|events|] == events;
      assert EnrolledBy(s, events + [e], |events|, id, Step(Run(s, events), e).devices[id]);
    }
  }

  lemma ChallengeStep(s: State, events: seq<Event>, e: Event, id: int)
    requires IdsBelow(Run(s, events)) && id in Step(Run(s, events), e).challenges
    ensures var t, u := Run(s, events), Step(Run(s, events), e);
      if id in t.challenges then u.challenges[id].(usedAt := None) == t.challenges[id].(usedAt := None)
      else WasOpened(s, events + [e], id, u.challenges[id])
  {
    hide Run, OutcomeAt, Charge, Clear, Exhausted, UsableDevices, LiveChallenges, IsLive;
    OneMoreStep(s, events, e);
    if id !in Run(s, events).challenges {
      assert (events + [e])[..|events|] == events;
      assert OpenedBy(s, events + [e], |events|, id, Step(Run(s, events), e).challenges[id]);
    }
  }

  lemma RequestStep(s: State, events: seq<Event>, e: Event, id: int)
    requires IdsBelow(Run(s, events)) && id in Step(Run(s, events), e).requests
    ensures var t, u := Run(s, events), Step(Run(s, events), e);
      || (id in t.requests && u.requests[id] == t.requests[id])
      || (id !in t.requests && u.requests[id].Checked? && WasBegun(s, events + [e], id, u.requests[id]))
      || (id in t.requests && t.requests[id].Checked? && e == ClaimEvent(id) && Claims(t, id)
          && u.requests[id] == Claimed(t.requests[id].device, t.requests[id].secret))
  {
    hide Run, OutcomeAt, Charge, Clear, Exhausted, UsableDevices, LiveChallenges, Swept, ValidDevice;
    OneMoreStep(s, events, e);
    if id !in Run(s, events).requests {
      assert (events + [e])[..|events|] == events;
      assert StartedBy(s, events + [e], |events|, id, Step(Run(s, events), e).requests[id]);
    }
  }

  /** What the conditional update of a claim checks of the challenge that a started login named. */
  predicate Claims(t: State, id: int)
    requires id in t.requests && t.requests[id].Checked?
  {
    var r := t.requests[id];
    && Claim(t, id).1 == Burned(r.challenge) && r.challenge in t.challenges
    && t.challenges[r.challenge].device == r.device && t.challenges[r.challenge].nonce == r.nonce
    && r.now < t.challenges[r.challenge].expiresAt
  }

  lemma ClaimIsExplained(s: State, events: seq<Event>, id: int)
    requires Explained(s, events) && id in Run(s, events).requests && Run(s, events).requests[id].Checked?
    requires Claims(Run(s, events), id)
    ensures var r := Run(s, events).requests[id];
      WasBegun(s, events + [ClaimEvent(id)], id, Claimed(r.device, r.secret))
  {
    hide Run, OutcomeAt, IsLive;
    var t, e, n := Run(s, events), ClaimEvent(id), |events|;
    var r := t.requests[id];
    var i :| StartedBy(s, events, i, id, r);
    assert WasOpened(s, events, r.challenge, t.challenges[r.challenge]);
    var b :| OpenedBy(s, events, b, r.challenge, t.challenges[r.challenge]);
    OneMoreStep(s, events, e);
    OutcomesStay(s, events, e, b);
    OutcomesStay(s, events, e, i);
    assert ClaimedBy(s, events + [e], b, i, n, id, r.device, r.secret);
  }

  lemma SameDevice(s: State, events: seq<Event>, id: int, c: Device, d: Device)
    requires WasEnrolled(s, events, id, c) && c.secret == d.secret && c.expiresAt == d.expiresAt
    requires c.credentialVersion == d.credentialVersion
    ensures WasEnrolled(s, events, id, d)
  {
    hide Run, OutcomeAt;
    var i :| EnrolledBy(s, events, i, id, c);
    assert EnrolledBy(s, events, i, id, d);
  }

  lemma SameChallenge(s: State, events: seq<Event>, id: int, c: Challenge, d: Challenge)
    requires WasOpened(s, events, id, c) && c.(usedAt := None) == d.(usedAt := None)
    ensures WasOpened(s, events, id, d)
  {
    hide Run, OutcomeAt;
    var i :| OpenedBy(s, events, i, id, c);
    assert OpenedBy(s, events, i, id, d);
  }

  lemma StepIsExplained(s: State, events: seq<Event>, e: Event)
    requires Explained(s, events) && IdsBelow(Run(s, events))
    ensures Explained(s, events + [e])
  {
    hide Act, Run, OutcomeAt, WasEnrolled, WasOpened, WasBegun, Claims, IdsBelow;
    var t, u := Run(s, events), Step(Run(s, events), e);
    OneMoreStep(s, events, e);
    forall d | d in u.devices
      ensures WasEnrolled(s, events + [e], d, u.devices[d])
    {
      DeviceStep(s, events, e, d);
      if d in t.devices {
        EnrollmentStays(s, events, e, d, t.devices[d]);
        SameDevice(s, events + [e], d, t.devices[d], u.devices[d]);
      }
    }
    forall c | c in u.challenges
      ensures WasOpened(s, events + [e], c, u.challenges[c])
    {
      ChallengeStep(s, events, e, c);
      if c in t.challenges {
        OpeningStays(s, events, e, c, t.challenges[c]);
        SameChallenge(s, events + [e], c, t.challenges[c], u.challenges[c]);
      }
    }
    forall r | r in u.requests
      ensures WasBegun(s, events + [e], r, u.requests[r])
    {
      RequestStep(s, events, e, r);
      if r in t.requests && u.requests[r] == t.requests[r] {
        BeginningStays(s, events, e, r, t.requests[r]);
      } else if r in t.requests {
        ClaimIsExplained(s, events, r);
      }
    }
  }

  lemma {:induction false} RunIsExplained(email: string, password: string, clock: int, events: seq<Event>)
    ensures Explained(Fresh(email, password, clock), events)
    ensures IdsBelow(Run(Fresh(email, password, clock), events))
    decreases |events|
  {
    var s := Fresh(email, password, clock);
    FreshInvariant(email, password, clock);
    RunKeepsInvariant(s, events);
    if events != [] {
      var front, last := events[..|events| - 1], events[|events| - 1];
      RunIsExplained(email, password, clock, front);
      StepIsExplained(s, front, last);
      assert front + [last] == events;
    }
    hide Explained, Run, BudgetInv, FewLive, FewDevices, Step;
  }

  // ---- passwords ----

  lemma UserStep(t: State, e: Event)
    ensures var u := Step(t, e).user;
      u.email == t.user.email && u.password == if e.RecoverEvent? then e.newPassword else t.user.password
  {
    hide Charge, Clear, Exhausted, UsableDevices, LiveChallenges, Swept, IsLive, ValidDevice;
  }

  lemma {:induction false} PasswordIsTold(email: string, password: string, clock: int, events: seq<Event>)
    ensures var u := Run(Fresh(email, password, clock), events).user;
      u.password == CurrentPassword(password, events) && u.email == email
    decreases |events|
  {
    hide Step;
    if events != [] {
      var front, last := events[..|events| - 1], events[|events| - 1];
      PasswordIsTold(email, password, clock, front);
      OneMoreStep(Fresh(email, password, clock), front, last);
      UserStep(Run(Fresh(email, password, clock), front), last);
      assert front + [last] == events;
    }
  }

  /** A confirmation is done only with the current password, and a wrong one never changes a device. */
  lemma ConfirmationsNeedThePassword(email: string, password: string, clock: int, events: seq<Event>, j: nat)
    requires j < |events| && (events[j].EnrollEvent? || events[j].RevokeEvent?)
    requires events[j].password != CurrentPassword(password, events[..j])
    ensures var s := Fresh(email, password, clock);
      && (OutcomeAt(s, events, j).Denied? || OutcomeAt(s, events, j).Limited?)
      && Step(Run(s, events[..j]), events[j]).devices == Run(s, events[..j]).devices
  {
    PasswordIsTold(email, password, clock, events[..j]);
    hide Run, Charge, Clear, Exhausted, UsableDevices, LiveChallenges, Swept, IsLive, ValidDevice, Fresh;
  }

  // ---- logins ----

  lemma LoginChecks(t: State, e: Event)
    requires Act(t, e).1.LoggedIn?
    ensures e.FinishEvent? && e.password == t.user.password && e.email == t.user.email
    ensures Act(t, e).1 == LoggedIn(t.user.sessionVersion)
    ensures e.request in t.requests && t.requests[e.request].Claimed? && t.requests[e.request].device in t.devices
    ensures var d := t.devices[t.requests[e.request].device];
      && !d.revoked && d.secret == t.requests[e.request].secret && d.credentialVersion == t.user.deviceVersion
      && t.clock + e.wait < d.expiresAt
  {
    hide Charge, Clear, Exhausted, UsableDevices, LiveChallenges, Swept, IsLive;
  }

  /**
   * Every login presented the current password and e-mail; it was started, with the secret the device was enrolled
   * with, on a challenge opened for that device and nonce less than three minutes before, which it burnt. The device
   * was enrolled under the current credential version, less than thirty days before.
   */
  lemma LoginsPresentEverything(email: string, password: string, clock: int, events: seq<Event>, j: nat)
    requires j < |events| && OutcomeAt(Fresh(email, password, clock), events, j).LoggedIn?
    ensures var s := Fresh(email, password, clock);
      var t := Run(s, events[..j]);
      && events[j].FinishEvent? && events[j].password == CurrentPassword(password, events[..j])
      && events[j].email == email && OutcomeAt(s, events, j) == LoggedIn(t.user.sessionVersion)
      && exists b, i, k, n, device, secret ::
           && ClaimedBy(s, events[..j], b, i, k, events[j].request, device, secret)
           && device in t.devices && !t.devices[device].revoked && t.devices[device].secret == secret
           && EnrolledBy(s, events[..j], n, device, t.devices[device])
           && t.devices[device].credentialVersion == t.user.deviceVersion
           && t.clock + events[j].wait < t.devices[device].expiresAt
  {
    hide Run, Act, Fresh, IdsBelow, ClaimedBy, EnrolledBy;
    var s := Fresh(email, password, clock);
    var t, e := Run(s, events[..j]), events[j];
    PasswordIsTold(email, password, clock, events[..j]);
    RunIsExplained(email, password, clock, events[..j]);
    LoginChecks(t, e);
    var device, secret := t.requests[e.request].device, t.requests[e.request].secret;
    assert WasBegun(s, events[..j], e.request, t.requests[e.request]);
    var b, i, k :| ClaimedBy(s, events[..j], b, i, k, e.request, device, secret);
    assert WasEnrolled(s, events[..j], device, t.devices[device]);
    var n :| EnrolledBy(s, events[..j], n, device, t.devices[device]);
  }

  // ---- revoked devices ----

  lemma RevokedStep(t: State, e: Event, id: int)
    requires id in t.devices && id < t.nextId && t.devices[id].revoked
    ensures var u := Step(t, e);
      id in u.devices && id < u.nextId && u.devices[id].revoked && u.devices[id].secret == t.devices[id].secret
  {
    hide Charge, Clear, Exhausted, UsableDevices, LiveChallenges, Swept, IsLive;
  }

  lemma {:induction false} RevokedStaysRevoked(t: State, events: seq<Event>, id: int)
    requires id in t.devices && id < t.nextId && t.devices[id].revoked
    ensures id in Run(t, events).devices && Run(t, events).devices[id].revoked
    decreases |events|
  {
    hide Step;
    if events != [] {
      RevokedStep(t, events[0], id);
      RevokedStaysRevoked(Step(t, events[0]), events[1..], id);
    }
  }

  /** After its revocation, or after a recovery, a device enrolled before never logs in again. */
  lemma RevokedDevicesStayOut(email: string, password: string, clock: int, events: seq<Event>, i: nat, j: nat, id: int)
    requires i < j < |events| && id in Run(Fresh(email, password, clock), events[..i]).devices
    requires var e, o := events[i], OutcomeAt(Fresh(email, password, clock), events, i);
      e.RecoverEvent? || (e.RevokeEvent? && e.device == id && o.Done?)
    ensures var t := Run(Fresh(email, password, clock), events[..j]);
      && id in t.devices && t.devices[id].revoked
      && (events[j].FinishEvent? && events[j].request in t.requests && t.requests[events[j].request].Claimed?
          && t.requests[events[j].request].device == id ==>
            !OutcomeAt(Fresh(email, password, clock), events, j).LoggedIn?)
  {
    var s := Fresh(email, password, clock);
    var at := Run(s, events[..i]);
    RunIsExplained(email, password, clock, events[..i]);
    RunSplit(s, events[..i], events[i..j]);
    assert events[..j] == events[..i] + events[i..j] && events[i..j][0] == events[i];
    RevocationHolds(at, events[i], id);
    RevokedStaysRevoked(Step(at, events[i]), events[i..j][1..], id);
    IdsOnlyGrow(at, events[i]);
    hide Explained, Step, Fresh, OutcomeAt;
    var t := Run(s, events[..j]);
    assert t == Run(Step(at, events[i]), events[i..j][1..]);
    hide Run;
    if events[j].FinishEvent? {
      FinishRefusesRevoked(t, events[j], id);
    }
    assert OutcomeAt(s, events, j) == Act(t, events[j]).1 by {
      OutcomeIsAct(s, events, j);
    }
  }

  lemma OutcomeIsAct(s: State, events: seq<Event>, j: nat)
    requires j < |events|
    ensures OutcomeAt(s, events, j) == Act(Run(s, events[..j]), events[j]).1
  {
  }

  lemma IdsOnlyGrow(t: State, e: Event)
    ensures Step(t, e).nextId >= t.nextId
  {
    hide Charge, Clear, Exhausted, UsableDevices, LiveChallenges, Swept, IsLive, ValidDevice;
  }

  lemma RevocationHolds(t: State, e: Event, id: int)
    requires id in t.devices && id < t.nextId
    requires e.RecoverEvent? || (e.RevokeEvent? && e.device == id && Act(t, e).1.Done?)
    ensures id in Step(t, e).devices && id < Step(t, e).nextId && Step(t, e).devices[id].revoked
  {
    hide Charge, Clear, Exhausted, UsableDevices, LiveChallenges, Swept, IsLive, ValidDevice;
  }

  lemma FinishRefusesRevoked(t: State, e: Event, id: int)
    requires e.FinishEvent? && id in t.devices && t.devices[id].revoked
    ensures e.request in t.requests && t.requests[e.request].Claimed? && t.requests[e.request].device == id ==>
      !Act(t, e).1.LoggedIn?
  {
    hide Charge, Clear, Exhausted, UsableDevices, LiveChallenges, Swept, IsLive;
  }

  // ---- what each request needs ----

  /** A device that could log in: its own secret, not revoked, not past its end, under the current version. */
  predicate CanLogIn(t: State, id: int, secret: int, at: int) {
    && id in t.devices && t.devices[id].secret == secret && !t.devices[id].revoked && at < t.devices[id].expiresAt
    && t.devices[id].credentialVersion == t.user.deviceVersion
  }

  /** Five wrong passwords in a window that began less than fifteen minutes before close a budget. */
  predicate Closed(b: Budget, at: int) {
    b.failures >= 5 && b.startedAt.Some? && at - b.startedAt.value < 900000
  }

  /** The devices an enrollment counts are those that could log in. */
  lemma CountedDevicesCanLogIn(t: State, id: int, at: int)
    ensures id in UsableDevices(t.devices, at, t.user.deviceVersion)
      <==> id in t.devices && CanLogIn(t, id, t.devices[id].secret, at)
  {
  }

  /** A challenge waits for its own device until it is used or three minutes have passed. */
  predicate Waits(c: Challenge, device: int, at: int) {
    c.device == device && c.usedAt == None && at < c.expiresAt
  }

  /**
   * A challenge is opened exactly for a device that could log in and has fewer than three waiting. Its own used and
   * expired ones are swept away on the way, and no other.
   */
  lemma OpeningIsExact(t: State, device: int, secret: int, nonce: int, now: int)
    requires forall k :: k in t.challenges ==> k < t.nextId
    ensures var r := Begin(t, device, secret, nonce, now);
      var waiting := set k | k in t.challenges && Waits(t.challenges[k], device, now);
      && (r.1.Opened? <==> CanLogIn(t, device, secret, now) && |waiting| < 3)
      && (!r.1.Opened? ==> r.1 == Denied)
      && (!CanLogIn(t, device, secret, now) ==> r.0 == t)
      && (CanLogIn(t, device, secret, now) ==>
            forall k :: k in t.challenges ==>
              if t.challenges[k].device != device || Waits(t.challenges[k], device, now)
              then k in r.0.challenges && r.0.challenges[k] == t.challenges[k] else k !in r.0.challenges)
      && (r.1.Opened? ==> r.0.challenges[r.1.challenge] == Challenge(device, nonce, now + 180000, None))
  {
    var waiting := set k | k in t.challenges && Waits(t.challenges[k], device, now);
    var swept := Swept(t.challenges, device, now);
    forall k ensures k in LiveChallenges(swept, device, now) <==> k in waiting {
      if k in t.challenges && Waits(t.challenges[k], device, now) {
        assert k in swept && swept[k] == t.challenges[k];
      }
    }
    assert LiveChallenges(swept, device, now) == waiting;
  }

  /**
   * A claimed login ends in a session exactly with e-mail and password, on an open budget of a device that could
   * log in.
   */
  lemma FinishIsExact(t: State, request: int, email: string, password: string, validAt: int, now: int, stamp: int)
    requires request in t.requests && t.requests[request].Claimed?
    ensures var r, id := Finish(t, request, email, password, validAt, now, stamp), t.requests[request].device;
      && request !in r.0.requests
      && if !CanLogIn(t, id, t.requests[request].secret, validAt) then r.1 == Denied && r.0.devices == t.devices
         else if Closed(t.devices[id].budget, now) then r.1 == Limited && r.0.devices == t.devices
         else if email == t.user.email && password == t.user.password then
           r.1 == LoggedIn(t.user.sessionVersion)
           && r.0.devices == t.devices[id := t.devices[id].(budget := r.0.devices[id].budget)]
           && r.0.devices[id].budget.failures == 0 && r.0.devices[id].budget.startedAt == None
         else
           r.1 == Denied && r.0.devices == t.devices[id := t.devices[id].(budget := r.0.devices[id].budget)]
           && Charged(t.devices[id].budget, r.0.devices[id].budget, now, stamp)
  {
  }

  /** One more failure in the window that is running, or the first of a new one. */
  predicate Charged(before: Budget, after: Budget, now: int, stamp: int) {
    if before.startedAt.Some? && now - before.startedAt.value < 900000
    then after.failures == before.failures + 1 && after.startedAt == before.startedAt
    else after.failures == 1 && after.startedAt == Some(stamp)
  }

  /**
   * A device is enrolled exactly by a current session that confirms the password on an open budget while fewer than
   * five devices could log in; it lives for thirty days.
   */
  lemma EnrollmentIsExact(t: State, version: int, password: string, secret: int, enteredAt: int, now: int, stamp: int)
    requires forall d :: d in t.devices ==> d < t.nextId
    ensures var r := Enroll(t, version, password, secret, enteredAt, now, stamp);
      var counted := set d | d in t.devices && CanLogIn(t, d, t.devices[d].secret, enteredAt);
      && (r.1.Enrolled? <==>
            && version == t.user.sessionVersion && !Closed(t.user.budget, now) && password == t.user.password
            && |counted| < 5)
      && (r.1.Enrolled? ==>
            && r.0.devices == t.devices[r.1.device :=
                 Device(secret, t.user.deviceVersion, false, enteredAt + 2592000000, Budget(0, None, []))]
            && r.1.device !in t.devices && r.0.user.budget.failures == 0)
      && (!r.1.Enrolled? ==> r.0.devices == t.devices)
      && (version == t.user.sessionVersion && !Closed(t.user.budget, now) && password != t.user.password ==>
            r.1 == Denied && Charged(t.user.budget, r.0.user.budget, now, stamp))
  {
    var counted := set d | d in t.devices && CanLogIn(t, d, t.devices[d].secret, enteredAt);
    assert UsableDevices(t.devices, enteredAt, t.user.deviceVersion) == counted;
  }

  /** A revocation takes the confirmed password and marks that one device. */
  lemma RevocationIsExact(t: State, device: int, password: string, now: int, stamp: int)
    ensures var r := Revoke(t, device, password, now, stamp);
      && (r.1 == Done <==> !Closed(t.user.budget, now) && password == t.user.password)
      && r.0.devices == (if r.1 == Done && device in t.devices
                         then t.devices[device := t.devices[device].(revoked := true)] else t.devices)
      && (r.1 == Done ==> r.0.user.budget.failures == 0)
      && (Closed(t.user.budget, now) ==> r == (t, Limited))
      && (!Closed(t.user.budget, now) && password != t.user.password ==>
            r.1 == Denied && Charged(t.user.budget, r.0.user.budget, now, stamp))
  {
  }

  /** A recovery sets password and versions anew, opens the confirmation budget and leaves no device that can log in. */
  lemma RecoveryStartsOver(t: State, newPassword: string, now: int)
    ensures var r := Recover(t, newPassword, now);
      && r.1 == Done && r.0.user.password == newPassword && r.0.user.email == t.user.email
      && r.0.user.sessionVersion == t.user.sessionVersion + 1 && r.0.user.deviceVersion == t.user.deviceVersion + 1
      && r.0.user.budget.failures == 0 && r.0.user.budget.startedAt == None
      && r.0.challenges == t.challenges && r.0.requests == t.requests
      && (forall id, secret, at :: !CanLogIn(r.0, id, secret, at))
      && (forall version, password, secret, at, stamp :: version <= t.user.sessionVersion ==>
            Enroll(r.0, version, password, secret, at, at, stamp).1 == Denied)
  {
  }
}
