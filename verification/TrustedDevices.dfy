/** Trusted-device login: single-use challenges and password budgets under a row lock. */
module TrustedDevices {
  import opened Wrappers

  // ---- the password budget of a device, and of an account's own confirmations ----

  const FAILURE_WINDOW: int := 900000
  const FAILURE_LIMIT: nat := 5
  const CHALLENGE_TTL: int := 180000
  const DEVICE_TTL: int := 2592000000
  const MAX_DEVICES: nat := 5
  const MAX_LIVE: nat := 3

  /** One evaluated password: wrong, with the window it counted in, or right. */
  datatype Entry = Wrong(at: int, start: int, ordinal: nat) | Cleared(at: int)

  /** The stored counter and window start. `trail` is the history of evaluations; no decision reads it. */
  datatype Budget = Budget(failures: nat, startedAt: Option<int>, trail: seq<Entry>)

  const UNUSED: Budget := Budget(0, None, [])

  predicate WindowLive(b: Budget, now: int) {
    b.startedAt.Some? && b.startedAt.value + FAILURE_WINDOW > now
  }

  predicate Exhausted(b: Budget, now: int) {
    WindowLive(b, now) && b.failures >= FAILURE_LIMIT
  }

  /** A wrong password checked at `now`; a new window is stamped a moment later, at `stamp`. */
  function Charge(b: Budget, now: int, stamp: int): Budget {
    var live := WindowLive(b, now);
    var failures := if live then b.failures + 1 else 1;
    var start := if live then b.startedAt.value else stamp;
    Budget(failures, Some(start), b.trail + [Wrong(now, start, failures)])
  }

  function Clear(b: Budget, now: int): Budget {
    Budget(0, None, b.trail + [Cleared(now)])
  }

  // ---- what every trail looks like ----

  predicate Follows(a: Entry, b: Entry) {
    && a.at <= b.at
    && (b.Wrong? && b.ordinal > 1 ==>
          a.Wrong? && a.start == b.start && b.ordinal == a.ordinal + 1 && b.at < b.start + FAILURE_WINDOW)
    && (a.Wrong? && b.Wrong? && b.ordinal == 1 ==> b.at >= a.start + FAILURE_WINDOW)
  }

  predicate WellCounted(e: Entry) {
    e.Wrong? ==> 1 <= e.ordinal <= FAILURE_LIMIT && (e.ordinal == 1 ==> e.start >= e.at)
  }

  ghost predicate BudgetInv(b: Budget, clock: int) {
    && (forall i :: 0 <= i < |b.trail| ==> WellCounted(b.trail[i]) && b.trail[i].at <= clock)
    && (forall i :: 0 < i < |b.trail| ==> Follows(b.trail[i - 1], b.trail[i]))
    && (b.trail != [] && b.trail[0].Wrong? ==> b.trail[0].ordinal == 1)
    && (if b.trail == [] || b.trail[|b.trail| - 1].Cleared? then b.failures == 0 && b.startedAt == None
        else b.failures == b.trail[|b.trail| - 1].ordinal && b.startedAt == Some(b.trail[|b.trail| - 1].start))
  }

  lemma ChargeKeepsBudget(b: Budget, clock: int, now: int, stamp: int)
    requires BudgetInv(b, clock) && clock <= now <= stamp && !Exhausted(b, now)
    ensures BudgetInv(Charge(b, now, stamp), stamp)
  {
  }

  lemma ClearKeepsBudget(b: Budget, clock: int, now: int)
    requires BudgetInv(b, clock) && clock <= now
    ensures BudgetInv(Clear(b, now), now)
  {
  }

  lemma {:induction false} TrailIsOrdered(b: Budget, clock: int, i: nat, j: nat)
    requires BudgetInv(b, clock) && i <= j < |b.trail|
    ensures b.trail[i].at <= b.trail[j].at
    decreases j
  {
    if i < j {
      TrailIsOrdered(b, clock, i, j - 1);
      assert Follows(b.trail[j - 1], b.trail[j]);
    }
  }

  predicate AllWrong(trail: seq<Entry>, i: nat, j: nat) {
    forall k :: i <= k < j && k < |trail| ==> trail[k].Wrong?
  }

  /** A window holds at most five wrong passwords, so a new one starts soon, and only after the old one ended. */
  lemma {:induction false} NextWindow(b: Budget, clock: int, i: nat) returns (f: nat)
    requires BudgetInv(b, clock) && i < |b.trail| && b.trail[i].Wrong?
    requires i + 6 - b.trail[i].ordinal < |b.trail| && AllWrong(b.trail, i, i + 7 - b.trail[i].ordinal)
    ensures i < f <= i + 6 - b.trail[i].ordinal && b.trail[f].Wrong? && b.trail[f].ordinal == 1
    ensures b.trail[f].at >= b.trail[i].start + FAILURE_WINDOW
    decreases 6 - b.trail[i].ordinal
  {
    var next := b.trail[i + 1];
    assert Follows(b.trail[i], next) && WellCounted(next) && next.Wrong?;
    if next.ordinal == 1 {
      return i + 1;
    }
    f := NextWindow(b, clock, i + 1);
  }

  /** Ten wrong passwords in a row, with no right one between, span at least a full window of fifteen minutes. */
  lemma TenFailuresSpanAWindow(b: Budget, clock: int, i: nat)
    requires BudgetInv(b, clock) && i + 10 <= |b.trail| && AllWrong(b.trail, i, i + 10)
    ensures b.trail[i + 9].at >= b.trail[i].at + FAILURE_WINDOW
  {
    assert b.trail[i].Wrong? && WellCounted(b.trail[i]);
    var f := NextWindow(b, clock, i);
    if b.trail[i].ordinal == 1 {
      TrailIsOrdered(b, clock, f, i + 9);
    } else {
      assert WellCounted(b.trail[f]);
      var g := NextWindow(b, clock, f);
      TrailIsOrdered(b, clock, i, f);
      TrailIsOrdered(b, clock, g, i + 9);
    }
  }

  /** Any half-open fifteen-minute interval contains at most nine wrong passwords between two right ones. */
  lemma NinePerInterval(b: Budget, clock: int, i: nat, j: nat, from: int)
    requires BudgetInv(b, clock) && i <= j <= |b.trail| && AllWrong(b.trail, i, j)
    requires forall k :: i <= k < j ==> from <= b.trail[k].at < from + FAILURE_WINDOW
    ensures j - i <= 9
  {
    if j - i >= 10 {
      TenFailuresSpanAWindow(b, clock, i);
    }
  }

  /** One window counts at most five. */
  lemma FivePerWindow(b: Budget, clock: int, i: nat, j: nat)
    requires BudgetInv(b, clock) && i <= j < |b.trail| && b.trail[i].Wrong?
    requires forall k :: i < k <= j ==> b.trail[k].Wrong? && b.trail[k].ordinal != 1
    ensures j - i < FAILURE_LIMIT
  {
    assert WellCounted(b.trail[i]);
    if j - i >= FAILURE_LIMIT {
      var f := NextWindow(b, clock, i);
    }
  }

  // ---- devices and challenges ----

  /** Secrets and nonces stand for their digests. */
  datatype Device = Device(secret: int, credentialVersion: int, revoked: bool, expiresAt: int, budget: Budget)
  datatype Challenge = Challenge(device: int, nonce: int, expiresAt: int, usedAt: Option<int>)
  datatype User = User(email: string, password: string, sessionVersion: int, deviceVersion: int, budget: Budget)

  /** A login between its first check, its claim and its locked finish. */
  datatype Request = Checked(device: int, secret: int, challenge: int, nonce: int, now: int)
                   | Claimed(device: int, secret: int)

  datatype State = State(user: User, devices: map<int, Device>, challenges: map<int, Challenge>,
                         requests: map<int, Request>, nextId: int, clock: int)

  predicate ValidDevice(d: Device, secret: int, now: int, deviceVersion: int) {
    d.secret == secret && !d.revoked && d.expiresAt > now && d.credentialVersion == deviceVersion
  }

  predicate IsLive(c: Challenge, device: int, now: int) {
    c.device == device && c.usedAt.None? && c.expiresAt > now
  }

  function LiveChallenges(challenges: map<int, Challenge>, device: int, now: int): set<int> {
    set k | k in challenges && IsLive(challenges[k], device, now)
  }

  function Swept(challenges: map<int, Challenge>, device: int, now: int): map<int, Challenge> {
    map k | k in challenges && !(challenges[k].device == device
                                 && (challenges[k].usedAt.Some? || challenges[k].expiresAt <= now)) :: challenges[k]
  }

  function UsableDevices(devices: map<int, Device>, now: int, deviceVersion: int): set<int> {
    set k | k in devices && !devices[k].revoked && devices[k].expiresAt > now
            && devices[k].credentialVersion == deviceVersion
  }

  datatype Outcome = Denied | Limited | Done | Opened(challenge: int) | Burned(challenge: int)
    | Started(request: int) | LoggedIn(sessionVersion: int) | Conflict | Enrolled(device: int)

  /** Opens a ceremony under the device's row lock: sweep, count, create. */
  function Begin(s: State, device: int, secret: int, nonce: int, now: int): (State, Outcome) {
    if device !in s.devices || !ValidDevice(s.devices[device], secret, now, s.user.deviceVersion) then (s, Denied)
    else
      var swept := Swept(s.challenges, device, now);
      if |LiveChallenges(swept, device, now)| >= MAX_LIVE then (s.(challenges := swept), Denied)
      else
        (s.(challenges := swept[s.nextId := Challenge(device, nonce, now + CHALLENGE_TTL, None)],
            nextId := s.nextId + 1),
         Opened(s.nextId))
  }

  function Start(s: State, device: int, secret: int, challenge: int, nonce: int, now: int): (State, Outcome) {
    if device !in s.devices || !ValidDevice(s.devices[device], secret, now, s.user.deviceVersion) then (s, Denied)
    else
      (s.(requests := s.requests[s.nextId := Checked(device, secret, challenge, nonce, now)], nextId := s.nextId + 1),
       Started(s.nextId))
  }

  /** The conditional update that burns a challenge, with the clock value read at the start of the login. */
  function Claim(s: State, request: int): (State, Outcome) {
    if request !in s.requests || !s.requests[request].Checked? then (s, Denied)
    else
      var r := s.requests[request];
      if r.challenge in s.challenges
         && IsLive(s.challenges[r.challenge], r.device, r.now) && s.challenges[r.challenge].nonce == r.nonce
      then
        (s.(challenges := s.challenges[r.challenge := s.challenges[r.challenge].(usedAt := Some(r.now))],
            requests := s.requests[request := Claimed(r.device, r.secret)]),
         Burned(r.challenge))
      else (s.(requests := s.requests - {request}), Denied)
  }

  /** The locked end of a login: quota, password, counters. */
  function Finish(s: State, request: int, email: string, password: string, validAt: int, now: int, stamp: int)
    : (State, Outcome)
  {
    if request !in s.requests || !s.requests[request].Claimed? then (s, Denied)
    else
      var id, t := s.requests[request].device, s.(requests := s.requests - {request});
      if id !in s.devices || !ValidDevice(s.devices[id], s.requests[request].secret, validAt, s.user.deviceVersion)
      then (t, Denied)
      else
        var d := s.devices[id];
        if Exhausted(d.budget, now) then (t, Limited)
        else if s.user.email == email && s.user.password == password then
          (t.(devices := s.devices[id := d.(budget := Clear(d.budget, now))]), LoggedIn(s.user.sessionVersion))
        else (t.(devices := s.devices[id := d.(budget := Charge(d.budget, now, stamp))]), Denied)
  }

  /** A password confirmation by a logged-in session, under the user's row lock. */
  function Reproof(s: State, password: string, now: int, stamp: int): (State, Outcome) {
    var u := s.user;
    if Exhausted(u.budget, now) then (s, Limited)
    else if password != u.password then (s.(user := u.(budget := Charge(u.budget, now, stamp))), Denied)
    else (s.(user := u.(budget := Clear(u.budget, now))), Done)
  }

  /** `enteredAt` is the clock value read before the lock was taken. */
  function Enroll(s: State, sessionVersion: int, password: string, secret: int, enteredAt: int, now: int, stamp: int)
    : (State, Outcome)
  {
    if sessionVersion != s.user.sessionVersion then (s, Denied)
    else
      var proved := Reproof(s, password, now, stamp);
      if !proved.1.Done? then proved
      else if |UsableDevices(s.devices, enteredAt, s.user.deviceVersion)| >= MAX_DEVICES then (s, Conflict)
      else
        var device := Device(secret, s.user.deviceVersion, false, enteredAt + DEVICE_TTL, UNUSED);
        (proved.0.(devices := s.devices[s.nextId := device], nextId := s.nextId + 1), Enrolled(s.nextId))
  }

  function Revoke(s: State, device: int, password: string, now: int, stamp: int): (State, Outcome) {
    var proved := Reproof(s, password, now, stamp);
    if !proved.1.Done? then proved
    else if device !in s.devices then proved
    else (proved.0.(devices := s.devices[device := s.devices[device].(revoked := true)]), Done)
  }

  /** Password recovery as this ceremony sees it. */
  function Recover(s: State, newPassword: string, now: int): (State, Outcome) {
    var u := s.user;
    (s.(user := u.(password := newPassword, sessionVersion := u.sessionVersion + 1,
                   deviceVersion := u.deviceVersion + 1, budget := Clear(u.budget, now)),
        devices := map d | d in s.devices :: s.devices[d].(revoked := true)),
     Done)
  }

  // ---- runs ----

  /** Times are given as waits since the previous step, so the clock never goes back. */
  datatype Event =
    | BeginEvent(device: int, secret: int, nonce: int, wait: nat)
    | StartEvent(device: int, secret: int, challenge: int, nonce: int, wait: nat)
    | ClaimEvent(request: int)
    | FinishEvent(request: int, email: string, password: string, wait: nat, check: nat, write: nat)
    | EnrollEvent(sessionVersion: int, password: string, secret: int, age: nat, wait: nat, write: nat)
    | RevokeEvent(device: int, password: string, wait: nat, write: nat)
    | RecoverEvent(newPassword: string, wait: nat)

  function Act(s: State, e: Event): (State, Outcome) {
    var now := s.clock + if e.ClaimEvent? then 0 else e.wait;
    match e
    case BeginEvent(device, secret, nonce, _) => Begin(s, device, secret, nonce, now)
    case StartEvent(device, secret, challenge, nonce, _) => Start(s, device, secret, challenge, nonce, now)
    case ClaimEvent(request) => Claim(s, request)
    case FinishEvent(request, email, password, _, check, write) =>
      Finish(s, request, email, password, now, now + check, now + check + write)
    case EnrollEvent(version, password, secret, age, _, write) =>
      Enroll(s, version, password, secret, s.clock - age, now, now + write)
    case RevokeEvent(device, password, _, write) => Revoke(s, device, password, now, now + write)
    case RecoverEvent(newPassword, _) => Recover(s, newPassword, now)
  }

  function Elapsed(e: Event): nat {
    match e
    case BeginEvent(_, _, _, wait) => wait
    case StartEvent(_, _, _, _, wait) => wait
    case ClaimEvent(_) => 0
    case FinishEvent(_, _, _, wait, check, write) => wait + check + write
    case EnrollEvent(_, _, _, _, wait, write) => wait + write
    case RevokeEvent(_, _, wait, write) => wait + write
    case RecoverEvent(_, wait) => wait
  }

  function Step(s: State, e: Event): State {
    Act(s, e).0.(clock := s.clock + Elapsed(e))
  }

  function Run(s: State, events: seq<Event>): State
    decreases |events|
  {
    if events == [] then s else Run(Step(s, events[0]), events[1..])
  }

  function OutcomeAt(s: State, events: seq<Event>, i: nat): Outcome
    requires i < |events|
  {
    Act(Run(s, events[..i]), events[i]).1
  }

  // ---- invariants ----

  ghost predicate BudgetsKept(s: State) {
    BudgetInv(s.user.budget, s.clock)
    && (forall d :: d in s.devices ==> d < s.nextId && BudgetInv(s.devices[d].budget, s.clock))
  }

  ghost predicate FewLive(s: State) {
    forall d :: |LiveChallenges(s.challenges, d, s.clock)| <= MAX_LIVE
  }

  ghost predicate FewDevices(s: State) {
    |UsableDevices(s.devices, s.clock, s.user.deviceVersion)| <= MAX_DEVICES && KnownVersions(s)
  }

  ghost predicate FreshIds(s: State) {
    (forall c :: c in s.challenges ==> c < s.nextId) && (forall r :: r in s.requests ==> r < s.nextId)
  }

  lemma BudgetAges(b: Budget, clock: int, later: int)
    requires BudgetInv(b, clock) && clock <= later
    ensures BudgetInv(b, later)
  {
  }

  lemma ReproofKeepsBudget(s: State, password: string, now: int, stamp: int)
    requires BudgetInv(s.user.budget, s.clock) && s.clock <= now <= stamp
    ensures BudgetInv(Reproof(s, password, now, stamp).0.user.budget, stamp)
  {
    hide BudgetInv, Charge, Clear;
    BudgetAges(s.user.budget, s.clock, stamp);
    if !Exhausted(s.user.budget, now) {
      ChargeKeepsBudget(s.user.budget, s.clock, now, stamp);
      ClearKeepsBudget(s.user.budget, s.clock, now);
      BudgetAges(Clear(s.user.budget, now), now, stamp);
    }
  }

  lemma FinishKeepsBudget(s: State, d: Device, now: int, stamp: int)
    requires BudgetInv(d.budget, s.clock) && s.clock <= now <= stamp && !Exhausted(d.budget, now)
    ensures BudgetInv(Charge(d.budget, now, stamp), stamp) && BudgetInv(Clear(d.budget, now), stamp)
  {
    hide BudgetInv, Charge, Clear;
    ChargeKeepsBudget(d.budget, s.clock, now, stamp);
    ClearKeepsBudget(d.budget, s.clock, now);
    BudgetAges(Clear(d.budget, now), now, stamp);
  }

  lemma UnusedBudget(clock: int)
    ensures BudgetInv(UNUSED, clock)
  {
  }

  lemma StepKeepsUserBudget(s: State, e: Event)
    requires BudgetInv(s.user.budget, s.clock)
    ensures BudgetInv(Step(s, e).user.budget, Step(s, e).clock)
  {
    hide BudgetInv, Charge, Clear, Exhausted, LiveChallenges, Swept, UsableDevices, ValidDevice, IsLive, Reproof;
    var later := Step(s, e).clock;
    BudgetAges(s.user.budget, s.clock, later);
    match e {
      case EnrollEvent(_, password, _, _, wait, write) =>
        ReproofKeepsBudget(s, password, s.clock + wait, later);
      case RevokeEvent(_, password, wait, write) =>
        ReproofKeepsBudget(s, password, s.clock + wait, later);
      case RecoverEvent(_, wait) =>
        ClearKeepsBudget(s.user.budget, s.clock, later);
      case FinishEvent(_, _, _, _, _, _) =>
      case BeginEvent(_, _, _, _) =>
      case StartEvent(_, _, _, _, _) =>
      case ClaimEvent(_) =>
    }
  }

  lemma StepKeepsDeviceBudget(s: State, e: Event, d: int)
    requires BudgetsKept(s) && d in Step(s, e).devices
    ensures d < Step(s, e).nextId && BudgetInv(Step(s, e).devices[d].budget, Step(s, e).clock)
  {
    hide BudgetInv, Charge, Clear, Exhausted, LiveChallenges, Swept, UsableDevices, ValidDevice, IsLive;
    var later := Step(s, e).clock;
    if d in s.devices {
      BudgetAges(s.devices[d].budget, s.clock, later);
      if e.FinishEvent? {
        var now := s.clock + e.wait + e.check;
        if !Exhausted(s.devices[d].budget, now) {
          FinishKeepsBudget(s, s.devices[d], now, later);
        }
      }
    } else {
      UnusedBudget(later);
    }
  }

  /** Every counter stays the faithful summary of its own history, whatever runs in between. */
  lemma StepKeepsBudgets(s: State, e: Event)
    requires BudgetsKept(s)
    ensures BudgetsKept(Step(s, e))
  {
    hide Step, BudgetInv;
    StepKeepsUserBudget(s, e);
    forall d | d in Step(s, e).devices
      ensures d < Step(s, e).nextId && BudgetInv(Step(s, e).devices[d].budget, Step(s, e).clock)
    {
      StepKeepsDeviceBudget(s, e, d);
    }
  }

  lemma {:induction false} SubsetSize(a: set<int>, b: set<int>)
    requires a <= b
    ensures |a| <= |b|
  {
    assert b == a + (b - a);
  }

  lemma LiveShrinks(before: map<int, Challenge>, after: map<int, Challenge>, d: int, t: int, later: int)
    requires t <= later
    requires forall k :: k in after && IsLive(after[k], d, t) ==> k in before && IsLive(before[k], d, t)
    ensures |LiveChallenges(after, d, later)| <= |LiveChallenges(before, d, t)|
  {
    forall k | k in LiveChallenges(after, d, later)
      ensures k in LiveChallenges(before, d, t)
    {
      assert IsLive(after[k], d, t);
    }
    SubsetSize(LiveChallenges(after, d, later), LiveChallenges(before, d, t));
  }

  lemma OneMoreLive(challenges: map<int, Challenge>, id: int, c: Challenge, d: int, now: int)
    requires id !in challenges
    ensures |LiveChallenges(challenges[id := c], d, now)|
      <= |LiveChallenges(challenges, d, now)| + (if c.device == d then 1 else 0)
  {
    var before, after := LiveChallenges(challenges, d, now), LiveChallenges(challenges[id := c], d, now);
    var extra := if c.device == d then {id} else {};
    forall k | k in after
      ensures k in before + extra
    {
    }
    SubsetSize(after, before + extra);
  }

  lemma BeginKeepsFewLive(s: State, device: int, secret: int, nonce: int, now: int, d: int)
    requires FewLive(s) && FreshIds(s) && s.clock <= now
    ensures |LiveChallenges(Begin(s, device, secret, nonce, now).0.challenges, d, now)| <= MAX_LIVE
  {
    hide ValidDevice, LiveChallenges;
    var swept := Swept(s.challenges, device, now);
    LiveShrinks(s.challenges, swept, d, s.clock, now);
    LiveShrinks(s.challenges, s.challenges, d, s.clock, now);
    OneMoreLive(swept, s.nextId, Challenge(device, nonce, now + CHALLENGE_TTL, None), d, now);
  }

  lemma LiveIsOnlyLost(s: State, e: Event)
    requires !e.BeginEvent?
    ensures var t := Step(s, e);
      forall k :: k in t.challenges && t.challenges[k].usedAt.None? ==>
        k in s.challenges && s.challenges[k] == t.challenges[k]
  {
    hide ValidDevice, UsableDevices, Charge, Clear, Exhausted, LiveChallenges;
  }

  lemma StepKeepsIds(s: State, e: Event)
    requires FreshIds(s)
    ensures FreshIds(Step(s, e))
  {
    hide ValidDevice, UsableDevices, Charge, Clear, Exhausted, LiveChallenges;
  }

  /** A device never has more than three live challenges. */
  lemma StepKeepsFewLive(s: State, e: Event)
    requires FewLive(s) && FreshIds(s)
    ensures FewLive(Step(s, e))
  {
    hide LiveChallenges, FreshIds, Begin, Start, Claim, Finish, Enroll, Revoke, Recover;
    var t := Step(s, e);
    forall d
      ensures |LiveChallenges(t.challenges, d, t.clock)| <= MAX_LIVE
    {
      if e.BeginEvent? {
        BeginKeepsFewLive(s, e.device, e.secret, e.nonce, s.clock + e.wait, d);
      } else {
        LiveIsOnlyLost(s, e);
        LiveShrinks(s.challenges, t.challenges, d, s.clock, t.clock);
      }
    }
  }

  lemma UsableShrinks(before: map<int, Device>, after: map<int, Device>, version: int, t: int, later: int)
    requires t <= later
    requires forall k :: k in after && !after[k].revoked && after[k].credentialVersion == version ==>
      k in before && !before[k].revoked && before[k].credentialVersion == version
      && before[k].expiresAt == after[k].expiresAt
    ensures |UsableDevices(after, later, version)| <= |UsableDevices(before, t, version)|
  {
    forall k | k in UsableDevices(after, later, version)
      ensures k in UsableDevices(before, t, version)
    {
      assert k in before && before[k].expiresAt == after[k].expiresAt;
    }
    SubsetSize(UsableDevices(after, later, version), UsableDevices(before, t, version));
  }

  lemma EnrollKeepsFewDevices(s: State, version: int, password: string, secret: int, age: nat, now: int, stamp: int)
    requires FewDevices(s) && s.clock <= now <= stamp
    ensures var t := Enroll(s, version, password, secret, s.clock - age, now, stamp).0;
      |UsableDevices(t.devices, stamp, t.user.deviceVersion)| <= MAX_DEVICES
  {
    hide Charge, Clear, Exhausted;
    var t := Enroll(s, version, password, secret, s.clock - age, now, stamp).0;
    var v := s.user.deviceVersion;
    if t.devices == s.devices {
      UsableShrinks(s.devices, s.devices, v, s.clock, stamp);
    } else {
      var before := UsableDevices(s.devices, s.clock - age, v);
      var after := UsableDevices(t.devices, stamp, v);
      forall k | k in after
        ensures k in before + {s.nextId}
      {
      }
      SubsetSize(after, before + {s.nextId});
    }
  }

  ghost predicate KnownVersions(s: State) {
    forall d :: d in s.devices ==> d < s.nextId && s.devices[d].credentialVersion <= s.user.deviceVersion
  }

  lemma StepKeepsVersions(s: State, e: Event)
    requires KnownVersions(s)
    ensures KnownVersions(Step(s, e))
  {
    hide UsableDevices, Charge, Clear, Exhausted, LiveChallenges, Swept, ValidDevice, IsLive;
  }

  lemma UseIsOnlyLost(s: State, e: Event)
    requires !e.EnrollEvent? && !e.RecoverEvent?
    ensures var t := Step(s, e);
      && t.user.deviceVersion == s.user.deviceVersion
      && forall k :: k in t.devices && !t.devices[k].revoked ==>
           k in s.devices && !s.devices[k].revoked && s.devices[k].expiresAt == t.devices[k].expiresAt
           && s.devices[k].credentialVersion == t.devices[k].credentialVersion
  {
    hide Charge, Clear, Exhausted, LiveChallenges, Swept, ValidDevice, IsLive;
  }

  /** At most five devices can log in at any time, even though enrollment counts with a stale clock. */
  lemma StepKeepsFewDevices(s: State, e: Event)
    requires FewDevices(s)
    ensures FewDevices(Step(s, e))
  {
    StepKeepsVersions(s, e);
    hide KnownVersions, UsableDevices, Charge, Clear, Begin, Start, Claim, Finish, Enroll, Revoke, Reproof;
    var t := Step(s, e);
    var v := t.user.deviceVersion;
    if e.EnrollEvent? {
      EnrollKeepsFewDevices(s, e.sessionVersion, e.password, e.secret, e.age, s.clock + e.wait, t.clock);
    } else if e.RecoverEvent? {
      NothingUsable(t.devices, t.clock, v);
    } else {
      UseIsOnlyLost(s, e);
      UsableShrinks(s.devices, t.devices, v, s.clock, t.clock);
    }
  }

  lemma NothingUsable(devices: map<int, Device>, now: int, version: int)
    requires forall d :: d in devices ==> devices[d].revoked
    ensures |UsableDevices(devices, now, version)| == 0
  {
    forall k
      ensures k !in UsableDevices(devices, now, version)
    {
    }
    assert UsableDevices(devices, now, version) == {};
  }

  // ---- whole runs ----

  ghost predicate Inv(s: State) {
    BudgetsKept(s) && FewLive(s) && FewDevices(s) && FreshIds(s)
  }

  function Fresh(email: string, password: string, clock: int): State {
    State(User(email, password, 0, 0, UNUSED), map[], map[], map[], 0, clock)
  }

  lemma FreshInvariant(email: string, password: string, clock: int)
    ensures Inv(Fresh(email, password, clock))
  {
    UnusedBudget(clock);
    assert UsableDevices(map[], clock, 0) == {};
    forall d
      ensures LiveChallenges(map[], d, clock) == {}
    {
    }
  }

  lemma {:induction false} RunKeepsInvariant(s: State, events: seq<Event>)
    requires Inv(s)
    ensures Inv(Run(s, events))
    decreases |events|
  {
    hide BudgetsKept, FewLive, FewDevices, FreshIds, Step;
    if events != [] {
      StepKeepsBudgets(s, events[0]);
      StepKeepsFewLive(s, events[0]);
      StepKeepsIds(s, events[0]);
      StepKeepsFewDevices(s, events[0]);
      RunKeepsInvariant(Step(s, events[0]), events[1..]);
    }
  }

  /** In every reachable state: three live challenges per device, five usable devices, faithful counters. */
  lemma ReachableStatesAreSafe(email: string, password: string, clock: int, events: seq<Event>)
    ensures var t := Run(Fresh(email, password, clock), events);
      && (forall d :: |LiveChallenges(t.challenges, d, t.clock)| <= 3)
      && |UsableDevices(t.devices, t.clock, t.user.deviceVersion)| <= 5
      && BudgetInv(t.user.budget, t.clock)
      && (forall d :: d in t.devices ==> BudgetInv(t.devices[d].budget, t.clock))
  {
    hide BudgetInv, Run, Fresh, LiveChallenges, UsableDevices;
    FreshInvariant(email, password, clock);
    RunKeepsInvariant(Fresh(email, password, clock), events);
  }

  /** In every run, any half-open fifteen minutes hold at most nine wrong passwords of a device between two logins. */
  lemma GuessesAreBounded(email: string, password: string, clock: int, events: seq<Event>, device: int, i: nat, j: nat,
                          from: int)
    requires device in Run(Fresh(email, password, clock), events).devices
    requires var trail := Run(Fresh(email, password, clock), events).devices[device].budget.trail;
      && i <= j <= |trail| && AllWrong(trail, i, j)
      && forall k :: i <= k < j ==> from <= trail[k].at < from + 900000
    ensures j - i <= 9
  {
    hide BudgetInv, FewLive, FewDevices, FreshIds, Run, Fresh;
    FreshInvariant(email, password, clock);
    RunKeepsInvariant(Fresh(email, password, clock), events);
    var t := Run(Fresh(email, password, clock), events);
    NinePerInterval(t.devices[device].budget, t.clock, i, j, from);
  }

  // ---- a run that reaches the bound ----

  /** A device that can log in until a given time, with no ceremony of its own open. */
  ghost predicate Ready(s: State, d: int, secret: int, until: int) {
    && d in s.devices && s.devices[d].secret == secret && !s.devices[d].revoked && s.devices[d].expiresAt > until
    && s.devices[d].credentialVersion == s.user.deviceVersion && FreshIds(s)
    && (forall k :: k in s.challenges && s.challenges[k].device == d ==> s.challenges[k].usedAt.Some?)
  }

  /** One whole login with a wrong password, after a wait: begin, start, claim, finish. */
  function GuessEvents(s: State, d: int, secret: int, wait: nat): seq<Event> {
    [BeginEvent(d, secret, 0, wait), StartEvent(d, secret, s.nextId, 0, 0), ClaimEvent(s.nextId + 1),
     FinishEvent(s.nextId + 1, s.user.email, s.user.password + "?", 0, 0, 0)]
  }

  lemma BeginOpens(s: State, d: int, secret: int, wait: nat)
    requires Ready(s, d, secret, s.clock + wait)
    ensures var now, t := s.clock + wait, Step(s, BeginEvent(d, secret, 0, wait));
      && t == s.(challenges := t.challenges, nextId := s.nextId + 1, clock := now) && s.nextId in t.challenges
      && t.challenges[s.nextId] == Challenge(d, 0, now + CHALLENGE_TTL, None)
      && (forall k :: k in t.challenges && k != s.nextId ==> k in s.challenges && t.challenges[k] == s.challenges[k])
  {
    var now := s.clock + wait;
    var swept := Swept(s.challenges, d, now);
    forall k
      ensures k !in LiveChallenges(swept, d, now)
    {
    }
    assert LiveChallenges(swept, d, now) == {};
  }

  lemma StartChecks(s: State, d: int, secret: int, c: int)
    requires d in s.devices && ValidDevice(s.devices[d], secret, s.clock, s.user.deviceVersion)
    ensures Step(s, StartEvent(d, secret, c, 0, 0))
      == s.(requests := s.requests[s.nextId := Checked(d, secret, c, 0, s.clock)], nextId := s.nextId + 1)
  {
  }

  lemma ClaimBurns(s: State, r: int, d: int, secret: int, c: int)
    requires r in s.requests && s.requests[r] == Checked(d, secret, c, 0, s.clock)
    requires c in s.challenges && IsLive(s.challenges[c], d, s.clock) && s.challenges[c].nonce == 0
    ensures Step(s, ClaimEvent(r))
      == s.(challenges := s.challenges[c := s.challenges[c].(usedAt := Some(s.clock))],
            requests := s.requests[r := Claimed(d, secret)])
  {
  }

  lemma FinishCharges(s: State, r: int, d: int, secret: int, wrong: string)
    requires r in s.requests && s.requests[r] == Claimed(d, secret) && wrong != s.user.password
    requires d in s.devices && ValidDevice(s.devices[d], secret, s.clock, s.user.deviceVersion)
    requires !Exhausted(s.devices[d].budget, s.clock)
    ensures Step(s, FinishEvent(r, s.user.email, wrong, 0, 0, 0))
      == s.(requests := s.requests - {r},
            devices := s.devices[d := s.devices[d].(budget := Charge(s.devices[d].budget, s.clock, s.clock))])
  {
    hide Charge, Exhausted;
  }

  /** Such a login, from a ready device with budget left, charges one wrong password and leaves the device ready. */
  lemma GuessIsCharged(s: State, d: int, secret: int, wait: nat, until: int)
    requires s.clock + wait <= until && Ready(s, d, secret, until)
    requires !Exhausted(s.devices[d].budget, s.clock + wait)
    ensures var now, t := s.clock + wait, Run(s, GuessEvents(s, d, secret, wait));
      && t.clock == now && t.user == s.user && Ready(t, d, secret, until)
      && t.devices == s.devices[d := s.devices[d].(budget := Charge(s.devices[d].budget, now, now))]
  {
    hide Charge, Exhausted, Step, Run;
    var now, c, r := s.clock + wait, s.nextId, s.nextId + 1;
    BeginOpens(s, d, secret, wait);
    var s1 := Step(s, BeginEvent(d, secret, 0, wait));
    StartChecks(s1, d, secret, c);
    var s2 := Step(s1, StartEvent(d, secret, c, 0, 0));
    ClaimBurns(s2, r, d, secret, c);
    var s3 := Step(s2, ClaimEvent(r));
    var wrong := s.user.password + "?";
    assert |wrong| == |s.user.password| + 1;
    FinishCharges(s3, r, d, secret, wrong);
    FourSteps(s, BeginEvent(d, secret, 0, wait), StartEvent(d, secret, c, 0, 0), ClaimEvent(r),
              FinishEvent(r, s.user.email, wrong, 0, 0, 0));
  }

  lemma FourSteps(s: State, a: Event, b: Event, c: Event, d: Event)
    ensures Run(s, [a, b, c, d]) == Step(Step(Step(Step(s, a), b), c), d)
  {
    hide Step;
    assert [a, b, c, d][1..] == [b, c, d] && [b, c, d][1..] == [c, d] && [c, d][1..] == [d] && [d][1..] == [];
    var s1 := Step(s, a);
    assert Run(s, [a, b, c, d]) == Run(s1, [b, c, d]);
    var s2 := Step(s1, b);
    assert Run(s1, [b, c, d]) == Run(s2, [c, d]);
    assert Run(s2, [c, d]) == Run(Step(s2, c), [d]);
  }

  lemma FirstEnrollment(email: string, password: string, clock: int)
    ensures var t := Run(Fresh(email, password, clock), [EnrollEvent(0, password, 0, 0, 0, 0)]);
      && t.clock == clock && t.user.email == email && t.user.password == password
      && t.devices.Keys == {0} && t.devices[0].budget == UNUSED && Ready(t, 0, 0, clock + FAILURE_WINDOW)
  {
    var s := Fresh(email, password, clock);
    assert UsableDevices(map[], clock, 0) == {};
    assert [EnrollEvent(0, password, 0, 0, 0, 0)][1..] == [];
  }

  /**
   * The bound of nine is reached: after one early guess, four more at the last moment of its window and five at the
   * first moment of the next are all evaluated. Every later guess fits between one instant and the next.
   */
  lemma NineIsReached(email: string, password: string, clock: int) returns (events: seq<Event>, device: int)
    ensures var t := Run(Fresh(email, password, clock), events);
      && device in t.devices
      && var trail := t.devices[device].budget.trail;
      && |trail| == 10 && AllWrong(trail, 0, 10)
      && forall k :: 1 <= k < 10 ==> clock + FAILURE_WINDOW - 1 <= trail[k].at <= clock + FAILURE_WINDOW
  {
    hide Fresh, Run, Step, Ready, GuessEvents;
    var start := Fresh(email, password, clock);
    var until, late := clock + FAILURE_WINDOW, clock + FAILURE_WINDOW - 1;
    FirstEnrollment(email, password, clock);
    events, device := [EnrollEvent(0, password, 0, 0, 0, 0)], 0;
    var s := Run(start, events);
    for i := 0 to 10
      invariant s == Run(start, events) && Ready(s, 0, 0, until) && 0 in s.devices
      invariant s.clock == (if i <= 1 then clock else if i <= 5 then late else until)
      invariant var b := s.devices[0].budget;
        && |b.trail| == i && AllWrong(b.trail, 0, i)
        && (i == 0 ==> b == UNUSED)
        && (1 <= i <= 5 ==> b.startedAt == Some(clock) && b.failures == i)
        && (i > 5 ==> b.startedAt == Some(until) && b.failures == i - 5)
        && forall k :: 1 <= k < i ==> late <= b.trail[k].at <= until
    {
      var wait := if i == 1 then FAILURE_WINDOW - 1 else if i == 5 then 1 else 0;
      GuessIsCharged(s, 0, 0, wait, until);
      var more := GuessEvents(s, 0, 0, wait);
      RunSplit(start, events, more);
      events := events + more;
      s := Run(s, more);
    }
  }

  /** A challenge that was burnt, or swept away, can never be claimed again. */
  predicate Dead(s: State, challenge: int) {
    challenge < s.nextId && (challenge in s.challenges ==> s.challenges[challenge].usedAt.Some?)
  }

  lemma {:induction false} DeadStaysDead(s: State, events: seq<Event>, challenge: int)
    requires Dead(s, challenge)
    ensures Dead(Run(s, events), challenge)
    decreases |events|
  {
    hide Act;
    if events != [] {
      DeadStep(s, events[0], challenge);
      DeadStaysDead(Step(s, events[0]), events[1..], challenge);
    }
  }

  lemma DeadStep(s: State, e: Event, challenge: int)
    requires Dead(s, challenge)
    ensures Dead(Step(s, e), challenge) && Act(s, e).1 != Burned(challenge)
  {
    hide ValidDevice, UsableDevices, Charge, Clear, Exhausted, LiveChallenges;
  }

  lemma {:induction false} RunSplit(s: State, a: seq<Event>, b: seq<Event>)
    ensures Run(s, a + b) == Run(Run(s, a), b)
    decreases |a|
  {
    hide Step;
    if a == [] {
      assert a + b == b;
    } else {
      assert (a + b)[1..] == a[1..] + b;
      RunSplit(Step(s, a[0]), a[1..], b);
    }
  }

  /** Each challenge is claimed at most once. */
  lemma ChallengesBurnOnce(email: string, password: string, clock: int, events: seq<Event>, i: nat, j: nat)
    requires i < j < |events|
    ensures var s := Fresh(email, password, clock);
      OutcomeAt(s, events, i).Burned? ==> OutcomeAt(s, events, j) != OutcomeAt(s, events, i)
  {
    if OutcomeAt(Fresh(email, password, clock), events, i).Burned? {
      FreshInvariant(email, password, clock);
      hide Fresh, BudgetsKept, FewLive, FewDevices;
      BurnsOnceFrom(Fresh(email, password, clock), events, i, j);
    }
  }

  lemma BurnsOnceFrom(s: State, events: seq<Event>, i: nat, j: nat)
    requires FreshIds(s) && i < j < |events| && OutcomeAt(s, events, i).Burned?
    ensures OutcomeAt(s, events, j) != OutcomeAt(s, events, i)
  {
    var at := Run(s, events[..i]);
    KeepsFreshIds(s, events[..i]);
    hide Run, ValidDevice, UsableDevices, Charge, Clear, Exhausted, LiveChallenges;
    var c := OutcomeAt(s, events, i).challenge;
    assert Dead(Step(at, events[i]), c);
    assert events[..j] == events[..i] + ([events[i]] + events[i + 1..j]);
    RunSplit(s, events[..i], [events[i]] + events[i + 1..j]);
    FirstStep(at, events[i], events[i + 1..j]);
    DeadStaysDead(Step(at, events[i]), events[i + 1..j], c);
    DeadStep(Run(s, events[..j]), events[j], c);
  }

  lemma FirstStep(s: State, e: Event, rest: seq<Event>)
    ensures Run(s, [e] + rest) == Run(Step(s, e), rest)
  {
    hide Step;
    assert ([e] + rest)[1..] == rest;
  }

  lemma {:induction false} KeepsFreshIds(s: State, events: seq<Event>)
    requires FreshIds(s)
    ensures FreshIds(Run(s, events))
    decreases |events|
  {
    hide Step, FreshIds;
    if events != [] {
      StepKeepsIds(s, events[0]);
      KeepsFreshIds(Step(s, events[0]), events[1..]);
    }
  }

  // ---- the stored rows ----

  class Store {
    var user: User
    var devices: map<int, Device>
    var challenges: map<int, Challenge>
    var requests: map<int, Request>
    var nextId: int
    var clock: int

    ghost function View(): State
      reads this
    {
      State(user, devices, challenges, requests, nextId, clock)
    }

    constructor (email: string, password: string, now: int)
      ensures View() == Fresh(email, password, now)
    {
      user := User(email, password, 0, 0, UNUSED);
      devices, challenges, requests, nextId, clock := map[], map[], map[], 0, now;
    }

    method BeginTrustedDeviceChallenge(device: int, secret: int, nonce: int, now: int) returns (outcome: Outcome)
      modifies `challenges, `nextId
      ensures (View(), outcome) == Begin(old(View()), device, secret, nonce, now)
    {
      if device !in devices || !ValidDevice(devices[device], secret, now, user.deviceVersion) {
        return Denied;
      }
      challenges := Swept(challenges, device, now);
      if |LiveChallenges(challenges, device, now)| >= MAX_LIVE {
        return Denied;
      }
      challenges := challenges[nextId := Challenge(device, nonce, now + CHALLENGE_TTL, None)];
      nextId := nextId + 1;
      return Opened(nextId - 1);
    }

    method StartLogin(device: int, secret: int, challenge: int, nonce: int, now: int) returns (outcome: Outcome)
      modifies `requests, `nextId
      ensures (View(), outcome) == Start(old(View()), device, secret, challenge, nonce, now)
    {
      if device !in devices || !ValidDevice(devices[device], secret, now, user.deviceVersion) {
        return Denied;
      }
      requests := requests[nextId := Checked(device, secret, challenge, nonce, now)];
      nextId := nextId + 1;
      return Started(nextId - 1);
    }

    method ClaimChallenge(request: int) returns (outcome: Outcome)
      modifies `challenges, `requests
      ensures (View(), outcome) == Claim(old(View()), request)
    {
      if request !in requests || !requests[request].Checked? {
        return Denied;
      }
      var r := requests[request];
      if r.challenge !in challenges || challenges[r.challenge].device != r.device
         || challenges[r.challenge].nonce != r.nonce || challenges[r.challenge].usedAt.Some?
         || challenges[r.challenge].expiresAt <= r.now
      {
        requests := requests - {request};
        return Denied;
      }
      challenges := challenges[r.challenge := challenges[r.challenge].(usedAt := Some(r.now))];
      requests := requests[request := Claimed(r.device, r.secret)];
      return Burned(r.challenge);
    }

    method FinishLogin(request: int, email: string, password: string, validAt: int, now: int, stamp: int)
      returns (outcome: Outcome)
      modifies `devices, `requests
      ensures (View(), outcome) == Finish(old(View()), request, email, password, validAt, now, stamp)
    {
      if request !in requests || !requests[request].Claimed? {
        return Denied;
      }
      var r := requests[request];
      requests := requests - {request};
      if r.device !in devices || !ValidDevice(devices[r.device], r.secret, validAt, user.deviceVersion) {
        return Denied;
      }
      var current := devices[r.device];
      var b := current.budget;
      var live := b.startedAt.Some? && b.startedAt.value + FAILURE_WINDOW > now;
      if live && b.failures >= FAILURE_LIMIT {
        return Limited;
      }
      var matches := user.email == email && user.password == password;
      if !matches {
        var failures := if live then b.failures + 1 else 1;
        var start := if live then b.startedAt.value else stamp;
        var charged := Budget(failures, Some(start), b.trail + [Wrong(now, start, failures)]);
        devices := devices[r.device := current.(budget := charged)];
        return Denied;
      }
      devices := devices[r.device := current.(budget := Budget(0, None, b.trail + [Cleared(now)]))];
      return LoggedIn(user.sessionVersion);
    }

    method EnrollTrustedDevice(sessionVersion: int, password: string, secret: int, enteredAt: int, now: int, stamp: int)
      returns (outcome: Outcome)
      modifies `user, `devices, `nextId
      ensures (View(), outcome) == Enroll(old(View()), sessionVersion, password, secret, enteredAt, now, stamp)
    {
      if user.sessionVersion != sessionVersion {
        return Denied;
      }
      if Exhausted(user.budget, now) {
        return Limited;
      }
      if password != user.password {
        user := user.(budget := Charge(user.budget, now, stamp));
        return Denied;
      }
      if |UsableDevices(devices, enteredAt, user.deviceVersion)| >= MAX_DEVICES {
        return Conflict;
      }
      user := user.(budget := Clear(user.budget, now));
      devices := devices[nextId := Device(secret, user.deviceVersion, false, enteredAt + DEVICE_TTL, UNUSED)];
      nextId := nextId + 1;
      return Enrolled(nextId - 1);
    }

    method RevokeTrustedDevice(device: int, password: string, now: int, stamp: int) returns (outcome: Outcome)
      modifies `user, `devices
      ensures (View(), outcome) == Revoke(old(View()), device, password, now, stamp)
    {
      if Exhausted(user.budget, now) {
        return Limited;
      }
      if password != user.password {
        user := user.(budget := Charge(user.budget, now, stamp));
        return Denied;
      }
      user := user.(budget := Clear(user.budget, now));
      if device in devices {
        devices := devices[device := devices[device].(revoked := true)];
      }
      return Done;
    }
  }
}
