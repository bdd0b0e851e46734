/** One account and its ledger together: money an OAuth client moves, under the consents of the account. */
module FinanceAccess {
  import opened Wrappers
  import Sessions
  import Protocol = FinanceProtocol
  import Actions = FinanceActions

  datatype World = World(sessions: Sessions.World, finance: Protocol.State)

  /** A posting or an undo carries the grant of its bearer token; `at` is when the fence looks at the grant. */
  datatype Event =
    | AccountEvent(e: Sessions.Event)
    | Post(grantId: int, at: int, c: Protocol.Command, env: Actions.Env)
    | Undo(grantId: int, at: int, u: Protocol.UndoCommand, now: int)
    | OtherWriter(ledger: Actions.Ledger, nextId: int)

  predicate Granted(w: World, client: string, grantId: int, at: int) {
    Sessions.GrantActive(w.sessions.account, client, grantId, at)
  }

  /** What an event is to the account: a posting or an undo asks for the fence. */
  function ToSessions(e: Event): Sessions.Event {
    match e
    case AccountEvent(own) => own
    case Post(grantId, at, c, _) => Sessions.Write(c.client, grantId, at)
    case Undo(grantId, at, u, _) => Sessions.Write(u.client, grantId, at)
    case OtherWriter(_, _) => Sessions.OtherService
  }

  /** What an event is to the ledger; the answer of the fence comes from the account of the same moment. */
  function ToProtocol(w: World, e: Event): Option<Protocol.Event> {
    match e
    case AccountEvent(_) => None
    case Post(grantId, at, c, env) => Some(Protocol.CommitEvent(c.(granted := Granted(w, c.client, grantId, at)), env))
    case Undo(grantId, at, u, now) => Some(Protocol.UndoEvent(u.(granted := Granted(w, u.client, grantId, at)), now))
    case OtherWriter(ledger, nextId) => Some(Protocol.OtherWriter(ledger, nextId))
  }

  ghost function Step(w: World, e: Event): World {
    World(Sessions.Step(w.sessions, ToSessions(e)),
          match ToProtocol(w, e)
          case None => w.finance
          case Some(own) => Protocol.Step(w.finance, own).0)
  }

  ghost function After(w: World, events: seq<Event>): World
    decreases |events|
  {
    if events == [] then w else After(Step(w, events[0]), events[1..])
  }

  /** A posting or an undo was answered without an error, for the first time or as a replay. */
  ghost predicate Accepted(w: World, e: Event) {
    match ToProtocol(w, e)
    case None => false
    case Some(own) =>
      match Protocol.Step(w.finance, own).1
      case Answered(reply) => reply.Ok?
      case UndoAnswered(replayed) => replayed.Ok?
      case Silent => false
  }

  function ClientOf(e: Event): string
    requires e.Post? || e.Undo?
  {
    if e.Post? then e.c.client else e.u.client
  }

  // ---- a combined run is a run of either side ----

  function SessionEvents(events: seq<Event>): (own: seq<Sessions.Event>)
    ensures |own| == |events|
  {
    if events == [] then [] else [ToSessions(events[0])] + SessionEvents(events[1..])
  }

  lemma {:induction false} SessionsRun(w: World, events: seq<Event>)
    ensures After(w, events).sessions == Sessions.Run(w.sessions, SessionEvents(events))
    decreases |events|
  {
    hide Sessions.Step, ToSessions, ToProtocol;
    if events != [] {
      SessionsRun(Step(w, events[0]), events[1..]);
      assert SessionEvents(events)[1..] == SessionEvents(events[1..]);
    }
  }

  lemma {:induction false} SessionEventAt(events: seq<Event>, i: nat)
    requires i < |events|
    ensures SessionEvents(events)[i] == ToSessions(events[i])
    ensures SessionEvents(events)[..i] == SessionEvents(events[..i])
  {
    hide ToSessions;
    if i > 0 {
      SessionEventAt(events[1..], i - 1);
      assert events[..i][0] == events[0] && events[..i][1..] == events[1..][..i - 1];
    }
  }

  ghost function ProtocolEvents(w: World, events: seq<Event>): seq<Protocol.Event>
    decreases |events|
  {
    if events == [] then []
    else
      var own := ToProtocol(w, events[0]);
      (if own.Some? then [own.value] else []) + ProtocolEvents(Step(w, events[0]), events[1..])
  }

  /** So every law of the protocol holds of the ledger of a combined run. */
  lemma {:induction false} ProtocolRun(w: World, events: seq<Event>)
    ensures After(w, events).finance == Protocol.After(w.finance, ProtocolEvents(w, events))
    decreases |events|
  {
    hide Protocol.Step, Sessions.Step, ToSessions, ToProtocol;
    if events != [] {
      var next := Step(w, events[0]);
      ProtocolRun(next, events[1..]);
      var own, rest := ToProtocol(w, events[0]), ProtocolEvents(next, events[1..]);
      if own.Some? {
        Protocol.OneStep(w.finance, own.value, next.finance, rest);
      } else {
        assert [] + rest == rest;
      }
    }
  }

  lemma RunConservesMoney(w: World, events: seq<Event>)
    requires Protocol.Inv(w.finance)
    ensures var after, own := After(w, events).finance, ProtocolEvents(w, events);
      && Protocol.Inv(after)
      && Protocol.CashOutsideProtocol(after)
         == Protocol.CashOutsideProtocol(w.finance) + Protocol.Added(w.finance, own, Actions.Cash)
      && Protocol.SavingsOutsideProtocol(after)
         == Protocol.SavingsOutsideProtocol(w.finance) + Protocol.Added(w.finance, own, Actions.Savings)
  {
    hide Protocol.Inv, Protocol.CashOutsideProtocol, Protocol.SavingsOutsideProtocol, Protocol.After, Protocol.Added,
      After, ProtocolEvents;
    ProtocolRun(w, events);
    Protocol.RunKeepsInvariant(w.finance, ProtocolEvents(w, events));
    Protocol.RunConservesMoney(w.finance, ProtocolEvents(w, events));
  }

  // ---- no money moves without a standing consent ----

  lemma AcceptedIsGranted(w: World, e: Event)
    requires Accepted(w, e)
    ensures e.Post? || e.Undo?
    ensures Granted(w, ClientOf(e), e.grantId, e.at)
  {
    hide Protocol.Commit, Protocol.UndoOperation, Granted;
    match e
    case Post(grantId, at, c, env) =>
      Protocol.PostedCommandsAreValid(w.finance, c.(granted := Granted(w, c.client, grantId, at)), env);
    case Undo(grantId, at, u, now) =>
      Protocol.AcceptedUndoIsGranted(w.finance, u.(granted := Granted(w, u.client, grantId, at)), now);
    case _ =>
  }

  /** An accepted posting or undo is, to the account, a write that passed the fence. */
  lemma AcceptedIsLogged(w: World, events: seq<Event>, j: nat)
    requires w.sessions.log == [] && j < |events| && Accepted(After(w, events[..j]), events[j])
    ensures events[j].Post? || events[j].Undo?
    ensures var log := Sessions.Run(w.sessions, SessionEvents(events)).log;
      |log| == |events| && log[j] == Sessions.DidWrite(ClientOf(events[j]), events[j].grantId)
  {
    hide Accepted, After, Sessions.Run, Sessions.GrantActive;
    var before := After(w, events[..j]);
    AcceptedIsGranted(before, events[j]);
    SessionsRun(w, events[..j]);
    SessionEventAt(events, j);
    Sessions.LogAt(w.sessions, SessionEvents(events), j);
  }

  /**
   * Money moves under a standing consent: after a recovery of the account, or after the user disconnects a client, no
   * posting and no undo of that client is accepted before the user consents to its grant again, in a session
   * authenticated since the recovery.
   */
  lemma NoMoneyMovesWithoutNewConsent(password: int, code: nat, s: Protocol.State, events: seq<Event>, i: nat, j: nat)
    requires i < j < |events|
    requires Accepted(After(World(Sessions.Registered(password, code), s), events[..j]), events[j])
    ensures events[j].Post? || events[j].Undo?
    ensures var log := After(World(Sessions.Registered(password, code), s), events).sessions.log;
      && |log| == |events|
      && (log[i].DidRecover? || log[i] == Sessions.DidDisconnect(ClientOf(events[j])) ==>
            exists k :: i < k && Sessions.BackedBy(log[..j], k, ClientOf(events[j]), events[j].grantId, j))
  {
    hide Accepted, After, Sessions.Run, Sessions.StandingConsent, Sessions.BackedBy;
    var w := World(Sessions.Registered(password, code), s);
    AcceptedIsLogged(w, events, j);
    SessionsRun(w, events);
    Sessions.WritesFollowFreshConsent(password, code, SessionEvents(events), j);
    var log := Sessions.Run(w.sessions, SessionEvents(events)).log;
    if log[i].DidRecover? || log[i] == Sessions.DidDisconnect(ClientOf(events[j])) {
      ConsentFollowsTheCut(log, i, j, ClientOf(events[j]), events[j].grantId);
    }
  }

  lemma ConsentFollowsTheCut(log: seq<Sessions.Outcome>, i: nat, j: nat, client: string, grantId: int)
    requires i < j < |log| && Sessions.StandingConsent(log[..j], client, grantId, j)
    requires log[i].DidRecover? || log[i] == Sessions.DidDisconnect(client)
    ensures exists k :: i < k && Sessions.BackedBy(log[..j], k, client, grantId, j)
  {
    var k :| Sessions.BackedBy(log[..j], k, client, grantId, j);
    var p :| p < k && Sessions.ProvedAt(log[..j], p, log[..j][k].token, j);
    assert log[..j][i] == log[i];
  }
}
