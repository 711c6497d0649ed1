/** What each service call writes: one frame for every request, on which the theorems over runs rest. */
module Frames {
  import opened Prelude
  import opened Timestamps
  import opened Records
  import opened Hashing
  import opened AuditChain
  import opened Export
  import opened Transactions

  /** One entry is appended to the log of x, a VOTE_CAST entry only by a vote; the other logs stay. */
  ghost predicate Logs(a: Database, b: Database, x: string, vote: bool) {
    exists entry: AuditEntry ::
      b.audit == a.audit[x := LogOf(a, x) + [entry]] && (entry.eventType == "VOTE_CAST" ==> vote)
  }

  /** The row that a state change leaves. */
  function ChangedRow(p: Primitives, db: Database, e: string, to: ElectionState): Election
    requires e in db.elections
  {
    var row := db.elections[e];
    if row.state == Configured && to == Locked then
      row.(state := to, configurationHash := Some(ConfigurationHash(p, e, Map(InfoOf(), CandidatesOf(db, e)))))
    else row.(state := to)
  }

  /** The tables a granted request leaves, the logs aside. */
  ghost predicate Writes(p: Primitives, db: Database, r: Request, w: Database) {
    match r.command
    case CreateElection(e, name) =>
      e !in db.elections && w == db.(elections := db.elections[e := Election(e, name, Created, None, 0)])
    case AddCandidates(e, batch) =>
      && e in db.elections && db.elections[e].state == Created
      && (exists s :: s in {Created, Configured} &&
            w == db.(candidates := db.candidates + NewRows(e, batch),
                     elections := db.elections[e := db.elections[e].(state := s)]))
    case ChangeState(e, to, _) =>
      && e in db.elections && ValidTransition(db.elections[e].state, to)
      && w == db.(elections := db.elections[e := ChangedRow(p, db, e, to)])
    case RegisterDevice(e, d, name) =>
      && e in db.elections && db.elections[e].state in {Configured, Locked, Open}
      && w == db.(devices := db.devices + [Device(d, e, name, Registered, 0, 0)])
    case UpdateDeviceStatus(e, d, status) =>
      exists i :: 0 <= i < |db.devices| && RewritesStatus(db, i, e, d, status, w)
    case AuthorizeSession(e, credential, d, sid, token) =>
      && e in db.elections && db.elections[e].state == Open
      && w == db.(sessions := db.sessions + [Session(sid, e, d, token, credential, Authorized)])
    case CastVote(token, c, d, n, id) =>
      var v := VoteChecks(db, token, c, d, n, id);
      && v.Ok?
      && w == RecordVote(db, v.value.0, v.value.1, NewBallot(p, db.sessions[v.value.0], c, d, n, id, r.now))
    case RunFullVerification(e) =>
      && e in db.elections
      && w == db.(manifests := db.manifests[e := ManifestFrom(p, VerifiedManifest(p, db, e), ManifestOf(db, e))])
    case SignManifest(e, key) =>
      && e in db.elections && db.elections[e].state in {Closed, Published} && e in db.manifests && key.Some?
      && w == db.(manifests := db.manifests[e := db.manifests[e].(digitalSignature := Some(
                    SignPayload(p, key.value, PayloadOf(db.manifests[e], e, Root(LogOf(db, e))))))])
    case AnchorElectionRoot(e, _, _) => w == db.(anchors := w.anchors)
    case RejectCard(_, _, _, _) => w == db
  }

  predicate RewritesStatus(db: Database, i: nat, e: string, d: string, status: DeviceStatus, w: Database)
    requires i < |db.devices|
  {
    && db.devices[i].id == d && db.devices[i].electionId == e
    && ValidStatusTransition(db.devices[i].status, status)
    && w == db.(devices := db.devices[i := db.devices[i].(status := status)])
  }

  /** The election whose log a granted request writes to. */
  function LoggedIn(db: Database, c: Command): string {
    match c
    case CastVote(token, _, _, _, _) =>
      var i := FindIndex(HasToken(token), db.sessions);
      if i.Some? then db.sessions[i.value].electionId else ""
    case _ => c.electionId
  }

  /** A request changes nothing, or it writes its tables and one log entry. */
  ghost predicate Frame(p: Primitives, db: Database, r: Request, db': Database) {
    || db' == db
    || (Writes(p, db, r, db'.(audit := db.audit)) && Logs(db, db', LoggedIn(db, r.command), r.command.CastVote?))
  }

  lemma LogFrame(p: Primitives, a: Database, b: Database, x: string, eventType: string, data: EventData, actor: string,
                 deviceId: Option<string>, now: DateTime, vote: bool)
    requires b.audit == a.audit && (eventType == "VOTE_CAST" ==> vote)
    ensures var c := LogEvent(p, b, x, eventType, data, actor, deviceId, now);
            Logs(a, c, x, vote) && c.(audit := a.audit) == b
  {
    var entry := NextEntry(p, LogOf(b, x), eventType, Some(p.eventJson(data)), Some(actor), deviceId, now);
    assert LogEvent(p, b, x, eventType, data, actor, deviceId, now).audit == a.audit[x := LogOf(a, x) + [entry]];
  }

  /** Whatever a call has done to the tables, logging does the rest. */
  lemma LogFrames(p: Primitives, a: Database, now: DateTime, vote: bool)
    ensures forall b: Database, x, eventType, data, actor, deviceId ::
              b.audit == a.audit && (eventType == "VOTE_CAST" ==> vote) ==>
              var c := LogEvent(p, b, x, eventType, data, actor, deviceId, now);
              Logs(a, c, x, vote) && c.(audit := a.audit) == b
  {
    forall b: Database, x, eventType, data, actor, deviceId | b.audit == a.audit && (eventType == "VOTE_CAST" ==> vote)
      ensures var c := LogEvent(p, b, x, eventType, data, actor, deviceId, now);
              Logs(a, c, x, vote) && c.(audit := a.audit) == b
    {
      LogFrame(p, a, b, x, eventType, data, actor, deviceId, now, vote);
    }
  }

  lemma CreateFrames(p: Primitives, db: Database, r: Request)
    requires r.command.CreateElection? || r.command.ChangeState?
    ensures Frame(p, db, r, Step(p, db, r))
  {
    hide LogEvent, Logs, HasActiveDevice, ConfigurationHash, CandidatesOf, ValidTransition, DoAddCandidates,
         DoRegisterDevice, DoUpdateDeviceStatus, DoAuthorizeSession, DoCastVote, DoRunFullVerification, DoSignManifest,
         DoAnchorElectionRoot;
    LogFrames(p, db, r.now, false);
  }

  lemma AddFrames(p: Primitives, db: Database, r: Request)
    requires r.command.AddCandidates?
    ensures Frame(p, db, r, Step(p, db, r))
  {
    hide LogEvent, Logs, FreshBatch, IdsUnused, CandidatesOf, NewRows, DoCreateElection, DoChangeState,
         DoRegisterDevice, DoUpdateDeviceStatus, DoAuthorizeSession, DoCastVote, DoRunFullVerification, DoSignManifest,
         DoAnchorElectionRoot;
    var e, batch := r.command.electionId, r.command.batch;
    LogFrames(p, db, r.now, false);
    if Step(p, db, r) != db {
      var s := if |CandidatesOf(db, e)| + |batch| >= 2 then Configured else Created;
      assert s == Created ==> db.elections[e].(state := s) == db.elections[e];
      assert Step(p, db, r).(audit := db.audit)
          == db.(candidates := db.candidates + NewRows(e, batch),
                 elections := db.elections[e := db.elections[e].(state := s)]);
    }
  }

  lemma RegisterFrames(p: Primitives, db: Database, r: Request)
    requires r.command.RegisterDevice?
    ensures Frame(p, db, r, Step(p, db, r))
  {
    hide LogEvent, Logs, FindIndex, DoCreateElection, DoAddCandidates, DoChangeState, DoUpdateDeviceStatus,
         DoAuthorizeSession, DoCastVote, DoRunFullVerification, DoSignManifest, DoAnchorElectionRoot;
    LogFrames(p, db, r.now, false);
  }

  lemma AuthorizeFrames(p: Primitives, db: Database, r: Request)
    requires r.command.AuthorizeSession?
    ensures Frame(p, db, r, Step(p, db, r))
  {
    hide LogEvent, Logs, FindIndex, CredentialUsed, SessionKeysFree, DoCreateElection, DoAddCandidates, DoChangeState,
         DoRegisterDevice, DoUpdateDeviceStatus, DoCastVote, DoRunFullVerification, DoSignManifest,
         DoAnchorElectionRoot;
    LogFrames(p, db, r.now, false);
  }

  lemma StatusFrames(p: Primitives, db: Database, r: Request)
    requires r.command.UpdateDeviceStatus?
    ensures Frame(p, db, r, Step(p, db, r))
  {
    hide LogEvent, Logs, FindIndex, ValidStatusTransition, DoCreateElection, DoAddCandidates, DoChangeState,
         DoRegisterDevice, DoAuthorizeSession, DoCastVote, DoRunFullVerification, DoSignManifest, DoAnchorElectionRoot;
    var e, d, status := r.command.electionId, r.command.deviceId, r.command.status;
    LogFrames(p, db, r.now, false);
    if Step(p, db, r) != db {
      var i := FindIndex(HasDeviceId(d), db.devices).value;
      assert RewritesStatus(db, i, e, d, status, Step(p, db, r).(audit := db.audit));
    }
  }

  lemma VoteSession(db: Database, token: string, c: string, d: string, n: int, id: string)
    ensures var v := VoteChecks(db, token, c, d, n, id);
            v.Ok? ==> FindIndex(HasToken(token), db.sessions) == Some(v.value.0)
  {
    hide FindIndex, BallotIdFree;
  }

  lemma VoteFrames(p: Primitives, db: Database, r: Request)
    requires r.command.CastVote?
    ensures Frame(p, db, r, Step(p, db, r))
  {
    hide LogEvent, Logs, VoteChecks, FindIndex, NewBallot, DoCreateElection, DoAddCandidates, DoChangeState,
         DoRegisterDevice, DoUpdateDeviceStatus, DoAuthorizeSession, DoRunFullVerification, DoSignManifest,
         DoAnchorElectionRoot;
    var c := r.command;
    VoteSession(db, c.token, c.candidateId, c.deviceId, c.sequenceNumber, c.ballotId);
    LogFrames(p, db, r.now, true);
  }

  lemma ManifestFrames(p: Primitives, db: Database, r: Request)
    requires r.command.RunFullVerification? || r.command.SignManifest?
    ensures Frame(p, db, r, Step(p, db, r))
  {
    hide LogEvent, Logs, VerifiedManifest, ManifestFrom, SignPayload, PayloadOf, DoCreateElection, DoAddCandidates,
         DoChangeState, DoRegisterDevice, DoUpdateDeviceStatus, DoAuthorizeSession, DoCastVote, DoAnchorElectionRoot;
    LogFrames(p, db, r.now, false);
  }

  lemma AnchorFrames(p: Primitives, db: Database, r: Request)
    requires r.command.AnchorElectionRoot?
    ensures Frame(p, db, r, Step(p, db, r))
  {
    hide LogEvent, Logs, ReceiptFor, DoCreateElection, DoAddCandidates, DoChangeState, DoRegisterDevice,
         DoUpdateDeviceStatus, DoAuthorizeSession, DoCastVote, DoRunFullVerification, DoSignManifest;
    LogFrames(p, db, r.now, false);
  }

  lemma CardFrames(p: Primitives, db: Database, r: Request)
    requires r.command.RejectCard?
    ensures Frame(p, db, r, Step(p, db, r))
  {
    hide LogEvent, Logs, DoCreateElection, DoAddCandidates, DoChangeState, DoRegisterDevice, DoUpdateDeviceStatus,
         DoAuthorizeSession, DoCastVote, DoRunFullVerification, DoSignManifest, DoAnchorElectionRoot;
    LogFrames(p, db, r.now, false);
  }

  /** Every request stays within its frame. */
  lemma StepFrame(p: Primitives, db: Database, r: Request)
    ensures Frame(p, db, r, Step(p, db, r))
  {
    hide Step, Frame;
    match r.command {
      case CreateElection(_, _) => CreateFrames(p, db, r);
      case AddCandidates(_, _) => AddFrames(p, db, r);
      case ChangeState(_, _, _) => CreateFrames(p, db, r);
      case RegisterDevice(_, _, _) => RegisterFrames(p, db, r);
      case UpdateDeviceStatus(_, _, _) => StatusFrames(p, db, r);
      case AuthorizeSession(_, _, _, _, _) => AuthorizeFrames(p, db, r);
      case CastVote(_, _, _, _, _) => VoteFrames(p, db, r);
      case RunFullVerification(_) => ManifestFrames(p, db, r);
      case SignManifest(_, _) => ManifestFrames(p, db, r);
      case AnchorElectionRoot(_, _, _) => AnchorFrames(p, db, r);
      case RejectCard(_, _, _, _) => CardFrames(p, db, r);
    }
  }

  /** Which calls can write a table at all. */
  lemma Untouched(p: Primitives, db: Database, r: Request)
    ensures var c, db' := r.command, Step(p, db, r);
            && (!c.CreateElection? && !c.AddCandidates? && !c.ChangeState? && !c.CastVote? ==>
                  db'.elections == db.elections)
            && (!c.AddCandidates? ==> db'.candidates == db.candidates)
            && (!c.RegisterDevice? && !c.UpdateDeviceStatus? && !c.CastVote? ==> db'.devices == db.devices)
            && (!c.AuthorizeSession? && !c.CastVote? ==> db'.sessions == db.sessions)
            && (!c.CastVote? ==> db'.ballots == db.ballots)
            && (!c.RunFullVerification? && !c.SignManifest? ==> db'.manifests == db.manifests)
  {
    StepFrame(p, db, r);
    hide Step, Logs, NewRows, ChangedRow, ManifestFrom, VerifiedManifest, SignPayload, PayloadOf, VoteChecks, NewBallot;
  }
}
