/** Which requests are granted, and with which error the others are refused, in terms of the rows alone. */
module Answers {
  import opened Prelude
  import opened Timestamps
  import opened Records
  import opened Hashing
  import opened Export
  import opened Transactions
  import opened Invariants
  import opened Interference

  /** The moves an election may make. */
  const ELECTION_MOVES := {
    (Created, Configured), (Configured, Locked), (Locked, Open), (Open, Suspended), (Suspended, Open),
    (Open, Closed), (Suspended, Closed), (Closed, Published)}

  /** The moves a device may make. */
  const DEVICE_MOVES := {
    (Registered, Active), (Active, DeviceSuspended), (DeviceSuspended, Active), (Active, Revoked),
    (DeviceSuspended, Revoked)}

  ghost predicate DeviceExists(db: Database, d: string) {
    exists k :: 0 <= k < |db.devices| && db.devices[k].id == d
  }

  ghost predicate DeviceIs(db: Database, e: string, d: string, status: DeviceStatus) {
    exists k :: 0 <= k < |db.devices| && db.devices[k].id == d && db.devices[k].electionId == e
                && db.devices[k].status == status
  }

  ghost predicate DeviceActive(db: Database, d: string) {
    exists k :: 0 <= k < |db.devices| && db.devices[k].id == d && db.devices[k].status == Active
  }

  /** The device has used this number or a higher one. */
  ghost predicate NumberUsed(db: Database, d: string, n: int) {
    exists k :: 0 <= k < |db.devices| && db.devices[k].id == d && n <= db.devices[k].lastSequenceNumber
  }

  ghost predicate BallotIdTaken(db: Database, id: string) {
    exists i :: 0 <= i < |db.ballots| && db.ballots[i].id == id
  }

  /** Two candidates of the batch share an ID or a position, or one shares it with a stored one of the election. */
  ghost predicate Repeats(db: Database, e: string, batch: seq<CandidateInfo>) {
    || (exists i, j :: 0 <= i < j < |batch| && (batch[i].id == batch[j].id || batch[i].position == batch[j].position))
    || (exists i, j :: 0 <= i < |db.candidates| && 0 <= j < |batch| && db.candidates[i].electionId == e
                       && (db.candidates[i].info.id == batch[j].id
                           || db.candidates[i].info.position == batch[j].position))
  }

  ghost predicate IdTaken(db: Database, batch: seq<CandidateInfo>) {
    exists i, j :: 0 <= i < |db.candidates| && 0 <= j < |batch| && db.candidates[i].info.id == batch[j].id
  }

  ghost predicate TokenKnown(db: Database, token: string) {
    exists i :: 0 <= i < |db.sessions| && db.sessions[i].token == token
  }

  /** The token's session is unused, on this device, and its election is open. */
  ghost predicate SessionReady(db: Database, token: string, d: string) {
    exists i :: 0 <= i < |db.sessions| && db.sessions[i].token == token && db.sessions[i].status == Authorized
                && db.sessions[i].deviceId == d && db.sessions[i].electionId in db.elections
                && db.elections[db.sessions[i].electionId].state == Open
  }

  ghost predicate StandsForToken(db: Database, token: string, c: string) {
    exists i, j :: 0 <= i < |db.sessions| && 0 <= j < |db.candidates| && db.sessions[i].token == token
                   && db.candidates[j].info.id == c && db.candidates[j].electionId == db.sessions[i].electionId
  }

  /** The first ground, if any, on which candidates are refused; and so on for the other requests. */
  ghost function AddRefusal(db: Database, e: string, batch: seq<CandidateInfo>): Option<Error> {
    if e !in db.elections then Some(NotFound)
    else if db.elections[e].state != Created || Repeats(db, e, batch) then Some(Conflict)
    else if IdTaken(db, batch) then Some(Integrity)
    else None
  }

  ghost function ChangeRefusal(db: Database, e: string, to: ElectionState): Option<Error> {
    if e !in db.elections then Some(NotFound)
    else if (db.elections[e].state, to) !in ELECTION_MOVES then Some(Conflict)
    else if db.elections[e].state == Locked && !(exists d :: DeviceIs(db, e, d, Active)) then Some(Conflict)
    else None
  }

  ghost function RegisterRefusal(db: Database, e: string, d: string): Option<Error> {
    if e !in db.elections then Some(NotFound)
    else if db.elections[e].state in {Created, Suspended, Closed, Published} || DeviceExists(db, d) then Some(Conflict)
    else None
  }

  ghost function StatusRefusal(db: Database, e: string, d: string, status: DeviceStatus): Option<Error> {
    if !(exists s :: DeviceIs(db, e, d, s)) then Some(NotFound)
    else if DeviceIs(db, e, d, status) || (exists s :: DeviceIs(db, e, d, s) && (s, status) in DEVICE_MOVES) then None
    else Some(Conflict)
  }

  ghost function AuthorizeRefusal(db: Database, e: string, credential: string, d: string, sid: string, token: string)
    : Option<Error>
  {
    if e !in db.elections then Some(NotFound)
    else if db.elections[e].state != Open then Some(Conflict)
    else if !DeviceIs(db, e, d, Active) then Some(Forbidden)
    else if exists i :: 0 <= i < |db.sessions| && db.sessions[i].electionId == e
                        && db.sessions[i].credential == credential then Some(Conflict)
    else if exists i :: 0 <= i < |db.sessions| && (db.sessions[i].id == sid || db.sessions[i].token == token)
      then Some(Integrity)
    else None
  }

  ghost function CastRefusal(db: Database, token: string, c: string, d: string, n: int, id: string): Option<Error> {
    if !TokenKnown(db, token) then Some(NotFound)
    else if !SessionReady(db, token, d) then Some(Conflict)
    else if !DeviceActive(db, d) then Some(Forbidden)
    else if !StandsForToken(db, token, c) then Some(NotFound)
    else if NumberUsed(db, d, n) then Some(Conflict)
    else if BallotIdTaken(db, id) then Some(Integrity)
    else None
  }

  ghost function SignRefusal(db: Database, e: string, key: Option<string>): Option<Error> {
    if e !in db.elections then Some(NotFound)
    else if db.elections[e].state !in {Closed, Published} then Some(BadRequest)
    else if e !in db.manifests then Some(NotFound)
    else if db.manifests[e].reconciliationStatus !in {"PASSED", "EXACT_MATCH"} then Some(BadRequest)
    else if key.None? then Some(Unavailable)
    else None
  }

  ghost function Refusal(db: Database, c: Command): Option<Error> {
    match c
    case CreateElection(e, _) => if e in db.elections then Some(Conflict) else None
    case AddCandidates(e, batch) => AddRefusal(db, e, batch)
    case ChangeState(e, to, _) => ChangeRefusal(db, e, to)
    case RegisterDevice(e, d, _) => RegisterRefusal(db, e, d)
    case UpdateDeviceStatus(e, d, status) => StatusRefusal(db, e, d, status)
    case AuthorizeSession(e, credential, d, sid, token) => AuthorizeRefusal(db, e, credential, d, sid, token)
    case CastVote(token, c, d, n, id) => CastRefusal(db, token, c, d, n, id)
    case RunFullVerification(e) => if e in db.elections then None else Some(NotFound)
    case SignManifest(e, key) => SignRefusal(db, e, key)
    case AnchorElectionRoot(e, provider, _) =>
      if e !in db.elections then Some(NotFound)
      else if provider.UnknownProvider? then Some(BadRequest)
      else None
    case RejectCard(_, _, _, _) => None
  }

  /** Refused with the first ground there is, and granted if there is none. */
  predicate Follows(o: Outcome, refusal: Option<Error>) {
    match refusal
    case Some(error) => o == Rejected(error)
    case None => o.Accepted?
  }

  // ---------- elections ----------

  lemma BatchFresh(db: Database, e: string, batch: seq<CandidateInfo>)
    ensures FreshBatch(Map(InfoOf(), CandidatesOf(db, e)), batch) <==> !Repeats(db, e, batch)
    ensures IdsUnused(db.candidates, batch) <==> !IdTaken(db, batch)
  {
    var own := CandidatesOf(db, e);
    var stored := Map(InfoOf(), own);
    if !FreshBatch(stored, batch) {
      var j :| 0 <= j < |batch|
        && !((forall i :: 0 <= i < |stored| ==> stored[i].id != batch[j].id && stored[i].position != batch[j].position)
             && (forall i :: 0 <= i < j ==> batch[i].id != batch[j].id && batch[i].position != batch[j].position));
      if i :| 0 <= i < |stored| && (stored[i].id == batch[j].id || stored[i].position == batch[j].position) {
        assert own[i] in db.candidates && CandidateIn(e)(own[i]);
        var k :| 0 <= k < |db.candidates| && db.candidates[k] == own[i];
      }
    }
    if FreshBatch(stored, batch) {
      forall i, j | 0 <= i < |db.candidates| && 0 <= j < |batch| && db.candidates[i].electionId == e
        ensures db.candidates[i].info.id != batch[j].id && db.candidates[i].info.position != batch[j].position
      {
        FilterKeeps(CandidateIn(e), db.candidates, i);
        var k :| 0 <= k < |own| && own[k] == db.candidates[i];
        assert stored[k] == db.candidates[i].info;
      }
    }
  }

  lemma AddAnswered(p: Primitives, db: Database, e: string, batch: seq<CandidateInfo>, actor: string, now: DateTime)
    ensures Follows(DoAddCandidates(p, db, e, batch, actor, now), AddRefusal(db, e, batch))
  {
    BatchFresh(db, e, batch);
    hide FreshBatch, IdsUnused, Repeats, IdTaken, LogEvent, CandidatesOf, NewRows, BatchIds;
  }

  lemma MovesAgree(from: ElectionState, to: ElectionState)
    ensures ValidTransition(from, to) <==> (from, to) in ELECTION_MOVES
  {
  }

  lemma ActiveAgrees(db: Database, e: string)
    ensures HasActiveDevice(db, e) <==> exists d :: DeviceIs(db, e, d, Active)
  {
    if i :| 0 <= i < |db.devices| && db.devices[i].electionId == e && db.devices[i].status == Active {
      assert DeviceIs(db, e, db.devices[i].id, Active);
    }
  }

  lemma ChangeAnswered(p: Primitives, db: Database, e: string, to: ElectionState, reason: Option<string>,
                       actor: string, now: DateTime)
    ensures Follows(DoChangeState(p, db, e, to, reason, actor, now), ChangeRefusal(db, e, to))
  {
    ActiveAgrees(db, e);
    if e in db.elections {
      MovesAgree(db.elections[e].state, to);
    }
    assert (Locked, to) in ELECTION_MOVES ==> to == Open;
    hide LogEvent, ValidTransition, HasActiveDevice, ConfigurationHash, Map, CandidatesOf, DeviceIs;
    ChangeByRow(p, db, e, to, reason, actor, now);
    hide DoChangeState;
  }

  // ---------- devices ----------

  lemma ExistsAgrees(db: Database, d: string)
    ensures FindIndex(HasDeviceId(d), db.devices).Some? <==> DeviceExists(db, d)
  {
    hide FindIndex;
  }

  lemma OtherStates(s: ElectionState)
    ensures s in {Created, Suspended, Closed, Published} <==> s !in {Configured, Locked, Open}
  {
    match s {
      case Created =>
      case Configured =>
      case Locked =>
      case Open =>
      case Suspended =>
      case Closed =>
      case Published =>
    }
  }

  lemma RegisterAnswered(p: Primitives, db: Database, e: string, d: string, name: string, actor: string,
                         now: DateTime)
    ensures Follows(DoRegisterDevice(p, db, e, d, name, actor, now), RegisterRefusal(db, e, d))
  {
    ExistsAgrees(db, d);
    hide FindIndex, DeviceExists, LogEvent;
    if e in db.elections {
      OtherStates(db.elections[e].state);
    }
  }

  /** The keys are keys, so that a device is known by its ID. */
  lemma FoundDevice(p: Primitives, db: Database, e: string, d: string, status: DeviceStatus)
    requires TablesOk(p, db)
    ensures DeviceIs(db, e, d, status) <==> OwnDevice(db, e, d).Some? && OwnDevice(db, e, d).value.status == status
  {
    DistinctKeys(p, db);
    hide TablesOk, FindIndex;
    var i := FindIndex(HasDeviceId(d), db.devices);
    if k :| 0 <= k < |db.devices| && db.devices[k].id == d && db.devices[k].electionId == e
            && db.devices[k].status == status {
      assert HasDeviceId(d)(db.devices[k]);
      assert i.Some? && i.value == k;
    }
  }

  lemma DeviceMovesAgree(from: DeviceStatus, to: DeviceStatus)
    ensures ValidStatusTransition(from, to) <==> (from, to) in DEVICE_MOVES
  {
  }

  lemma StatusAnswered(p: Primitives, db: Database, e: string, d: string, status: DeviceStatus, actor: string,
                       now: DateTime)
    requires TablesOk(p, db)
    ensures Follows(DoUpdateDeviceStatus(p, db, e, d, status, actor, now), StatusRefusal(db, e, d, status))
  {
    hide TablesOk, DoUpdateDeviceStatus, LogEvent, ValidStatusTransition, DeviceIs, FindIndex;
    StatusByDevice(p, db, e, d, status, actor, now);
    forall s
      ensures DeviceIs(db, e, d, s) <==> OwnDevice(db, e, d).Some? && OwnDevice(db, e, d).value.status == s
      ensures ValidStatusTransition(s, status) <==> (s, status) in DEVICE_MOVES
    {
      FoundDevice(p, db, e, d, s);
      DeviceMovesAgree(s, status);
    }
    var own := OwnDevice(db, e, d);
    if own.Some? {
      assert DeviceIs(db, e, d, own.value.status);
    }
  }

  // ---------- voting ----------

  lemma AuthorizeAnswered(p: Primitives, db: Database, e: string, credential: string, d: string, sid: string,
                          token: string, actor: string, now: DateTime)
    requires TablesOk(p, db)
    ensures Follows(DoAuthorizeSession(p, db, e, credential, d, sid, token, actor, now),
                    AuthorizeRefusal(db, e, credential, d, sid, token))
  {
    hide TablesOk, DoAuthorizeSession, AuthorizeOutcome, DeviceIs, OwnDevice;
    FoundDevice(p, db, e, d, Active);
    AuthorizeByDevice(p, db, e, credential, d, sid, token, actor, now);
  }

  lemma UnknownToken(db: Database, token: string, c: string, d: string, n: int, id: string)
    ensures TokenKnown(db, token) <==> FindIndex(HasToken(token), db.sessions).Some?
    ensures !TokenKnown(db, token) ==> VoteChecks(db, token, c, d, n, id) == Err(NotFound)
  {
    FoundMeansExists(HasToken(token), db.sessions);
    hide FindIndex;
  }

  /** The rows that the guards find are the only ones with the token, and its device is found. */
  lemma FoundAlone<T>(h: T -> bool, xs: seq<T>, i: nat)
    requires i < |xs| && h(xs[i]) && forall x, y :: 0 <= x < y < |xs| ==> !(h(xs[x]) && h(xs[y]))
    ensures FindIndex(h, xs) == Some(i)
    ensures forall x :: 0 <= x < |xs| && h(xs[x]) ==> x == i
  {
    hide FindIndex;
    assert FindIndex(h, xs).Some?;
  }

  lemma TokenSession(p: Primitives, db: Database, i: nat, token: string)
    requires TablesOk(p, db) && i < |db.sessions| && db.sessions[i].token == token
    ensures FindIndex(HasToken(token), db.sessions) == Some(i)
    ensures forall x :: 0 <= x < |db.sessions| && db.sessions[x].token == token ==> x == i
  {
    DistinctKeys(p, db);
    hide TablesOk, FindIndex;
    FoundAlone(HasToken(token), db.sessions, i);
    assert forall x :: 0 <= x < |db.sessions| ==> HasToken(token)(db.sessions[x]) == (db.sessions[x].token == token);
  }

  lemma CandidateFound(p: Primitives, db: Database, e: string, c: string)
    requires TablesOk(p, db)
    ensures OwnCandidate(db, e, c) <==>
            exists j :: 0 <= j < |db.candidates| && db.candidates[j].info.id == c && db.candidates[j].electionId == e
  {
    DistinctKeys(p, db);
    hide TablesOk, FindIndex;
    var j := FindIndex(HasCandidateId(c), db.candidates);
    if y :| 0 <= y < |db.candidates| && db.candidates[y].info.id == c && db.candidates[y].electionId == e {
      assert HasCandidateId(c)(db.candidates[y]);
      assert j.Some? && j.value == y;
    }
  }

  lemma SessionOwned(p: Primitives, db: Database, i: nat, token: string)
    requires TablesOk(p, db) && i < |db.sessions| && db.sessions[i].token == token
    ensures OwnSession(db, db.sessions[i].electionId, token) == Some(db.sessions[i])
    ensures OwnDevice(db, db.sessions[i].electionId, db.sessions[i].deviceId).Some?
  {
    TokenSession(p, db, i, token);
    hide TablesOk, FindIndex, OwnDevice;
    SessionDeviceFound(p, db, db.sessions[i].electionId, token);
  }

  lemma ReadyByRow(db: Database, i: nat, token: string, d: string)
    requires i < |db.sessions| && db.sessions[i].token == token
    requires forall x :: 0 <= x < |db.sessions| && db.sessions[x].token == token ==> x == i
    ensures var s := db.sessions[i];
            SessionReady(db, token, d) <==>
            s.status == Authorized && s.deviceId == d && s.electionId in db.elections
            && db.elections[s.electionId].state == Open
  {
  }

  lemma StandsByRow(db: Database, i: nat, token: string, c: string)
    requires i < |db.sessions| && db.sessions[i].token == token
    requires forall x :: 0 <= x < |db.sessions| && db.sessions[x].token == token ==> x == i
    ensures StandsForToken(db, token, c) <==>
            exists j :: 0 <= j < |db.candidates| && db.candidates[j].info.id == c
                        && db.candidates[j].electionId == db.sessions[i].electionId
  {
  }

  /** The device that a session is bound to is the one the request names, by its ID alone. */
  lemma NamedDevice(p: Primitives, db: Database, e: string, d: string)
    requires TablesOk(p, db) && OwnDevice(db, e, d).Some?
    ensures var x := OwnDevice(db, e, d).value;
            forall k :: 0 <= k < |db.devices| ==> (db.devices[k].id == d <==> db.devices[k] == x)
    ensures exists k :: 0 <= k < |db.devices| && db.devices[k] == OwnDevice(db, e, d).value
  {
    DistinctKeys(p, db);
    hide TablesOk, FindIndex;
    var i := FindIndex(HasDeviceId(d), db.devices).value;
    assert HasDeviceId(d)(db.devices[i]);
    forall k | 0 <= k < |db.devices|
      ensures db.devices[k].id == d <==> db.devices[k] == db.devices[i]
    {
      if db.devices[k].id == d {
        assert HasDeviceId(d)(db.devices[k]);
        assert k == i;
      }
    }
  }

  lemma ChecksAnswered(p: Primitives, db: Database, i: nat, token: string, c: string, d: string, n: int, id: string)
    requires TablesOk(p, db) && i < |db.sessions| && db.sessions[i].token == token
    ensures var v := VoteChecks(db, token, c, d, n, id);
            CastRefusal(db, token, c, d, n, id) == if v.Err? then Some(v.error) else None
  {
    var e, d1 := db.sessions[i].electionId, db.sessions[i].deviceId;
    hide TablesOk, VoteChecks, FindIndex, SessionReady, StandsForToken, OwnSession, OwnDevice, OwnCandidate;
    TokenSession(p, db, i, token);
    SessionOwned(p, db, i, token);
    ReadyByRow(db, i, token, d);
    StandsByRow(db, i, token, c);
    CandidateFound(p, db, e, c);
    NamedDevice(p, db, e, d1);
    ChecksByRows(db, e, token, c, d, n, id);
    DeviceFacts(db, d1, OwnDevice(db, e, d1).value, n);
    TokenFound(db, i, token);
    IdsAgree(db, id);
    hide HasToken, HasDeviceId, HasCandidateId, BallotIdFree, BallotIdTaken, TokenKnown, DeviceActive, NumberUsed;
  }

  lemma TokenFound(db: Database, i: nat, token: string)
    requires i < |db.sessions| && db.sessions[i].token == token
    ensures TokenKnown(db, token)
  {
  }

  lemma IdsAgree(db: Database, id: string)
    ensures BallotIdFree(db, id) <==> !BallotIdTaken(db, id)
  {
  }

  lemma DeviceFacts(db: Database, d: string, x: Device, n: int)
    requires forall k :: 0 <= k < |db.devices| ==> (db.devices[k].id == d <==> db.devices[k] == x)
    requires exists k :: 0 <= k < |db.devices| && db.devices[k] == x
    ensures DeviceActive(db, d) <==> x.status == Active
    ensures NumberUsed(db, d, n) <==> n <= x.lastSequenceNumber
  {
  }

  lemma CastAnswered(p: Primitives, db: Database, token: string, c: string, d: string, n: int, id: string,
                     actor: string, now: DateTime)
    requires TablesOk(p, db)
    ensures Follows(DoCastVote(p, db, token, c, d, n, id, actor, now), CastRefusal(db, token, c, d, n, id))
  {
    hide TablesOk, VoteChecks, DoCastVote, FindIndex, SessionReady, StandsForToken, VoteOutcome;
    VoteByChecks(p, db, token, c, d, n, id, actor, now);
    UnknownToken(db, token, c, d, n, id);
    if i :| 0 <= i < |db.sessions| && db.sessions[i].token == token {
      hide CastRefusal;
      ChecksAnswered(p, db, i, token, c, d, n, id);
    }
  }

  // ---------- verification, signing, anchoring ----------

  lemma SignAnswered(p: Primitives, db: Database, e: string, key: Option<string>, actor: string, now: DateTime)
    ensures Follows(DoSignManifest(p, db, e, key, actor, now), SignRefusal(db, e, key))
  {
    hide LogEvent, SignPayload, PayloadOf;
  }

  lemma OthersAnswered(p: Primitives, db: Database, r: Request)
    requires r.command.RunFullVerification? || r.command.AnchorElectionRoot? || r.command.RejectCard?
             || r.command.CreateElection?
    ensures Follows(Serve(p, db, r), Refusal(db, r.command))
  {
    hide LogEvent, VerifiedManifest, ManifestFrom, ReceiptFor;
  }

  /**
   * Every answer, exactly. In every state with well-kept tables, hence in every reachable one, a request is refused
   * with the first ground there is among the rows, and granted if there is none.
   */
  lemma AnsweredExactly(p: Primitives, db: Database, r: Request)
    requires TablesOk(p, db)
    ensures match Refusal(db, r.command)
            case Some(error) => Serve(p, db, r) == Rejected(error)
            case None => Serve(p, db, r).Accepted?
  {
    hide TablesOk, DoAddCandidates, DoChangeState, DoRegisterDevice, DoUpdateDeviceStatus, DoAuthorizeSession,
         DoCastVote, DoSignManifest, AddRefusal, ChangeRefusal, RegisterRefusal, StatusRefusal, AuthorizeRefusal,
         CastRefusal, SignRefusal, LogEvent;
    match r.command {
      case AddCandidates(e, batch) => AddAnswered(p, db, e, batch, r.actor, r.now);
      case ChangeState(e, to, reason) => ChangeAnswered(p, db, e, to, reason, r.actor, r.now);
      case RegisterDevice(e, d, name) => RegisterAnswered(p, db, e, d, name, r.actor, r.now);
      case UpdateDeviceStatus(e, d, status) => StatusAnswered(p, db, e, d, status, r.actor, r.now);
      case AuthorizeSession(e, credential, d, sid, token) =>
        AuthorizeAnswered(p, db, e, credential, d, sid, token, r.actor, r.now);
      case CastVote(token, c, d, n, id) => CastAnswered(p, db, token, c, d, n, id, r.actor, r.now);
      case SignManifest(e, key) => SignAnswered(p, db, e, key, r.actor, r.now);
      case _ => OthersAnswered(p, db, r);
    }
  }
}
