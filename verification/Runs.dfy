/** The invariant of the whole system, kept by every request, hence by every run. */
module Runs {
  import opened Prelude
  import opened Text
  import opened Timestamps
  import opened Grouping
  import opened Records
  import opened Hashing
  import opened AuditChain
  import opened Export
  import opened Transactions
  import opened Invariants

  // ---------- audit logs, manifests, anchors ----------

  /** A valid chain whose event types never hold the field separator. */
  ghost predicate LogOk(p: Primitives, log: seq<AuditEntry>) {
    ValidLog(p, log) && forall i :: 0 <= i < |log| ==> PipeFree(log[i].eventType)
  }

  ghost predicate LogsOk(p: Primitives, audit: map<string, seq<AuditEntry>>) {
    forall e :: e in audit ==> LogOk(p, audit[e])
  }

  /** Every election has at least its creation entry. */
  ghost predicate LogsPresent(elections: set<string>, audit: map<string, seq<AuditEntry>>) {
    forall e :: e in elections ==> e in audit && audit[e] != []
  }

  ghost predicate ManifestRowOk(p: Primitives, e: string, m: Manifest) {
    && m.electionId == e
    && m.manifestHash == ManifestHash(p, DataOf(m))
    && m.reconciliationStatus == "PASSED"
    && m.auditChainStatus == "INTACT"
    && (m.digitalSignature.Some? ==>
          var s := m.digitalSignature.value;
          s.payload.electionId == e && p.verify(s.publicKey, s.payload, s.signature))
  }

  ghost predicate ManifestsOk(p: Primitives, elections: set<string>, manifests: map<string, Manifest>) {
    forall e :: e in manifests ==> e in elections && ManifestRowOk(p, e, manifests[e])
  }

  ghost predicate HashInLog(log: seq<AuditEntry>, h: string) {
    exists i :: 0 <= i < |log| && log[i].entryHash == h
  }

  /** Every stored receipt is for a hash that stands in its election's log. */
  ghost predicate AnchorsOk(db: Database) {
    forall r :: r in db.anchors ==> HashInLog(LogOf(db, db.anchors[r].electionId), db.anchors[r].rootHash)
  }

  ghost predicate Inv(p: Primitives, db: Database) {
    && TablesOk(p, db)
    && LogsOk(p, db.audit)
    && LogsPresent(db.elections.Keys, db.audit)
    && ManifestsOk(p, db.elections.Keys, db.manifests)
    && AnchorsOk(db)
  }

  // ---------- logging ----------

  lemma LogStaysOk(p: Primitives, log: seq<AuditEntry>, eventType: string, data: Option<string>,
                   actor: Option<string>, deviceId: Option<string>, now: DateTime)
    requires LogOk(p, log) && PipeFree(eventType)
    ensures LogOk(p, log + [NextEntry(p, log, eventType, data, actor, deviceId, now)])
  {
    AppendKeepsValid(p, log, eventType, data, actor, deviceId, now);
  }

  lemma EmptyLogOk(p: Primitives)
    ensures LogOk(p, [])
  {
  }

  /** Logging an event keeps every chain valid and every receipt known. */
  lemma LogGrows(p: Primitives, db: Database, e: string, eventType: string, data: EventData,
                 actor: string, deviceId: Option<string>, now: DateTime)
    ensures var db' := LogEvent(p, db, e, eventType, data, actor, deviceId, now);
            LogOf(db, e) < LogOf(db', e) && forall x :: x != e ==> LogOf(db', x) == LogOf(db, x)
  {
    hide NextEntry;
  }

  lemma HashStays(log: seq<AuditEntry>, longer: seq<AuditEntry>, h: string)
    requires HashInLog(log, h) && log <= longer
    ensures HashInLog(longer, h)
  {
    var i :| 0 <= i < |log| && log[i].entryHash == h;
    assert longer[i] == log[i];
  }

  lemma LogEventKeeps(p: Primitives, db: Database, e: string, eventType: string, data: EventData,
                      actor: string, deviceId: Option<string>, now: DateTime)
    requires LogsOk(p, db.audit) && AnchorsOk(db) && PipeFree(eventType)
    requires LogsPresent(db.elections.Keys - {e}, db.audit)
    ensures var db' := LogEvent(p, db, e, eventType, data, actor, deviceId, now);
            && LogsOk(p, db'.audit)
            && LogsPresent(db'.elections.Keys, db'.audit)
            && AnchorsOk(db')
            && LogOf(db, e) < LogOf(db', e)
            && (forall x :: x != e ==> LogOf(db', x) == LogOf(db, x))
  {
    LogGrows(p, db, e, eventType, data, actor, deviceId, now);
    hide LogOk, HashInLog, NextEntry;
    var log := LogOf(db, e);
    var db' := LogEvent(p, db, e, eventType, data, actor, deviceId, now);
    EmptyLogOk(p);
    LogStaysOk(p, log, eventType, Some(p.eventJson(data)), Some(actor), deviceId, now);
    hide LogOf;
    forall r | r in db'.anchors
      ensures HashInLog(LogOf(db', db'.anchors[r].electionId), db'.anchors[r].rootHash)
    {
      HashStays(LogOf(db, db.anchors[r].electionId), LogOf(db', db.anchors[r].electionId), db.anchors[r].rootHash);
    }
  }

  /** From good tables and good side tables to the invariant after logging. */
  lemma Logged(p: Primitives, db: Database, e: string, eventType: string, data: EventData,
               actor: string, deviceId: Option<string>, now: DateTime)
    requires TablesOk(p, db) && LogsOk(p, db.audit) && AnchorsOk(db) && PipeFree(eventType)
    requires LogsPresent(db.elections.Keys - {e}, db.audit)
    requires ManifestsOk(p, db.elections.Keys, db.manifests)
    ensures Inv(p, LogEvent(p, db, e, eventType, data, actor, deviceId, now))
  {
    hide LogsOk, AnchorsOk, LogsPresent, ManifestsOk;
    LogEventKeeps(p, db, e, eventType, data, actor, deviceId, now);
    TablesIgnoreLog(p, db, LogEvent(p, db, e, eventType, data, actor, deviceId, now));
  }

  lemma TablesIgnoreLog(p: Primitives, a: Database, b: Database)
    requires TablesOk(p, a) && SameTables(a, b)
    ensures TablesOk(p, b)
  {
    hide CandidatesOk, DevicesOk, SessionsOk, BallotsOk, VotesKept, DeviceCountersOk, ElectionTotalsOk,
         ConfigurationsOk;
  }

  lemma ManifestsSurvive(p: Primitives, a: set<string>, b: set<string>, manifests: map<string, Manifest>)
    requires ManifestsOk(p, a, manifests) && a <= b
    ensures ManifestsOk(p, b, manifests)
  {
  }

  lemma InvTables(p: Primitives, db: Database)
    requires Inv(p, db)
    ensures TablesOk(p, db)
  {
    hide TablesOk, LogsOk, LogsPresent, ManifestsOk, AnchorsOk;
  }

  lemma AnchorsIgnoreTables(a: Database, b: Database)
    requires AnchorsOk(a) && a.audit == b.audit && a.anchors == b.anchors
    ensures AnchorsOk(b)
  {
    hide HashInLog;
    forall r | r in b.anchors ensures HashInLog(LogOf(b, b.anchors[r].electionId), b.anchors[r].rootHash) {
      assert LogOf(a, a.anchors[r].electionId) == LogOf(b, b.anchors[r].electionId);
    }
  }

  /** A service call that changes tables, possibly adding election e, and then logs one event. */
  lemma TablesLogged(p: Primitives, db: Database, db1: Database, e: string, eventType: string, data: EventData,
                     actor: string, deviceId: Option<string>, now: DateTime)
    requires Inv(p, db) && TablesOk(p, db1) && PipeFree(eventType)
    requires db1.audit == db.audit && db1.anchors == db.anchors && db1.manifests == db.manifests
    requires db1.elections.Keys == db.elections.Keys || db1.elections.Keys == db.elections.Keys + {e}
    ensures Inv(p, LogEvent(p, db1, e, eventType, data, actor, deviceId, now))
  {
    hide TablesOk, LogsOk, ManifestsOk, AnchorsOk;
    AnchorsIgnoreTables(db, db1);
    ManifestsSurvive(p, db.elections.Keys, db1.elections.Keys, db.manifests);
    Logged(p, db1, e, eventType, data, actor, deviceId, now);
  }

  /** A service call that stores a manifest of election e and then logs one event. */
  lemma ManifestLogged(p: Primitives, db: Database, e: string, m: Manifest, eventType: string, data: EventData,
                       actor: string, now: DateTime)
    requires Inv(p, db) && e in db.elections && ManifestRowOk(p, e, m) && PipeFree(eventType)
    ensures Inv(p, LogEvent(p, db.(manifests := db.manifests[e := m]), e, eventType, data, actor, None, now))
  {
    hide TablesOk, LogsOk, AnchorsOk, ManifestRowOk;
    var db1 := db.(manifests := db.manifests[e := m]);
    AnchorsIgnoreTables(db, db1);
    TablesIgnoreLog(p, db, db1);
    Logged(p, db1, e, eventType, data, actor, None, now);
  }

  // ---------- one lemma per service call ----------

  lemma CreateKeeps(p: Primitives, db: Database, e: string, name: string, actor: string, now: DateTime)
    requires Inv(p, db)
    ensures var o := DoCreateElection(p, db, e, name, actor, now); o.Accepted? ==> Inv(p, o.db)
  {
    hide Inv, TablesOk, LogEvent;
    InvTables(p, db);
    if e !in db.elections {
      var db1 := db.(elections := db.elections[e := Election(e, name, Created, None, 0)]);
      CreateKeepsTables(p, db, e, name);
      TablesLogged(p, db, db1, e, "ELECTION_CREATED", ElectionCreatedData(e, name), actor, None, now);
    }
  }

  lemma AddKeeps(p: Primitives, db: Database, e: string, batch: seq<CandidateInfo>, actor: string, now: DateTime)
    requires Inv(p, db)
    ensures var o := DoAddCandidates(p, db, e, batch, actor, now); o.Accepted? ==> Inv(p, o.db)
  {
    hide Inv, TablesOk, LogEvent, FreshBatch, IdsUnused;
    InvTables(p, db);
    if DoAddCandidates(p, db, e, batch, actor, now).Accepted? {
      var enough := |CandidatesOf(db, e)| + |batch| >= 2;
      var row := if enough then db.elections[e].(state := Configured) else db.elections[e];
      var db1 := db.(candidates := db.candidates + NewRows(e, batch), elections := db.elections[e := row]);
      AddKeepsTables(p, db, e, batch, row);
      assert db1.elections.Keys == db.elections.Keys;
      TablesLogged(p, db, db1, e, "CANDIDATES_ADDED", CandidatesAddedData(|batch|, BatchIds(batch), enough), actor,
                   None, now);
    }
  }

  lemma ChangeKeeps(p: Primitives, db: Database, e: string, to: ElectionState, reason: Option<string>,
                    actor: string, now: DateTime)
    requires Inv(p, db)
    ensures var o := DoChangeState(p, db, e, to, reason, actor, now); o.Accepted? ==> Inv(p, o.db)
  {
    hide Inv, TablesOk, LogEvent, HasActiveDevice;
    InvTables(p, db);
    if DoChangeState(p, db, e, to, reason, actor, now).Accepted? {
      var row := db.elections[e];
      var row1 :=
        if row.state == Configured && to == Locked then
          row.(state := to, configurationHash := Some(ConfigurationHash(p, e, Map(InfoOf(), CandidatesOf(db, e)))))
        else row.(state := to);
      ElectionIdIsKey(p, db, e);
      ChangeKeepsTables(p, db, e, row1);
      var db1 := db.(elections := db.elections[e := row1]);
      assert db1.elections.Keys == db.elections.Keys;
      TablesLogged(p, db, db1, e, "STATE_CHANGE", StateChangeData(row.state, to, reason), actor, None, now);
    }
  }

  lemma RegisterKeeps(p: Primitives, db: Database, e: string, d: string, name: string, actor: string, now: DateTime)
    requires Inv(p, db)
    ensures var o := DoRegisterDevice(p, db, e, d, name, actor, now); o.Accepted? ==> Inv(p, o.db)
  {
    hide Inv, TablesOk, LogEvent;
    InvTables(p, db);
    if DoRegisterDevice(p, db, e, d, name, actor, now).Accepted? {
      RegisterKeepsTables(p, db, e, d, name);
      TablesLogged(p, db, db.(devices := db.devices + [Device(d, e, name, Registered, 0, 0)]), e, "DEVICE_REGISTERED",
             DeviceRegisteredData(d, name), actor, Some(d), now);
    }
  }

  lemma UpdateKeeps(p: Primitives, db: Database, e: string, d: string, status: DeviceStatus, actor: string,
                    now: DateTime)
    requires Inv(p, db)
    ensures var o := DoUpdateDeviceStatus(p, db, e, d, status, actor, now); o.Accepted? ==> Inv(p, o.db)
  {
    hide Inv, TablesOk, LogEvent;
    InvTables(p, db);
    var o := DoUpdateDeviceStatus(p, db, e, d, status, actor, now);
    if o.Accepted? && o.db != db {
      var i := FindIndex(HasDeviceId(d), db.devices).value;
      var row := db.devices[i];
      UpdateKeepsTables(p, db, i, status);
      TablesLogged(p, db, db.(devices := db.devices[i := row.(status := status)]), e, "DEVICE_STATUS_CHANGED",
             DeviceStatusData(d, row.status, status), actor, Some(d), now);
    }
  }

  lemma AuthorizeKeeps(p: Primitives, db: Database, e: string, credential: string, d: string,
                       sessionId: string, token: string, actor: string, now: DateTime)
    requires Inv(p, db)
    ensures var o := DoAuthorizeSession(p, db, e, credential, d, sessionId, token, actor, now);
            o.Accepted? ==> Inv(p, o.db)
  {
    hide Inv, TablesOk, LogEvent, CredentialUsed, SessionKeysFree;
    InvTables(p, db);
    if DoAuthorizeSession(p, db, e, credential, d, sessionId, token, actor, now).Accepted? {
      var s := Session(sessionId, e, d, token, credential, Authorized);
      var i := FindIndex(HasDeviceId(d), db.devices).value;
      assert HasDeviceId(d)(db.devices[i]);
      assert HasDevice(db.devices, d, e);
      AuthorizeKeepsTables(p, db, s);
      TablesLogged(p, db, db.(sessions := db.sessions + [s]), e, "SESSION_AUTHORIZED",
             SessionAuthorizedData(sessionId, d, credential), actor, Some(d), now);
    }
  }

  lemma CastKeeps(p: Primitives, db: Database, token: string, c: string, d: string, n: int, id: string,
                  actor: string, now: DateTime)
    requires Inv(p, db)
    ensures var o := DoCastVote(p, db, token, c, d, n, id, actor, now); o.Accepted? ==> Inv(p, o.db)
  {
    hide Inv, TablesOk, LogEvent, BallotIdFree;
    InvTables(p, db);
    if VoteChecks(db, token, c, d, n, id).Ok? {
      var (i, k) := VoteChecks(db, token, c, d, n, id).value;
      var s := db.sessions[i];
      var b := NewBallot(p, s, c, d, n, id, now);
      VoteKeepsTables(p, db, i, k, c, d, n, id, now);
      var db1 := RecordVote(db, i, k, b);
      assert db1.elections.Keys == db.elections.Keys;
      TablesLogged(p, db, db1, s.electionId, "VOTE_CAST", VoteCastData(id, d, n, b.ballotHash), actor, Some(d), now);
    }
  }

  // ---------- verification ----------

  /** The ballots of a device of election e are ballots of e. */
  lemma DeviceBallotsInElection(p: Primitives, db: Database, i: nat)
    requires DevicesOk(db.elections.Keys, db.devices)
    requires BallotsOk(p, db.candidates, db.devices, db.sessions, db.ballots)
    requires i < |db.devices|
    ensures Filter(Keyed(BallotDevice(), db.devices[i].id), BallotsOf(db, db.devices[i].electionId))
            == Filter(Keyed(BallotDevice(), db.devices[i].id), db.ballots)
  {
    var d, e := db.devices[i].id, db.devices[i].electionId;
    forall b | b in db.ballots && Keyed(BallotDevice(), d)(b) ensures BallotIn(e)(b) {
      assert BallotOk(p, db.candidates, db.devices, db.sessions, b);
      var j :| 0 <= j < |db.devices| && db.devices[j].id == b.deviceId && db.devices[j].electionId == b.electionId;
      assert j == i;
    }
    FilterFilter(BallotIn(e), Keyed(BallotDevice(), d), db.ballots);
  }

  /** In every state the stored totals are the counted ones, so reconciliation passes. */
  lemma StoredTotalsAlwaysMatch(p: Primitives, db: Database, e: string)
    requires TablesOk(p, db) && e in db.elections
    ensures StoredTotalsMatch(Some(db.elections[e]), DevicesOf(db, e), BallotsOf(db, e))
  {
    hide CandidatesOk, SessionsOk, BallotsOk, VotesKept, ConfigurationsOk, DevicesOk;
    var devices := DevicesOf(db, e);
    forall x | 0 <= x < |devices|
      ensures devices[x].totalVotesCast == CountOf(BallotDevice(), BallotsOf(db, e), devices[x].id)
    {
      assert devices[x] in db.devices && DeviceIn(e)(devices[x]);
      var i :| 0 <= i < |db.devices| && db.devices[i] == devices[x];
      DeviceBallotsInElection(p, db, i);
    }
  }

  lemma VerifiedIsCurrent(p: Primitives, db: Database, e: string)
    requires Inv(p, db) && e in db.elections
    ensures VerifiedManifest(p, db, e) == CurrentManifest(ViewOf(db, e))
  {
    hide StoredTotalsMatch, ManifestsOk, AnchorsOk;
    StoredTotalsAlwaysMatch(p, db, e);
    assert LogOk(p, LogOf(db, e));
    assert db.elections[e].id == e by {
      assert ConfigurationsOk(p, db.elections, db.candidates);
    }
  }

  lemma VerifyKeeps(p: Primitives, db: Database, e: string, actor: string, now: DateTime)
    requires Inv(p, db)
    ensures var o := DoRunFullVerification(p, db, e, actor, now); o.Accepted? ==> Inv(p, o.db)
  {
    hide Inv, TablesOk, LogEvent, VerifiedManifest;
    InvTables(p, db);
    if e in db.elections {
      VerifiedIsCurrent(p, db, e);
      var data := VerifiedManifest(p, db, e);
      var m := ManifestFrom(p, data, ManifestOf(db, e));
      assert DataOf(m) == data;
      assert data.electionId == e by {
        ElectionIdIsKey(p, db, e);
      }
      if e in db.manifests {
        StoredManifestOk(p, db, e);
      }
      assert ManifestRowOk(p, e, m);
      ManifestLogged(p, db, e, m, "MANIFEST_GENERATED",
             ManifestGeneratedData(m.manifestHash, data.reconciliationStatus, data.auditChainStatus, data.totalBallots),
             actor, now);
    }
  }

  lemma ElectionIdIsKey(p: Primitives, db: Database, e: string)
    requires TablesOk(p, db) && e in db.elections
    ensures db.elections[e].id == e
  {
    hide CandidatesOk, DevicesOk, SessionsOk, BallotsOk, VotesKept, DeviceCountersOk, ElectionTotalsOk;
  }

  lemma StoredManifestOk(p: Primitives, db: Database, e: string)
    requires Inv(p, db) && e in db.manifests
    ensures e in db.elections && ManifestRowOk(p, e, db.manifests[e])
  {
    hide TablesOk, LogsOk, LogsPresent, AnchorsOk, ManifestRowOk;
  }

  lemma SignKeeps(p: Primitives, db: Database, e: string, key: Option<string>, actor: string, now: DateTime)
    requires Inv(p, db) && p.Sound()
    ensures var o := DoSignManifest(p, db, e, key, actor, now); o.Accepted? ==> Inv(p, o.db)
  {
    hide Inv, LogEvent;
    if DoSignManifest(p, db, e, key, actor, now).Accepted? {
      var m := db.manifests[e];
      var s := SignPayload(p, key.value, PayloadOf(m, e, Root(LogOf(db, e))));
      var m1 := m.(digitalSignature := Some(s));
      StoredManifestOk(p, db, e);
      assert DataOf(m1) == DataOf(m);
      assert ManifestRowOk(p, e, m1);
      ManifestLogged(p, db, e, m1, "MANIFEST_SIGNED", ManifestSignedData(m.manifestHash, s.publicKey), actor, now);
    }
  }

  lemma ValidRootInLog(p: Primitives, log: seq<AuditEntry>)
    requires p.Sound() && ValidLog(p, log) && log != []
    ensures Root(log) == log[|log| - 1].entryHash && HashInLog(log, Root(log))
  {
    assert HashMatches(p, log[|log| - 1]);
    assert IsHex(log[|log| - 1].entryHash);
  }

  lemma StoreReceipt(p: Primitives, db: Database, r: AnchorReceipt)
    requires Inv(p, db) && HashInLog(LogOf(db, r.electionId), r.rootHash)
    ensures Inv(p, db.(anchors := db.anchors[r.reference := r]))
  {
    hide TablesOk, LogsOk, ManifestsOk, LogsPresent;
    var db1 := db.(anchors := db.anchors[r.reference := r]);
    assert LogOf(db1, r.electionId) == LogOf(db, r.electionId);
    TablesIgnoreLog(p, db, db1);
    forall x | x in db1.anchors ensures HashInLog(LogOf(db1, db1.anchors[x].electionId), db1.anchors[x].rootHash) {
      assert LogOf(db1, db1.anchors[x].electionId) == LogOf(db, db1.anchors[x].electionId);
    }
  }

  lemma InvIsLoggable(p: Primitives, db: Database, e: string, eventType: string, data: EventData,
                      actor: string, deviceId: Option<string>, now: DateTime)
    requires Inv(p, db) && PipeFree(eventType)
    ensures Inv(p, LogEvent(p, db, e, eventType, data, actor, deviceId, now))
  {
    hide TablesOk, LogsOk, ManifestsOk, AnchorsOk;
    Logged(p, db, e, eventType, data, actor, deviceId, now);
  }

  lemma RootStands(p: Primitives, db: Database, e: string)
    requires p.Sound() && Inv(p, db) && e in db.elections
    ensures HashInLog(LogOf(db, e), Root(LogOf(db, e)))
  {
    hide TablesOk, ManifestsOk, AnchorsOk, LogOk;
    LogOkIsValid(p, LogOf(db, e));
    ValidRootInLog(p, LogOf(db, e));
  }

  lemma AnchorKeeps(p: Primitives, db: Database, e: string, provider: Provider, id: string, actor: string,
                    now: DateTime)
    requires Inv(p, db) && p.Sound()
    ensures var o := DoAnchorElectionRoot(p, db, e, provider, id, actor, now); o.Accepted? ==> Inv(p, o.db)
  {
    hide Inv, HashInLog;
    if e in db.elections {
      var r := ReceiptFor(p, db, e, id);
      RootStands(p, db, e);
      match provider
      case UnknownProvider =>
      case LocalProvider =>
        StoreReceipt(p, db, r);
        InvIsLoggable(p, db.(anchors := db.anchors[r.reference := r]), e, "AUDIT_ROOT_ANCHORED",
                      RootAnchoredData("LOCAL ANCHOR", r.reference, r.rootHash), actor, None, now);
      case ExternalProvider(configured) =>
        InvIsLoggable(p, db, e, "AUDIT_ROOT_ANCHORED", RootAnchoredData("EXTERNAL ANCHOR", id, r.rootHash), actor,
                      None, now);
    }
  }

  lemma LogOkIsValid(p: Primitives, log: seq<AuditEntry>)
    requires LogOk(p, log)
    ensures ValidLog(p, log)
  {
  }

  // ---------- steps and runs ----------

  /** Every request, granted or refused, keeps the invariant. */
  lemma StepKeepsInv(p: Primitives, db: Database, r: Request)
    requires p.Sound() && Inv(p, db)
    ensures Inv(p, Step(p, db, r))
  {
    hide Inv, DoCreateElection, DoAddCandidates, DoChangeState, DoRegisterDevice, DoUpdateDeviceStatus,
         DoAuthorizeSession, DoCastVote, DoRunFullVerification, DoSignManifest, DoAnchorElectionRoot;
    match r.command
    case CreateElection(e, name) => CreateKeeps(p, db, e, name, r.actor, r.now);
    case AddCandidates(e, batch) => AddKeeps(p, db, e, batch, r.actor, r.now);
    case ChangeState(e, to, reason) => ChangeKeeps(p, db, e, to, reason, r.actor, r.now);
    case RegisterDevice(e, d, name) => RegisterKeeps(p, db, e, d, name, r.actor, r.now);
    case UpdateDeviceStatus(e, d, status) => UpdateKeeps(p, db, e, d, status, r.actor, r.now);
    case AuthorizeSession(e, credential, d, sid, token) =>
      AuthorizeKeeps(p, db, e, credential, d, sid, token, r.actor, r.now);
    case CastVote(token, c, d, n, id) => CastKeeps(p, db, token, c, d, n, id, r.actor, r.now);
    case RunFullVerification(e) => VerifyKeeps(p, db, e, r.actor, r.now);
    case SignManifest(e, key) => SignKeeps(p, db, e, key, r.actor, r.now);
    case AnchorElectionRoot(e, provider, id) => AnchorKeeps(p, db, e, provider, id, r.actor, r.now);
    case RejectCard(e, cause, pseudonym, d) => 
      InvIsLoggable(p, db, e, "RFID_CARD_REJECTED", CardRejectedData(cause, pseudonym), "rfid_reader", Some(d), r.now);
  }

  lemma EmptyInv(p: Primitives)
    ensures Inv(p, EMPTY)
  {
  }

  lemma {:induction false} RunKeepsInv(p: Primitives, db: Database, rs: seq<Request>)
    requires p.Sound() && Inv(p, db)
    ensures Inv(p, Run(p, db, rs))
  {
    hide Inv, Step;
    if rs != [] {
      RunKeepsInv(p, db, rs[..|rs| - 1]);
      StepKeepsInv(p, Run(p, db, rs[..|rs| - 1]), rs[|rs| - 1]);
    }
  }

  /** Every state a run can reach. */
  lemma ReachableInv(p: Primitives, rs: seq<Request>)
    requires p.Sound()
    ensures Inv(p, Run(p, EMPTY, rs))
  {
    EmptyInv(p);
    RunKeepsInv(p, EMPTY, rs);
  }
}
