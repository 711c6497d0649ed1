/** The backend services over one database session per request. */
module Backend {
  import opened Prelude
  import opened Text
  import opened Timestamps
  import opened Records
  import opened Hashing
  import opened AuditChain
  import opened Export
  import opened Transactions
  import opened Reconciliation
  import opened Answers
  import opened Configuring

  datatype Verification = Verification(
    configValid: bool, auditIntact: bool, reconPassed: bool, tallyVerified: bool, overallPassed: bool)

  /** A request either reaches the specified new tables, or reports the error and leaves the tables alone. */
  ghost predicate Served<T>(o: Outcome, before: Database, after: Database, r: Result<T, Error>) {
    match o
    case Accepted(db) => after == db && r.Ok?
    case Rejected(error) => after == before && r == Err(error)
  }

  class ElectionBackend {
    const p: Primitives
    var elections: map<string, Election>
    var candidates: seq<Candidate>
    var devices: seq<Device>
    var sessions: seq<Session>
    var ballots: seq<Ballot>
    var audit: map<string, seq<AuditEntry>>
    var manifests: map<string, Manifest>
    var anchors: map<string, AnchorReceipt>

    ghost function Snapshot(): Database
      reads this
    {
      Database(elections, candidates, devices, sessions, ballots, audit, manifests, anchors)
    }

    constructor (p: Primitives)
      ensures this.p == p && Snapshot() == EMPTY
    {
      this.p := p;
      elections := map[];
      candidates, devices, sessions, ballots := [], [], [], [];
      audit := map[];
      manifests := map[];
      anchors := map[];
    }

    /** AuditService.log_event */
    method LogEvent(e: string, eventType: string, data: EventData, actor: string, deviceId: Option<string>,
                    now: DateTime)
      modifies this`audit
      ensures Snapshot() == Transactions.LogEvent(p, old(Snapshot()), e, eventType, data, actor, deviceId, now)
    {
      var log := if e in audit then audit[e] else [];
      var sequenceNumber, previousHash := 1, None;
      if |log| > 0 {
        sequenceNumber := log[|log| - 1].sequenceNumber + 1;
        previousHash := Some(log[|log| - 1].entryHash);
      }
      var json := Some(p.eventJson(data));
      var entryHash := EntryHash(p, sequenceNumber, eventType, json, Iso(now), previousHash);
      var entry := AuditEntry(sequenceNumber, eventType, json, Some(actor), deviceId, now, previousHash, entryHash);
      audit := audit[e := log + [entry]];
    }

    method CreateElection(e: string, name: string, actor: string, now: DateTime) returns (r: Result<Election, Error>)
      modifies this
      ensures Served(DoCreateElection(p, old(Snapshot()), e, name, actor, now), old(Snapshot()), Snapshot(), r)
      ensures r.Ok? ==> e in elections && r.value == elections[e] == Election(e, name, Created, None, 0)
    {
      if e in elections {
        return Err(Conflict);
      }
      var election := Election(e, name, Created, None, 0);
      elections := elections[e := election];
      LogEvent(e, "ELECTION_CREATED", ElectionCreatedData(e, name), actor, None, now);
      r := Ok(election);
    }

    /** The duplicate scan of add_candidates, growing the sets of IDs and positions row by row. */
    method ScanBatch(stored: seq<CandidateInfo>, batch: seq<CandidateInfo>) returns (unused: bool)
      ensures unused <==> FreshBatch(stored, batch)
    {
      var existingIds := set i | 0 <= i < |stored| :: stored[i].id;
      var existingPositions := set i | 0 <= i < |stored| :: stored[i].position;
      var j := 0;
      while j < |batch|
        invariant 0 <= j <= |batch|
        invariant FreshBatch(stored, batch[..j])
        invariant forall x :: x in existingIds <==>
                    (exists i :: 0 <= i < |stored| && stored[i].id == x) || (exists i :: 0 <= i < j && batch[i].id == x)
        invariant forall x :: x in existingPositions <==>
                    (exists i :: 0 <= i < |stored| && stored[i].position == x)
                    || (exists i :: 0 <= i < j && batch[i].position == x)
      {
        var c := batch[j];
        if c.id in existingIds || c.position in existingPositions {
          assert !FreshBatch(stored, batch);
          return false;
        }
        existingIds := existingIds + {c.id};
        existingPositions := existingPositions + {c.position};
        assert batch[..j + 1] == batch[..j] + [c];
        j := j + 1;
      }
      assert batch[..|batch|] == batch;
      return true;
    }

    method AddCandidates(e: string, batch: seq<CandidateInfo>, actor: string, now: DateTime)
      returns (r: Result<seq<Candidate>, Error>)
      modifies this
      ensures Served(DoAddCandidates(p, old(Snapshot()), e, batch, actor, now), old(Snapshot()), Snapshot(), r)
      ensures AddRefusal(old(Snapshot()), e, batch) == if r.Err? then Some(r.error) else None
      ensures r.Ok? ==>
                && e in elections
                && candidates == old(candidates) + r.value && Map(InfoOf(), r.value) == batch
                && elections[e].state == if |CandidatesOf(Snapshot(), e)| >= 2 then Configured else Created
    {
      ghost var before := Snapshot();
      AddAnswered(p, before, e, batch, actor, now);
      hide Transactions.LogEvent, FreshBatch, IdsUnused, AddRefusal;
      if e !in elections {
        return Err(NotFound);
      }
      if elections[e].state != Created {
        return Err(Conflict);
      }
      var existing := Filter(CandidateIn(e), candidates);
      var unused := ScanBatch(Map(InfoOf(), existing), batch);
      if !unused {
        return Err(Conflict);
      }
      if !IdsUnused(candidates, batch) {
        return Err(Integrity);
      }
      var newCandidates := NewRows(e, batch);
      candidates := candidates + newCandidates;
      var total := |existing| + |newCandidates|;
      if total >= 2 {
        elections := elections[e := elections[e].(state := Configured)];
      } else {
        assert elections[e := elections[e]] == elections;
      }
      LogEvent(e, "CANDIDATES_ADDED", CandidatesAddedData(|newCandidates|, BatchIds(batch), total >= 2), actor, None,
               now);
      AdditionConfigures(p, before, Request(Command.AddCandidates(e, batch), actor, now));
      r := Ok(newCandidates);
    }

    method ChangeState(e: string, to: ElectionState, reason: Option<string>, actor: string, now: DateTime)
      returns (r: Result<Election, Error>)
      modifies this
      ensures Served(DoChangeState(p, old(Snapshot()), e, to, reason, actor, now), old(Snapshot()), Snapshot(), r)
      ensures ChangeRefusal(old(Snapshot()), e, to) == if r.Err? then Some(r.error) else None
      ensures r.Ok? ==> e in elections && r.value == elections[e] && r.value.state == to
    {
      ChangeAnswered(p, Snapshot(), e, to, reason, actor, now);
      hide NextEntry, ConfigurationHash, ChangeRefusal;
      if e !in elections {
        return Err(NotFound);
      }
      var election := elections[e];
      var from := election.state;
      if !ValidTransition(from, to) {
        return Err(Conflict);
      }
      if from == Configured && to == Locked {
        var rows := Map(InfoOf(), Filter(CandidateIn(e), candidates));
        election := election.(configurationHash := Some(ConfigurationHash(p, e, rows)));
      } else if from == Locked && to == Open {
        var active := exists i :: 0 <= i < |devices| && devices[i].electionId == e && devices[i].status == Active;
        if !active {
          return Err(Conflict);
        }
      }
      election := election.(state := to);
      elections := elections[e := election];
      LogEvent(e, "STATE_CHANGE", StateChangeData(from, to, reason), actor, None, now);
      r := Ok(election);
    }

    method RegisterDevice(e: string, d: string, name: string, actor: string, now: DateTime)
      returns (r: Result<Device, Error>)
      modifies this
      ensures Served(DoRegisterDevice(p, old(Snapshot()), e, d, name, actor, now), old(Snapshot()), Snapshot(), r)
      ensures r.Ok? ==> devices == old(devices) + [r.value] && r.value == Device(d, e, name, Registered, 0, 0)
    {
      if e !in elections {
        return Err(NotFound);
      }
      if elections[e].state !in {Configured, Locked, Open} {
        return Err(Conflict);
      }
      if FindIndex(HasDeviceId(d), devices).Some? {
        return Err(Conflict);
      }
      var device := Device(d, e, name, Registered, 0, 0);
      devices := devices + [device];
      LogEvent(e, "DEVICE_REGISTERED", DeviceRegisteredData(d, name), actor, Some(d), now);
      r := Ok(device);
    }

    method UpdateDeviceStatus(e: string, d: string, status: DeviceStatus, actor: string, now: DateTime)
      returns (r: Result<Device, Error>)
      modifies this
      ensures Served(DoUpdateDeviceStatus(p, old(Snapshot()), e, d, status, actor, now), old(Snapshot()), Snapshot(), r)
      ensures r.Ok? ==>
                r.value in devices && r.value.id == d && r.value.electionId == e && r.value.status == status
    {
      var found := FindIndex(HasDeviceId(d), devices);
      if found.None? || devices[found.value].electionId != e {
        return Err(NotFound);
      }
      var i := found.value;
      var device := devices[i];
      if device.status == status {
        return Ok(device);
      }
      if !ValidStatusTransition(device.status, status) {
        return Err(Conflict);
      }
      var oldStatus := device.status;
      device := device.(status := status);
      devices := devices[i := device];
      assert devices[i] == device;
      LogEvent(e, "DEVICE_STATUS_CHANGED", DeviceStatusData(d, oldStatus, status), actor, Some(d), now);
      r := Ok(device);
    }

    method AuthorizeSession(e: string, credential: string, d: string, sessionId: string, token: string,
                            actor: string, now: DateTime)
      returns (r: Result<Session, Error>)
      modifies this
      ensures Served(DoAuthorizeSession(p, old(Snapshot()), e, credential, d, sessionId, token, actor, now),
                     old(Snapshot()), Snapshot(), r)
      ensures r.Ok? ==>
                && sessions == old(sessions) + [r.value]
                && r.value == Session(sessionId, e, d, token, credential, Authorized)
    {
      if e !in elections {
        return Err(NotFound);
      }
      if elections[e].state != Open {
        return Err(Conflict);
      }
      var device := FindIndex(HasDeviceId(d), devices);
      if device.None? {
        return Err(Forbidden);
      }
      if devices[device.value].electionId != e {
        return Err(Forbidden);
      }
      if devices[device.value].status != Active {
        return Err(Forbidden);
      }
      if exists i :: 0 <= i < |sessions| && sessions[i].electionId == e && sessions[i].credential == credential {
        return Err(Conflict);
      }
      if exists i :: 0 <= i < |sessions| && (sessions[i].id == sessionId || sessions[i].token == token) {
        return Err(Integrity);
      }
      var session := Session(sessionId, e, d, token, credential, Authorized);
      sessions := sessions + [session];
      LogEvent(e, "SESSION_AUTHORIZED", SessionAuthorizedData(sessionId, d, credential), actor, Some(d), now);
      r := Ok(session);
    }

    /** The guards of cast_vote, in order. */
    method CheckVote(token: string, c: string, d: string, n: int, ballotId: string)
      returns (r: Result<(nat, nat), Error>)
      ensures r == VoteChecks(Snapshot(), token, c, d, n, ballotId)
    {
      hide FindIndex, HasToken, HasDeviceId, HasCandidateId;
      var found := FindIndex(HasToken(token), sessions);
      if found.None? {
        return Err(NotFound);
      }
      var session := sessions[found.value];
      if session.status != Authorized {
        return Err(Conflict);
      }
      if session.electionId !in elections || elections[session.electionId].state != Open {
        return Err(Conflict);
      }
      if d != session.deviceId {
        return Err(Conflict);
      }
      var foundDevice := FindIndex(HasDeviceId(d), devices);
      if foundDevice.None? || devices[foundDevice.value].status != Active {
        return Err(Forbidden);
      }
      var candidate := FindIndex(HasCandidateId(c), candidates);
      if candidate.None? || candidates[candidate.value].electionId != session.electionId {
        return Err(NotFound);
      }
      if n <= devices[foundDevice.value].lastSequenceNumber {
        return Err(Conflict);
      }
      if exists x :: 0 <= x < |ballots| && ballots[x].id == ballotId {
        return Err(Integrity);
      }
      return Ok((found.value, foundDevice.value));
    }

    /** The writes of cast_vote: ballot, session, device counters, election total. */
    method RecordBallot(i: nat, k: nat, c: string, n: int, ballotId: string, now: DateTime) returns (ballot: Ballot)
      requires i < |sessions| && k < |devices| && sessions[i].electionId in elections
      modifies this
      ensures ballot == NewBallot(p, old(sessions[i]), c, old(sessions[i].deviceId), n, ballotId, now)
      ensures Snapshot() == RecordVote(old(Snapshot()), i, k, ballot)
    {
      var session, device := sessions[i], devices[k];
      var e := session.electionId;
      var ballotHash := BallotHash(p, e, session.id, c, session.deviceId, n, Iso(now));
      ballot := Ballot(ballotId, e, session.id, session.deviceId, c, n, ballotHash, now);
      ballots := ballots + [ballot];
      sessions := sessions[i := session.(status := Voted)];
      device := device.(lastSequenceNumber := n);
      device := device.(totalVotesCast := device.totalVotesCast + 1);
      devices := devices[k := device];
      elections := elections[e := elections[e].(totalBallots := elections[e].totalBallots + 1)];
    }

    method CastVote(token: string, c: string, d: string, n: int, ballotId: string, actor: string, now: DateTime)
      returns (r: Result<Ballot, Error>)
      modifies this
      ensures Served(DoCastVote(p, old(Snapshot()), token, c, d, n, ballotId, actor, now), old(Snapshot()),
                     Snapshot(), r)
      ensures r.Ok? ==> ballots == old(ballots) + [r.value] && r.value.id == ballotId && r.value.candidateId == c
    {
      hide VoteChecks, NextEntry, BallotHash, BallotIdFree;
      var checked := CheckVote(token, c, d, n, ballotId);
      if checked.Err? {
        return Err(checked.error);
      }
      var (i, k) := checked.value;
      var e := sessions[i].electionId;
      var ballot := RecordBallot(i, k, c, n, ballotId, now);
      LogEvent(e, "VOTE_CAST", VoteCastData(ballotId, d, n, ballot.ballotHash), actor, Some(d), now);
      r := Ok(ballot);
    }

    /** VerificationService._generate_manifest */
    method GenerateManifest(e: string, recon: Reconciled, auditIntact: bool, actor: string, now: DateTime)
      requires e in elections
      modifies this`manifests, this`audit
      ensures var db := old(Snapshot());
              var data := ManifestData(e, recon.totalBallots, recon.candidateTotals, recon.deviceTotals, recon.status,
                                       if auditIntact then "INTACT" else "BROKEN",
                                       OrElse(db.elections[e].configurationHash, ""));
              var m := ManifestFrom(p, data, ManifestOf(db, e));
              Snapshot() == Transactions.LogEvent(
                p, db.(manifests := db.manifests[e := m]), e, "MANIFEST_GENERATED",
                ManifestGeneratedData(m.manifestHash, data.reconciliationStatus, data.auditChainStatus,
                                      data.totalBallots),
                actor, None, now)
    {
      var auditStatus := if auditIntact then "INTACT" else "BROKEN";
      var configHash := OrElse(elections[e].configurationHash, "");
      var manifestHash := ManifestHash(p, ManifestData(
        e, recon.totalBallots, recon.candidateTotals, recon.deviceTotals, recon.status, auditStatus, configHash));
      if e in manifests {
        manifests := manifests[e := manifests[e].(
          electionId := e, totalBallots := recon.totalBallots, candidateTotals := recon.candidateTotals,
          deviceTotals := recon.deviceTotals, reconciliationStatus := recon.status, auditChainStatus := auditStatus,
          configurationHash := configHash, manifestHash := manifestHash)];
      } else {
        manifests := manifests[e := Manifest(
          e, recon.totalBallots, recon.candidateTotals, recon.deviceTotals, recon.status, auditStatus,
          configHash, manifestHash, None)];
      }
      LogEvent(e, "MANIFEST_GENERATED",
               ManifestGeneratedData(manifestHash, recon.status, auditStatus, recon.totalBallots), actor, None, now);
    }

    method RunFullVerification(e: string, actor: string, now: DateTime) returns (r: Result<Verification, Error>)
      modifies this
      ensures Served(DoRunFullVerification(p, old(Snapshot()), e, actor, now), old(Snapshot()), Snapshot(), r)
      ensures r.Ok? ==>
                var db := old(Snapshot());
                var v := r.value;
                && (v.configValid <==> ConfigurationHash(p, e, Map(InfoOf(), CandidatesOf(db, e)))
                                       == OrElse(db.elections[e].configurationHash, ""))
                && (v.auditIntact <==> LinkedUpTo(p, LogOf(db, e), |LogOf(db, e)|))
                && (v.reconPassed <==> StoredTotalsMatch(Some(db.elections[e]), DevicesOf(db, e), BallotsOf(db, e)))
                && v.tallyVerified
                && (v.overallPassed <==> v.configValid && v.auditIntact && v.reconPassed)
    {
      hide LinkedUpTo, StoredTotalsMatch, ConfigurationHash, NextEntry;
      if e !in elections {
        return Err(NotFound);
      }
      var computed := ConfigurationHash(p, e, Map(InfoOf(), Filter(CandidateIn(e), candidates)));
      var configValid := computed == OrElse(elections[e].configurationHash, "");
      var chain := VerifyChain(p, if e in audit then audit[e] else []);
      var rows := Filter(BallotIn(e), ballots);
      var recon := Reconcile(Some(elections[e]), Filter(DeviceIn(e), devices), rows);
      var tally := VerifyTallyIndependently(recon.candidateTotals, rows);
      GenerateManifest(e, recon, chain.isIntact, actor, now);
      r := Ok(Verification(configValid, chain.isIntact, recon.isExactMatch, tally,
                           configValid && chain.isIntact && recon.isExactMatch && tally));
    }

    method SignManifest(e: string, key: Option<string>, actor: string, now: DateTime)
      returns (r: Result<Manifest, Error>)
      modifies this
      ensures Served(DoSignManifest(p, old(Snapshot()), e, key, actor, now), old(Snapshot()), Snapshot(), r)
      ensures SignRefusal(old(Snapshot()), e, key) == if r.Err? then Some(r.error) else None
      ensures r.Ok? ==>
                && key.Some? && e in manifests && r.value == manifests[e] && r.value.digitalSignature.Some?
                && var log, m, s := LogOf(old(Snapshot()), e), r.value, r.value.digitalSignature.value;
                && s.publicKey == p.publicKey(key.value) && s.signature == p.sign(key.value, s.payload)
                && s.payload.electionId == e && s.payload.manifestHash == m.manifestHash
                && s.payload.configurationHash == m.configurationHash && s.payload.totalBallots == m.totalBallots
                && s.payload.reconciliationStatus == m.reconciliationStatus
                && s.payload.auditChainStatus == m.auditChainStatus
                && s.payload.auditRootHash == (if log == [] || log[|log| - 1].entryHash == "" then "GENESIS"
                                               else log[|log| - 1].entryHash)
    {
      SignAnswered(p, Snapshot(), e, key, actor, now);
      hide NextEntry, SignRefusal;
      if e !in elections {
        return Err(NotFound);
      }
      if elections[e].state != Closed && elections[e].state != Published {
        return Err(BadRequest);
      }
      if e !in manifests {
        return Err(NotFound);
      }
      var manifest := manifests[e];
      if manifest.reconciliationStatus != "PASSED" && manifest.reconciliationStatus != "EXACT_MATCH" {
        return Err(BadRequest);
      }
      var log := if e in audit then audit[e] else [];
      var auditRoot := Root(log);
      var payload := PayloadOf(manifest, e, auditRoot);
      if key.None? {
        return Err(Unavailable);
      }
      var artifact := SignedArtifact(p.publicKey(key.value), p.sign(key.value, payload), payload);
      manifest := manifest.(digitalSignature := Some(artifact));
      manifests := manifests[e := manifest];
      LogEvent(e, "MANIFEST_SIGNED", ManifestSignedData(manifest.manifestHash, artifact.publicKey), actor, None, now);
      r := Ok(manifest);
    }

    /** LocalAnchorProvider.anchor */
    method AnchorLocally(e: string, root: string, manifestHash: Option<string>, count: int, anchorId: string)
      returns (receipt: AnchorReceipt)
      modifies this`anchors
      ensures receipt == AnchorReceipt(e, root, AnchorReference(p, e, root, anchorId), manifestHash, count)
      ensures anchors == old(anchors)[receipt.reference := receipt]
    {
      receipt := AnchorReceipt(e, root, AnchorReference(p, e, root, anchorId), manifestHash, count);
      anchors := anchors[receipt.reference := receipt];
    }

    method AnchorElectionRoot(e: string, provider: Provider, anchorId: string, actor: string, now: DateTime)
      returns (r: Result<AnchorReceipt, Error>)
      modifies this
      ensures Served(DoAnchorElectionRoot(p, old(Snapshot()), e, provider, anchorId, actor, now),
                     old(Snapshot()), Snapshot(), r)
      ensures r.Ok? ==>
                && r.value == ReceiptFor(p, old(Snapshot()), e, anchorId).(reference := r.value.reference)
                && r.value.rootHash == Root(LogOf(old(Snapshot()), e)) && r.value.electionId == e
                && (provider.LocalProvider? ==> r.value.reference == AnchorReference(p, e, r.value.rootHash, anchorId))
                && (provider.ExternalProvider? ==>
                      r.value.reference == if provider.configured then anchorId else "NONE")
    {
      hide Transactions.LogEvent, NextEntry, AnchorReference, Root;
      if e !in elections {
        return Err(NotFound);
      }
      var log := if e in audit then audit[e] else [];
      var root := Root(log);
      var manifestHash := if e in manifests then Some(manifests[e].manifestHash) else None;
      var count := if |log| > 0 then log[|log| - 1].sequenceNumber else 0;
      match provider {
        case UnknownProvider =>
          return Err(BadRequest);
        case LocalProvider =>
          var receipt := AnchorLocally(e, root, manifestHash, count, anchorId);
          LogEvent(e, "AUDIT_ROOT_ANCHORED", RootAnchoredData("LOCAL ANCHOR", receipt.reference, root), actor, None,
                   now);
          r := Ok(receipt);
        case ExternalProvider(configured) =>
          if configured {
            LogEvent(e, "AUDIT_ROOT_ANCHORED", RootAnchoredData("EXTERNAL ANCHOR", anchorId, root), actor, None, now);
          }
          r := Ok(AnchorReceipt(e, root, if configured then anchorId else "NONE", manifestHash, count));
      }
    }

    /** LocalAnchorProvider.verify_anchor */
    method VerifyAnchor(reference: string, rootHash: string) returns (verified: bool)
      ensures verified <==> reference in anchors && Lower(anchors[reference].rootHash) == Lower(rootHash)
    {
      if reference !in anchors {
        return false;
      }
      verified := Lower(anchors[reference].rootHash) == Lower(rootHash);
    }

    /** export_election; an archive of an unfinished election needs an authenticated caller. */
    method ExportElection(e: string, authenticated: bool, exportedAt: string) returns (r: Result<Archive, Error>)
      ensures e !in elections ==> r == Err(NotFound)
      ensures e in elections && !authenticated && elections[e].state != Closed && elections[e].state != Published
              ==> r == Err(Unauthorized)
      ensures e in elections && (authenticated || elections[e].state == Closed || elections[e].state == Published)
              ==> r == Ok(ExportView(p, ViewOf(Snapshot(), e), exportedAt))
    {
      if e !in elections {
        return Err(NotFound);
      }
      if elections[e].state != Closed && elections[e].state != Published && !authenticated {
        return Err(Unauthorized);
      }
      var view := View(
        elections[e], Filter(CandidateIn(e), candidates), Filter(DeviceIn(e), devices), Filter(BallotIn(e), ballots),
        if e in audit then audit[e] else [], if e in manifests then Some(manifests[e]) else None);
      r := Ok(ExportView(p, view, exportedAt));
    }
  }
}
