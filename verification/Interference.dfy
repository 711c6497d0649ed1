/** How elections can get into each other's way: only through keys that hold over all elections. */
module Interference {
  import opened Prelude
  import opened Timestamps
  import opened Grouping
  import opened Records
  import opened Hashing
  import opened AuditChain
  import opened Transactions
  import opened Frames
  import opened Invariants
  import opened Runs
  import opened Freeze
  import opened OneVote
  import opened Isolation

  // ---------- keys ----------

  /** The request names a key that a row of another election holds. */
  ghost predicate KeyTaken(db: Database, c: Command, e: string) {
    match c
    case AddCandidates(_, batch) =>
      exists i, j :: 0 <= i < |db.candidates| && 0 <= j < |batch|
                     && db.candidates[i].electionId != e && db.candidates[i].info.id == batch[j].id
    case RegisterDevice(_, d, _) =>
      exists i :: 0 <= i < |db.devices| && db.devices[i].electionId != e && db.devices[i].id == d
    case AuthorizeSession(_, _, _, sid, token) =>
      exists i :: 0 <= i < |db.sessions| && db.sessions[i].electionId != e
                  && (db.sessions[i].id == sid || db.sessions[i].token == token)
    case CastVote(_, _, _, _, id) =>
      exists i :: 0 <= i < |db.ballots| && db.ballots[i].electionId != e && db.ballots[i].id == id
    case _ => false
  }

  /** The same answer, and the same rows about e after it. */
  ghost predicate SameOutcome(a: Outcome, b: Outcome, e: string) {
    match a
    case Rejected(error) => b == a
    case Accepted(db) => b.Accepted? && PartOf(b.db, e) == PartOf(db, e)
  }

  // ---------- looking up and rewriting rows of one election ----------

  /** A row found by a key is the one found among the rows of its election. */
  lemma Seen<T>(q: T -> bool, h: T -> bool, xs: seq<T>)
    requires forall i, j :: 0 <= i < j < |xs| ==> !(h(xs[i]) && h(xs[j]))
    ensures var i, own := FindIndex(h, xs), FindIndex(h, Filter(q, xs));
            && (own.Some? <==> i.Some? && q(xs[i.value]))
            && (own.Some? ==> Filter(q, xs)[own.value] == xs[i.value])
  {
    var i, own := FindIndex(h, xs), FindIndex(h, Filter(q, xs));
    if i.Some? && q(xs[i.value]) {
      FilterKeeps(q, xs, i.value);
      var k :| 0 <= k < |Filter(q, xs)| && Filter(q, xs)[k] == xs[i.value];
    }
    if own.Some? {
      var x := Filter(q, xs)[own.value];
      assert x in xs && q(x);
      var k :| 0 <= k < |xs| && xs[k] == x;
      assert i.Some?;
      assert i.value == k;
    }
  }

  function Replace<T>(h: T -> bool, x: T): T -> T {
    y => if h(y) then x else y
  }

  /** A rewritten row is seen as the same row rewritten among those of its election. */
  lemma RewriteSeen<T>(q: T -> bool, h: T -> bool, xs: seq<T>, k: nat, x: T)
    requires forall i, j :: 0 <= i < j < |xs| ==> !(h(xs[i]) && h(xs[j]))
    requires k < |xs| && h(xs[k]) && q(xs[k]) && q(x)
    ensures Filter(q, xs[k := x]) == Map(Replace(h, x), Filter(q, xs))
  {
    var f := Replace(h, x);
    assert xs[k := x] == Map(f, xs);
    forall y | y in xs
      ensures q(f(y)) == q(y)
    {
      var i :| 0 <= i < |xs| && xs[i] == y;
    }
    FilterMap(q, q, f, xs);
  }

  /** A row with a property exists exactly among the rows of the election or among the others. */
  lemma SplitRows<T>(q: T -> bool, h: T -> bool, xs: seq<T>)
    ensures (exists i :: 0 <= i < |xs| && h(xs[i]))
            <==> || (exists i :: 0 <= i < |Filter(q, xs)| && h(Filter(q, xs)[i]))
                 || (exists i :: 0 <= i < |xs| && !q(xs[i]) && h(xs[i]))
  {
    var own := Filter(q, xs);
    if i :| 0 <= i < |xs| && h(xs[i]) && q(xs[i]) {
      FilterKeeps(q, xs, i);
      var k :| 0 <= k < |own| && own[k] == xs[i];
    }
    if k :| 0 <= k < |own| && h(own[k]) {
      assert own[k] in xs;
      var i :| 0 <= i < |xs| && xs[i] == own[k];
    }
  }

  // ---------- the log ----------

  lemma LogPart(p: Primitives, a: Database, b: Database, e: string, eventType: string, data: EventData, actor: string,
                deviceId: Option<string>, now: DateTime)
    requires PartOf(a, e) == PartOf(b, e)
    ensures PartOf(LogEvent(p, a, e, eventType, data, actor, deviceId, now), e)
         == PartOf(LogEvent(p, b, e, eventType, data, actor, deviceId, now), e)
  {
    hide Filter, NextEntry;
  }

  // ---------- requests answered by the rows of their election ----------

  /** Two states that hold the same about e. */
  ghost predicate Twins(p: Primitives, a: Database, b: Database, e: string) {
    TablesOk(p, a) && TablesOk(p, b) && PartOf(a, e) == PartOf(b, e)
  }

  lemma TwinsParts(p: Primitives, a: Database, b: Database, e: string)
    requires Twins(p, a, b, e)
    ensures TablesOk(p, a) && TablesOk(p, b) && PartOf(a, e) == PartOf(b, e)
  {
  }

  lemma PartParts(a: Database, b: Database, e: string)
    requires PartOf(a, e) == PartOf(b, e)
    ensures e in a.elections <==> e in b.elections
    ensures e in a.elections ==> a.elections[e] == b.elections[e]
    ensures CandidatesOf(a, e) == CandidatesOf(b, e) && DevicesOf(a, e) == DevicesOf(b, e)
    ensures Filter(SessionIn(e), a.sessions) == Filter(SessionIn(e), b.sessions)
    ensures BallotsOf(a, e) == BallotsOf(b, e) && LogOf(a, e) == LogOf(b, e) && ManifestOf(a, e) == ManifestOf(b, e)
  {
    hide Filter;
  }

  lemma ActiveSeen(db: Database, e: string)
    ensures HasActiveDevice(db, e) <==> exists i :: 0 <= i < |DevicesOf(db, e)| && DevicesOf(db, e)[i].status == Active
  {
    var own := DevicesOf(db, e);
    if HasActiveDevice(db, e) {
      var i :| 0 <= i < |db.devices| && db.devices[i].electionId == e && db.devices[i].status == Active;
      FilterKeeps(DeviceIn(e), db.devices, i);
      var k :| 0 <= k < |own| && own[k] == db.devices[i];
    }
    if k :| 0 <= k < |own| && own[k].status == Active {
      assert own[k] in db.devices;
      var i :| 0 <= i < |db.devices| && db.devices[i] == own[k];
    }
  }

  lemma RewrittenRow(a: Database, b: Database, e: string, row: Election)
    requires PartOf(a, e) == PartOf(b, e)
    ensures PartOf(a.(elections := a.elections[e := row]), e) == PartOf(b.(elections := b.elections[e := row]), e)
  {
    hide Filter;
  }

  lemma RewrittenManifest(a: Database, b: Database, e: string, m: Manifest)
    requires PartOf(a, e) == PartOf(b, e)
    ensures PartOf(a.(manifests := a.manifests[e := m]), e) == PartOf(b.(manifests := b.manifests[e := m]), e)
  {
    hide Filter;
  }

  lemma AnchorsAside(a: Database, b: Database, e: string, x: map<string, AnchorReceipt>, y: map<string, AnchorReceipt>)
    requires PartOf(a, e) == PartOf(b, e)
    ensures PartOf(a.(anchors := x), e) == PartOf(b.(anchors := y), e)
  {
    hide Filter;
  }

  lemma CreateSame(p: Primitives, a: Database, b: Database, e: string, name: string, actor: string, now: DateTime)
    requires PartOf(a, e) == PartOf(b, e)
    ensures SameOutcome(DoCreateElection(p, a, e, name, actor, now), DoCreateElection(p, b, e, name, actor, now), e)
  {
    var row := Election(e, name, Created, None, 0);
    var a1, b1 := a.(elections := a.elections[e := row]), b.(elections := b.elections[e := row]);
    PartParts(a, b, e);
    hide PartOf, LogEvent;
    RewrittenRow(a, b, e, row);
    LogPart(p, a1, b1, e, "ELECTION_CREATED", ElectionCreatedData(e, name), actor, None, now);
  }

  lemma SameActive(a: Database, b: Database, e: string)
    requires PartOf(a, e) == PartOf(b, e)
    ensures HasActiveDevice(a, e) <==> HasActiveDevice(b, e)
  {
    hide PartOf, HasActiveDevice, DevicesOf;
    PartParts(a, b, e);
    ActiveSeen(a, e);
    ActiveSeen(b, e);
  }

  function ChangeOutcome(p: Primitives, db: Database, e: string, row: Election, to: ElectionState,
                         reason: Option<string>, actor: string, now: DateTime): (o: Outcome)
    requires e in db.elections
    ensures o.Accepted?
  {
    Accepted(LogEvent(p, db.(elections := db.elections[e := row]), e, "STATE_CHANGE",
                      StateChangeData(db.elections[e].state, to, reason), actor, None, now))
  }

  lemma ChangeByRow(p: Primitives, db: Database, e: string, to: ElectionState, reason: Option<string>, actor: string,
                    now: DateTime)
    ensures DoChangeState(p, db, e, to, reason, actor, now)
         == if e !in db.elections then Rejected(NotFound)
            else if !ValidTransition(db.elections[e].state, to) then Rejected(Conflict)
            else if db.elections[e].state == Locked && to == Open && !HasActiveDevice(db, e) then Rejected(Conflict)
            else ChangeOutcome(p, db, e, ChangedRow(p, db, e, to), to, reason, actor, now)
  {
    hide LogEvent, ValidTransition, HasActiveDevice, ConfigurationHash, Map, CandidatesOf;
  }

  lemma ChangeTwins(p: Primitives, a: Database, b: Database, e: string, row: Election, to: ElectionState,
                    reason: Option<string>, actor: string, now: DateTime)
    requires PartOf(a, e) == PartOf(b, e) && e in a.elections && e in b.elections
    ensures SameOutcome(ChangeOutcome(p, a, e, row, to, reason, actor, now),
                        ChangeOutcome(p, b, e, row, to, reason, actor, now), e)
  {
    hide PartOf, LogEvent;
    PartParts(a, b, e);
    RewrittenRow(a, b, e, row);
    LogPart(p, a.(elections := a.elections[e := row]), b.(elections := b.elections[e := row]), e, "STATE_CHANGE",
            StateChangeData(a.elections[e].state, to, reason), actor, None, now);
  }

  lemma ChangeSame(p: Primitives, a: Database, b: Database, e: string, to: ElectionState, reason: Option<string>,
                   actor: string, now: DateTime)
    requires PartOf(a, e) == PartOf(b, e)
    ensures SameOutcome(DoChangeState(p, a, e, to, reason, actor, now),
                        DoChangeState(p, b, e, to, reason, actor, now), e)
  {
    hide PartOf, DoChangeState, ChangeOutcome, ValidTransition, HasActiveDevice, ConfigurationHash, Map, CandidatesOf;
    PartParts(a, b, e);
    SameActive(a, b, e);
    ChangeByRow(p, a, e, to, reason, actor, now);
    ChangeByRow(p, b, e, to, reason, actor, now);
    if e in a.elections {
      ChangeTwins(p, a, b, e, ChangedRow(p, a, e, to), to, reason, actor, now);
    }
  }

  lemma SameVerification(p: Primitives, a: Database, b: Database, e: string)
    requires PartOf(a, e) == PartOf(b, e) && e in a.elections
    ensures e in b.elections && VerifiedManifest(p, a, e) == VerifiedManifest(p, b, e)
  {
    PartParts(a, b, e);
    hide PartOf, BallotsOf, DevicesOf, LogOf, StoredTotalsMatch, GroupBy, LinkedUpTo;
  }

  lemma VerifySame(p: Primitives, a: Database, b: Database, e: string, actor: string, now: DateTime)
    requires PartOf(a, e) == PartOf(b, e)
    ensures SameOutcome(DoRunFullVerification(p, a, e, actor, now), DoRunFullVerification(p, b, e, actor, now), e)
  {
    PartParts(a, b, e);
    hide PartOf, LogEvent, VerifiedManifest, ManifestFrom, ManifestOf;
    if e in a.elections {
      SameVerification(p, a, b, e);
      var data := VerifiedManifest(p, a, e);
      var m := ManifestFrom(p, data, ManifestOf(a, e));
      var a1, b1 := a.(manifests := a.manifests[e := m]), b.(manifests := b.manifests[e := m]);
      RewrittenManifest(a, b, e, m);
      LogPart(p, a1, b1, e, "MANIFEST_GENERATED",
              ManifestGeneratedData(m.manifestHash, data.reconciliationStatus, data.auditChainStatus,
                                    data.totalBallots), actor, None, now);
    }
  }

  lemma SignSame(p: Primitives, a: Database, b: Database, e: string, key: Option<string>, actor: string, now: DateTime)
    requires PartOf(a, e) == PartOf(b, e)
    ensures SameOutcome(DoSignManifest(p, a, e, key, actor, now), DoSignManifest(p, b, e, key, actor, now), e)
  {
    PartParts(a, b, e);
    assert e in a.manifests <==> e in b.manifests;
    assert e in a.manifests ==> a.manifests[e] == b.manifests[e];
    hide PartOf, LogEvent, SignPayload, PayloadOf, LogOf, ManifestOf;
    if e in a.elections && e in a.manifests && key.Some? {
      var m := a.manifests[e];
      var s := SignPayload(p, key.value, PayloadOf(m, e, Root(LogOf(a, e))));
      var m1 := m.(digitalSignature := Some(s));
      var a1, b1 := a.(manifests := a.manifests[e := m1]), b.(manifests := b.manifests[e := m1]);
      RewrittenManifest(a, b, e, m1);
      LogPart(p, a1, b1, e, "MANIFEST_SIGNED", ManifestSignedData(m.manifestHash, s.publicKey), actor, None, now);
    }
  }

  lemma SameReceipt(p: Primitives, a: Database, b: Database, e: string, id: string)
    requires PartOf(a, e) == PartOf(b, e)
    ensures ReceiptFor(p, a, e, id) == ReceiptFor(p, b, e, id)
  {
    PartParts(a, b, e);
    hide PartOf, LogOf, ManifestOf;
  }

  lemma AnchorSame(p: Primitives, a: Database, b: Database, e: string, provider: Provider, id: string, actor: string,
                   now: DateTime)
    requires PartOf(a, e) == PartOf(b, e)
    ensures SameOutcome(DoAnchorElectionRoot(p, a, e, provider, id, actor, now),
                        DoAnchorElectionRoot(p, b, e, provider, id, actor, now), e)
  {
    PartParts(a, b, e);
    SameReceipt(p, a, b, e, id);
    hide PartOf, LogEvent, ReceiptFor;
    var x := ReceiptFor(p, a, e, id);
    var a1, b1 := a.(anchors := a.anchors[x.reference := x]), b.(anchors := b.anchors[x.reference := x]);
    AnchorsAside(a, b, e, a1.anchors, b1.anchors);
    LogPart(p, a1, b1, e, "AUDIT_ROOT_ANCHORED", RootAnchoredData("LOCAL ANCHOR", x.reference, x.rootHash), actor, None,
            now);
    LogPart(p, a, b, e, "AUDIT_ROOT_ANCHORED", RootAnchoredData("EXTERNAL ANCHOR", id, x.rootHash), actor, None, now);
  }

  // ---------- requests that bring in a key ----------

  lemma IdsSplit(cs: seq<Candidate>, e: string, batch: seq<CandidateInfo>)
    ensures IdsUnused(cs, batch) <==>
            && IdsUnused(Filter(CandidateIn(e), cs), batch)
            && !(exists i, j :: 0 <= i < |cs| && 0 <= j < |batch| && cs[i].electionId != e
                                && cs[i].info.id == batch[j].id)
  {
    var h := (c: Candidate) => exists j :: 0 <= j < |batch| && batch[j].id == c.info.id;
    var own := Filter(CandidateIn(e), cs);
    SplitRows(CandidateIn(e), h, cs);
    hide Filter;
    assert IdsUnused(cs, batch) <==> !(exists i :: 0 <= i < |cs| && h(cs[i]));
    assert IdsUnused(own, batch) <==> !(exists i :: 0 <= i < |own| && h(own[i]));
  }

  lemma AddedPart(a: Database, b: Database, e: string, batch: seq<CandidateInfo>, row: Election)
    requires PartOf(a, e) == PartOf(b, e)
    ensures PartOf(a.(candidates := a.candidates + NewRows(e, batch), elections := a.elections[e := row]), e)
         == PartOf(b.(candidates := b.candidates + NewRows(e, batch), elections := b.elections[e := row]), e)
  {
    FilterConcat(CandidateIn(e), a.candidates, NewRows(e, batch));
    FilterConcat(CandidateIn(e), b.candidates, NewRows(e, batch));
    hide Filter, NewRows;
  }

  lemma UnusedOrTaken(a: Database, b: Database, e: string, batch: seq<CandidateInfo>)
    requires PartOf(a, e) == PartOf(b, e) && !KeyTaken(b, AddCandidates(e, batch), e)
    ensures IdsUnused(a.candidates, batch) <==>
            IdsUnused(b.candidates, batch) && !KeyTaken(a, AddCandidates(e, batch), e)
  {
    PartParts(a, b, e);
    IdsSplit(a.candidates, e, batch);
    IdsSplit(b.candidates, e, batch);
    hide PartOf, IdsUnused, Filter;
  }

  lemma AddSame(p: Primitives, a: Database, b: Database, e: string, batch: seq<CandidateInfo>, actor: string,
                now: DateTime)
    requires PartOf(a, e) == PartOf(b, e) && !KeyTaken(b, AddCandidates(e, batch), e)
    ensures SameOutcome(DoAddCandidates(p, a, e, batch, actor, now), DoAddCandidates(p, b, e, batch, actor, now), e)
            <==> !(DoAddCandidates(p, b, e, batch, actor, now).Accepted? && KeyTaken(a, AddCandidates(e, batch), e))
  {
    PartParts(a, b, e);
    UnusedOrTaken(a, b, e, batch);
    hide PartOf, LogEvent, KeyTaken, IdsUnused, FreshBatch, Map, NewRows, BatchIds, CandidatesOf;
    if e in a.elections {
      var enough := |CandidatesOf(a, e)| + |batch| >= 2;
      var row := if enough then a.elections[e].(state := Configured) else a.elections[e];
      var a1 := a.(candidates := a.candidates + NewRows(e, batch), elections := a.elections[e := row]);
      var b1 := b.(candidates := b.candidates + NewRows(e, batch), elections := b.elections[e := row]);
      AddedPart(a, b, e, batch, row);
      LogPart(p, a1, b1, e, "CANDIDATES_ADDED", CandidatesAddedData(|batch|, BatchIds(batch), enough), actor, None,
              now);
    }
  }

  lemma FoundMeansExists<T>(h: T -> bool, xs: seq<T>)
    ensures FindIndex(h, xs).Some? <==> exists i :: 0 <= i < |xs| && h(xs[i])
  {
    hide FindIndex;
  }

  lemma DeviceIdSplit(ds: seq<Device>, e: string, d: string)
    ensures FindIndex(HasDeviceId(d), ds).Some? <==>
            || FindIndex(HasDeviceId(d), Filter(DeviceIn(e), ds)).Some?
            || exists i :: 0 <= i < |ds| && ds[i].electionId != e && ds[i].id == d
  {
    hide FindIndex, Filter;
    FoundMeansExists(HasDeviceId(d), ds);
    FoundMeansExists(HasDeviceId(d), Filter(DeviceIn(e), ds));
    SplitRows(DeviceIn(e), HasDeviceId(d), ds);
    if i :| 0 <= i < |ds| && ds[i].electionId != e && ds[i].id == d {
      assert !DeviceIn(e)(ds[i]) && HasDeviceId(d)(ds[i]);
    }
  }

  lemma RegisteredPart(a: Database, b: Database, e: string, x: Device)
    requires PartOf(a, e) == PartOf(b, e)
    ensures PartOf(a.(devices := a.devices + [x]), e) == PartOf(b.(devices := b.devices + [x]), e)
  {
    FilterAppend(DeviceIn(e), a.devices, x);
    FilterAppend(DeviceIn(e), b.devices, x);
    hide Filter;
  }

  lemma RegisterSame(p: Primitives, a: Database, b: Database, e: string, d: string, name: string, actor: string,
                     now: DateTime)
    requires PartOf(a, e) == PartOf(b, e) && !KeyTaken(b, RegisterDevice(e, d, name), e)
    ensures SameOutcome(DoRegisterDevice(p, a, e, d, name, actor, now), DoRegisterDevice(p, b, e, d, name, actor, now),
                        e)
            <==> !(DoRegisterDevice(p, b, e, d, name, actor, now).Accepted?
                   && KeyTaken(a, RegisterDevice(e, d, name), e))
  {
    PartParts(a, b, e);
    DeviceIdSplit(a.devices, e, d);
    DeviceIdSplit(b.devices, e, d);
    var x := Device(d, e, name, Registered, 0, 0);
    hide PartOf, LogEvent, FindIndex, Filter;
    RegisteredPart(a, b, e, x);
    LogPart(p, a.(devices := a.devices + [x]), b.(devices := b.devices + [x]), e, "DEVICE_REGISTERED",
            DeviceRegisteredData(d, name), actor, Some(d), now);
  }

  // ---------- requests about a device, a session, a vote ----------

  /** Keys that the invariant keeps distinct. */
  lemma DistinctKeys(p: Primitives, db: Database)
    requires TablesOk(p, db)
    ensures forall d, i, j :: 0 <= i < j < |db.devices| ==>
              !(HasDeviceId(d)(db.devices[i]) && HasDeviceId(d)(db.devices[j]))
    ensures forall t, i, j :: 0 <= i < j < |db.sessions| ==>
              !(HasToken(t)(db.sessions[i]) && HasToken(t)(db.sessions[j]))
    ensures forall c, i, j :: 0 <= i < j < |db.candidates| ==>
              !(HasCandidateId(c)(db.candidates[i]) && HasCandidateId(c)(db.candidates[j]))
  {
    hide BallotsOk, VotesKept, DeviceCountersOk, ElectionTotalsOk, ConfigurationsOk, HasDevice;
  }

  /** The device that a request of e finds among all devices. */
  function OwnDevice(db: Database, e: string, d: string): Option<Device> {
    var i := FindIndex(HasDeviceId(d), db.devices);
    if i.Some? && db.devices[i.value].electionId == e then Some(db.devices[i.value]) else None
  }

  lemma SameDevice(p: Primitives, a: Database, b: Database, e: string, d: string)
    requires Twins(p, a, b, e)
    ensures OwnDevice(a, e, d) == OwnDevice(b, e, d)
  {
    hide TablesOk, PartOf, FindIndex, Filter;
    DistinctKeys(p, a);
    DistinctKeys(p, b);
    PartParts(a, b, e);
    Seen(DeviceIn(e), HasDeviceId(d), a.devices);
    Seen(DeviceIn(e), HasDeviceId(d), b.devices);
  }

  lemma DevicesRewritten(p: Primitives, a: Database, b: Database, e: string, i: nat, j: nat, x: Device)
    requires Twins(p, a, b, e) && i < |a.devices| && j < |b.devices| && x.electionId == e
    requires a.devices[i] == b.devices[j] && a.devices[i].id == x.id && a.devices[i].electionId == e
    ensures Filter(DeviceIn(e), a.devices[i := x]) == Filter(DeviceIn(e), b.devices[j := x])
  {
    hide TablesOk, PartOf, Filter;
    DistinctKeys(p, a);
    DistinctKeys(p, b);
    PartParts(a, b, e);
    RewriteSeen(DeviceIn(e), HasDeviceId(x.id), a.devices, i, x);
    RewriteSeen(DeviceIn(e), HasDeviceId(x.id), b.devices, j, x);
  }

  lemma StatusPart(p: Primitives, a: Database, b: Database, e: string, i: nat, j: nat, x: Device)
    requires Twins(p, a, b, e) && i < |a.devices| && j < |b.devices| && x.electionId == e
    requires a.devices[i] == b.devices[j] && a.devices[i].id == x.id && a.devices[i].electionId == e
    ensures PartOf(a.(devices := a.devices[i := x]), e) == PartOf(b.(devices := b.devices[j := x]), e)
  {
    DevicesRewritten(p, a, b, e, i, j, x);
    hide TablesOk, Filter;
  }

  /** A status change, once its device is known. */
  function StatusOutcome(p: Primitives, db: Database, i: nat, status: DeviceStatus, actor: string, now: DateTime)
    : Outcome
    requires i < |db.devices|
  {
    var row := db.devices[i];
    if row.status == status then Accepted(db)
    else if !ValidStatusTransition(row.status, status) then Rejected(Conflict)
    else
      Accepted(LogEvent(p, db.(devices := db.devices[i := row.(status := status)]), row.electionId,
                        "DEVICE_STATUS_CHANGED", DeviceStatusData(row.id, row.status, status), actor, Some(row.id),
                        now))
  }

  lemma StatusByDevice(p: Primitives, db: Database, e: string, d: string, status: DeviceStatus, actor: string,
                       now: DateTime)
    ensures DoUpdateDeviceStatus(p, db, e, d, status, actor, now)
         == if OwnDevice(db, e, d).None? then Rejected(NotFound)
            else StatusOutcome(p, db, FindIndex(HasDeviceId(d), db.devices).value, status, actor, now)
  {
    hide FindIndex, LogEvent, ValidStatusTransition;
  }

  lemma StatusTwins(p: Primitives, a: Database, b: Database, e: string, i: nat, j: nat, status: DeviceStatus,
                    actor: string, now: DateTime)
    requires Twins(p, a, b, e) && i < |a.devices| && j < |b.devices|
    requires a.devices[i] == b.devices[j] && a.devices[i].electionId == e
    ensures SameOutcome(StatusOutcome(p, a, i, status, actor, now), StatusOutcome(p, b, j, status, actor, now), e)
  {
    var row := a.devices[i];
    var x := row.(status := status);
    StatusPart(p, a, b, e, i, j, x);
    hide TablesOk, PartOf, LogEvent, ValidStatusTransition;
    LogPart(p, a.(devices := a.devices[i := x]), b.(devices := b.devices[j := x]), e, "DEVICE_STATUS_CHANGED",
            DeviceStatusData(row.id, row.status, status), actor, Some(row.id), now);
  }

  lemma StatusSame(p: Primitives, a: Database, b: Database, e: string, d: string, status: DeviceStatus, actor: string,
                   now: DateTime)
    requires Twins(p, a, b, e)
    ensures SameOutcome(DoUpdateDeviceStatus(p, a, e, d, status, actor, now),
                        DoUpdateDeviceStatus(p, b, e, d, status, actor, now), e)
  {
    hide Twins, PartOf, StatusOutcome, DoUpdateDeviceStatus, FindIndex;
    SameDevice(p, a, b, e, d);
    StatusByDevice(p, a, e, d, status, actor, now);
    StatusByDevice(p, b, e, d, status, actor, now);
    if OwnDevice(a, e, d).Some? {
      StatusTwins(p, a, b, e, FindIndex(HasDeviceId(d), a.devices).value, FindIndex(HasDeviceId(d), b.devices).value,
                  status, actor, now);
    }
  }

  // ---------- authorizing a session ----------

  lemma SameCredentials(a: Database, b: Database, e: string, credential: string)
    requires PartOf(a, e) == PartOf(b, e)
    ensures CredentialUsed(a, e, credential) <==> CredentialUsed(b, e, credential)
  {
    hide PartOf, Filter, CredentialUsed;
    PartParts(a, b, e);
    CredentialSeen(a, e, credential);
    CredentialSeen(b, e, credential);
  }

  lemma CredentialSeen(db: Database, e: string, credential: string)
    ensures var own := Filter(SessionIn(e), db.sessions);
            CredentialUsed(db, e, credential) <==> exists i :: 0 <= i < |own| && own[i].credential == credential
  {
    var own := Filter(SessionIn(e), db.sessions);
    var h := (s: Session) => s.electionId == e && s.credential == credential;
    SplitRows(SessionIn(e), h, db.sessions);
    hide Filter;
    assert CredentialUsed(db, e, credential) <==> exists i :: 0 <= i < |db.sessions| && h(db.sessions[i]);
    assert forall i :: 0 <= i < |own| ==> SessionIn(e)(own[i]);
    assert forall i :: 0 <= i < |own| ==> (h(own[i]) <==> own[i].credential == credential);
  }

  lemma SessionKeysSplit(ss: seq<Session>, e: string, sid: string, token: string)
    ensures (exists i :: 0 <= i < |ss| && (ss[i].id == sid || ss[i].token == token)) <==>
            var own := Filter(SessionIn(e), ss);
            || (exists i :: 0 <= i < |own| && (own[i].id == sid || own[i].token == token))
            || (exists i :: 0 <= i < |ss| && ss[i].electionId != e && (ss[i].id == sid || ss[i].token == token))
  {
    var own := Filter(SessionIn(e), ss);
    var h := (s: Session) => s.id == sid || s.token == token;
    SplitRows(SessionIn(e), h, ss);
    hide Filter;
    assert forall i :: 0 <= i < |own| ==> (h(own[i]) <==> own[i].id == sid || own[i].token == token);
    assert forall i :: 0 <= i < |ss| ==> (h(ss[i]) <==> ss[i].id == sid || ss[i].token == token);
    assert forall i :: 0 <= i < |ss| ==> (SessionIn(e)(ss[i]) <==> ss[i].electionId == e);
  }

  lemma KeysFreeOrTaken(a: Database, b: Database, e: string, credential: string, d: string, sid: string, token: string)
    requires PartOf(a, e) == PartOf(b, e) && !KeyTaken(b, AuthorizeSession(e, credential, d, sid, token), e)
    ensures SessionKeysFree(a, sid, token) <==>
            SessionKeysFree(b, sid, token) && !KeyTaken(a, AuthorizeSession(e, credential, d, sid, token), e)
  {
    PartParts(a, b, e);
    SessionKeysSplit(a.sessions, e, sid, token);
    SessionKeysSplit(b.sessions, e, sid, token);
    hide PartOf, Filter;
  }

  lemma AuthorizedPart(a: Database, b: Database, e: string, x: Session)
    requires PartOf(a, e) == PartOf(b, e)
    ensures PartOf(a.(sessions := a.sessions + [x]), e) == PartOf(b.(sessions := b.sessions + [x]), e)
  {
    FilterAppend(SessionIn(e), a.sessions, x);
    FilterAppend(SessionIn(e), b.sessions, x);
    hide Filter;
  }

  predicate OwnActive(db: Database, e: string, d: string) {
    OwnDevice(db, e, d).Some? && OwnDevice(db, e, d).value.status == Active
  }

  function AuthorizeOutcome(p: Primitives, db: Database, e: string, credential: string, d: string, sid: string,
                            token: string, actor: string, now: DateTime): (o: Outcome)
    ensures o.Accepted?
  {
    Accepted(LogEvent(p, db.(sessions := db.sessions + [Session(sid, e, d, token, credential, Authorized)]), e,
                      "SESSION_AUTHORIZED", SessionAuthorizedData(sid, d, credential), actor, Some(d), now))
  }

  lemma AuthorizeByDevice(p: Primitives, db: Database, e: string, credential: string, d: string, sid: string,
                          token: string, actor: string, now: DateTime)
    ensures DoAuthorizeSession(p, db, e, credential, d, sid, token, actor, now)
         == if e !in db.elections then Rejected(NotFound)
            else if db.elections[e].state != Open then Rejected(Conflict)
            else if !OwnActive(db, e, d) then Rejected(Forbidden)
            else if CredentialUsed(db, e, credential) then Rejected(Conflict)
            else if !SessionKeysFree(db, sid, token) then Rejected(Integrity)
            else AuthorizeOutcome(p, db, e, credential, d, sid, token, actor, now)
  {
    hide FindIndex, LogEvent, CredentialUsed, SessionKeysFree;
  }

  lemma AuthorizeTwins(p: Primitives, a: Database, b: Database, e: string, credential: string, d: string, sid: string,
                       token: string, actor: string, now: DateTime)
    requires PartOf(a, e) == PartOf(b, e)
    ensures SameOutcome(AuthorizeOutcome(p, a, e, credential, d, sid, token, actor, now),
                        AuthorizeOutcome(p, b, e, credential, d, sid, token, actor, now), e)
  {
    hide PartOf, LogEvent;
    var x := Session(sid, e, d, token, credential, Authorized);
    AuthorizedPart(a, b, e, x);
    LogPart(p, a.(sessions := a.sessions + [x]), b.(sessions := b.sessions + [x]), e, "SESSION_AUTHORIZED",
            SessionAuthorizedData(sid, d, credential), actor, Some(d), now);
  }

  lemma SameOwnActive(p: Primitives, a: Database, b: Database, e: string, d: string)
    requires Twins(p, a, b, e)
    ensures OwnActive(a, e, d) <==> OwnActive(b, e, d)
  {
    hide Twins, OwnDevice;
    SameDevice(p, a, b, e, d);
  }

  lemma AuthorizeSame(p: Primitives, a: Database, b: Database, e: string, credential: string, d: string, sid: string,
                      token: string, actor: string, now: DateTime)
    requires Twins(p, a, b, e) && !KeyTaken(b, AuthorizeSession(e, credential, d, sid, token), e)
    ensures SameOutcome(DoAuthorizeSession(p, a, e, credential, d, sid, token, actor, now),
                        DoAuthorizeSession(p, b, e, credential, d, sid, token, actor, now), e)
            <==> !(DoAuthorizeSession(p, b, e, credential, d, sid, token, actor, now).Accepted?
                   && KeyTaken(a, AuthorizeSession(e, credential, d, sid, token), e))
  {
    hide Twins, PartOf, TablesOk, KeyTaken, DoAuthorizeSession, AuthorizeOutcome, OwnActive, CredentialUsed,
         SessionKeysFree;
    TwinsParts(p, a, b, e);
    PartParts(a, b, e);
    SameOwnActive(p, a, b, e, d);
    SameCredentials(a, b, e, credential);
    KeysFreeOrTaken(a, b, e, credential, d, sid, token);
    AuthorizeByDevice(p, a, e, credential, d, sid, token, actor, now);
    AuthorizeByDevice(p, b, e, credential, d, sid, token, actor, now);
    AuthorizeTwins(p, a, b, e, credential, d, sid, token, actor, now);
  }

  // ---------- casting a vote ----------

  /** The session of e that a token finds among all sessions. */
  function OwnSession(db: Database, e: string, token: string): Option<Session> {
    var i := FindIndex(HasToken(token), db.sessions);
    if i.Some? && db.sessions[i.value].electionId == e then Some(db.sessions[i.value]) else None
  }

  /** The candidate is found among all candidates, and stands in e. */
  predicate OwnCandidate(db: Database, e: string, c: string) {
    var i := FindIndex(HasCandidateId(c), db.candidates);
    i.Some? && db.candidates[i.value].electionId == e
  }

  lemma SameVoteRows(p: Primitives, a: Database, b: Database, e: string, token: string, c: string)
    requires Twins(p, a, b, e)
    ensures OwnSession(a, e, token) == OwnSession(b, e, token)
    ensures OwnCandidate(a, e, c) <==> OwnCandidate(b, e, c)
  {
    hide TablesOk, PartOf, FindIndex, Filter;
    DistinctKeys(p, a);
    DistinctKeys(p, b);
    PartParts(a, b, e);
    Seen(SessionIn(e), HasToken(token), a.sessions);
    Seen(SessionIn(e), HasToken(token), b.sessions);
    Seen(CandidateIn(e), HasCandidateId(c), a.candidates);
    Seen(CandidateIn(e), HasCandidateId(c), b.candidates);
  }

  lemma BallotIdSplit(bs: seq<Ballot>, e: string, id: string)
    ensures (exists i :: 0 <= i < |bs| && bs[i].id == id) <==>
            || (exists i :: 0 <= i < |Filter(BallotIn(e), bs)| && Filter(BallotIn(e), bs)[i].id == id)
            || (exists i :: 0 <= i < |bs| && bs[i].electionId != e && bs[i].id == id)
  {
    var own := Filter(BallotIn(e), bs);
    var h := (b: Ballot) => b.id == id;
    SplitRows(BallotIn(e), h, bs);
    hide Filter;
    assert forall i :: 0 <= i < |own| ==> (h(own[i]) <==> own[i].id == id);
    assert forall i :: 0 <= i < |bs| ==> (h(bs[i]) <==> bs[i].id == id);
    assert forall i :: 0 <= i < |bs| ==> (BallotIn(e)(bs[i]) <==> bs[i].electionId == e);
  }

  lemma BallotIdFreeOrTaken(a: Database, b: Database, e: string, token: string, c: string, d: string, n: int,
                            id: string)
    requires PartOf(a, e) == PartOf(b, e) && !KeyTaken(b, CastVote(token, c, d, n, id), e)
    ensures BallotIdFree(a, id) <==> BallotIdFree(b, id) && !KeyTaken(a, CastVote(token, c, d, n, id), e)
  {
    PartParts(a, b, e);
    BallotIdSplit(a.ballots, e, id);
    BallotIdSplit(b.ballots, e, id);
    hide PartOf, Filter;
  }

  /** The device of a session is found, in the session's election. */
  lemma SessionDeviceFound(p: Primitives, db: Database, e: string, token: string)
    requires TablesOk(p, db) && OwnSession(db, e, token).Some?
    ensures OwnDevice(db, e, OwnSession(db, e, token).value.deviceId).Some?
  {
    var i := FindIndex(HasToken(token), db.sessions).value;
    var d := db.sessions[i].deviceId;
    assert HasDevice(db.devices, d, e) by {
      hide CandidatesOk, DevicesOk, BallotsOk, VotesKept, DeviceCountersOk, ElectionTotalsOk, ConfigurationsOk;
    }
    hide TablesOk;
    var k := FindIndex(HasDeviceId(d), db.devices);
    hide FindIndex;
    assert k.Some?;
    SessionDeviceElection(p, db, i, k.value);
  }

  /** The guards of a vote, in terms of the rows of its election. */
  lemma ChecksByRows(db: Database, e: string, token: string, c: string, d: string, n: int, id: string)
    requires OwnSession(db, e, token).Some? && OwnDevice(db, e, OwnSession(db, e, token).value.deviceId).Some?
    ensures var s := OwnSession(db, e, token).value;
            var x := OwnDevice(db, e, s.deviceId).value;
            VoteChecks(db, token, c, d, n, id)
            == if s.status != Authorized || e !in db.elections || db.elections[e].state != Open || d != s.deviceId
               then Err(Conflict)
               else if x.status != Active then Err(Forbidden)
               else if !OwnCandidate(db, e, c) then Err(NotFound)
               else if n <= x.lastSequenceNumber then Err(Conflict)
               else if !BallotIdFree(db, id) then Err(Integrity)
               else Ok((FindIndex(HasToken(token), db.sessions).value, FindIndex(HasDeviceId(d), db.devices).value))
  {
    hide FindIndex, BallotIdFree;
  }

  lemma SessionsRewritten(p: Primitives, a: Database, b: Database, e: string, i: nat, j: nat, x: Session)
    requires Twins(p, a, b, e) && i < |a.sessions| && j < |b.sessions| && x.electionId == e
    requires a.sessions[i] == b.sessions[j] && a.sessions[i].token == x.token && a.sessions[i].electionId == e
    ensures Filter(SessionIn(e), a.sessions[i := x]) == Filter(SessionIn(e), b.sessions[j := x])
  {
    hide TablesOk, PartOf, Filter;
    DistinctKeys(p, a);
    DistinctKeys(p, b);
    PartParts(a, b, e);
    RewriteSeen(SessionIn(e), HasToken(x.token), a.sessions, i, x);
    RewriteSeen(SessionIn(e), HasToken(x.token), b.sessions, j, x);
  }

  lemma RecordedParts(db: Database, e: string, i: nat, k: nat, x: Ballot)
    requires i < |db.sessions| && k < |db.devices| && db.sessions[i].electionId == e && e in db.elections
    ensures var y := db.devices[k].(lastSequenceNumber := x.sequenceNumber,
                                    totalVotesCast := db.devices[k].totalVotesCast + 1);
            PartOf(RecordVote(db, i, k, x), e) ==
            Part(Some(db.elections[e].(totalBallots := db.elections[e].totalBallots + 1)), CandidatesOf(db, e),
                 Filter(DeviceIn(e), db.devices[k := y]),
                 Filter(SessionIn(e), db.sessions[i := db.sessions[i].(status := Voted)]),
                 Filter(BallotIn(e), db.ballots + [x]), LogOf(db, e), ManifestOf(db, e))
  {
    hide Filter;
  }

  lemma RecordTwins(a: Database, b: Database, e: string, i: nat, k: nat, i': nat, k': nat, x: Ballot, s: Session,
                    y: Device)
    requires PartOf(a, e) == PartOf(b, e) && e in a.elections && e in b.elections
    requires i < |a.sessions| && k < |a.devices| && i' < |b.sessions| && k' < |b.devices|
    requires a.sessions[i] == b.sessions[i'] && a.devices[k] == b.devices[k'] && a.sessions[i].electionId == e
    requires y
             == a.devices[k].(lastSequenceNumber := x.sequenceNumber, totalVotesCast := a.devices[k].totalVotesCast + 1)
    requires s == a.sessions[i].(status := Voted)
    requires Filter(DeviceIn(e), a.devices[k := y]) == Filter(DeviceIn(e), b.devices[k' := y])
    requires Filter(SessionIn(e), a.sessions[i := s]) == Filter(SessionIn(e), b.sessions[i' := s])
    ensures PartOf(RecordVote(a, i, k, x), e) == PartOf(RecordVote(b, i', k', x), e)
  {
    hide PartOf, RecordVote, Filter;
    PartParts(a, b, e);
    FilterAppend(BallotIn(e), a.ballots, x);
    FilterAppend(BallotIn(e), b.ballots, x);
    RecordedParts(a, e, i, k, x);
    RecordedParts(b, e, i', k', x);
  }

  /** What a vote leaves, once its session and its device are known. */
  function VoteOutcome(p: Primitives, db: Database, i: nat, k: nat, c: string, d: string, n: int, id: string,
                       actor: string, now: DateTime): (o: Outcome)
    requires i < |db.sessions| && k < |db.devices| && db.sessions[i].electionId in db.elections
    ensures o.Accepted?
  {
    var b := NewBallot(p, db.sessions[i], c, d, n, id, now);
    Accepted(LogEvent(p, RecordVote(db, i, k, b), db.sessions[i].electionId, "VOTE_CAST",
                      VoteCastData(id, d, n, b.ballotHash), actor, Some(d), now))
  }

  lemma VoteTwins(p: Primitives, a: Database, b: Database, e: string, i: nat, k: nat, i': nat, k': nat, c: string,
                  d: string, n: int, id: string, actor: string, now: DateTime)
    requires Twins(p, a, b, e) && i < |a.sessions| && k < |a.devices| && i' < |b.sessions| && k' < |b.devices|
    requires a.sessions[i] == b.sessions[i'] && a.devices[k] == b.devices[k']
    requires a.sessions[i].electionId == a.devices[k].electionId == e && e in a.elections && e in b.elections
    ensures SameOutcome(VoteOutcome(p, a, i, k, c, d, n, id, actor, now),
                        VoteOutcome(p, b, i', k', c, d, n, id, actor, now), e)
  {
    assert PartOf(a, e) == PartOf(b, e);
    hide Twins, PartOf, RecordVote, NewBallot, LogEvent, Filter;
    var x := NewBallot(p, a.sessions[i], c, d, n, id, now);
    BallotElection(p, a.sessions[i], c, d, n, id, now);
    var y := a.devices[k].(lastSequenceNumber := n, totalVotesCast := a.devices[k].totalVotesCast + 1);
    var s := a.sessions[i].(status := Voted);
    NewBallotNumber(p, a.sessions[i], c, d, n, id, now);
    DevicesRewritten(p, a, b, e, k, k', y);
    SessionsRewritten(p, a, b, e, i, i', s);
    RecordTwins(a, b, e, i, k, i', k', x, s, y);
    LogPart(p, RecordVote(a, i, k, x), RecordVote(b, i', k', x), e, "VOTE_CAST", VoteCastData(id, d, n, x.ballotHash),
            actor, Some(d), now);
  }

  lemma VoteByChecks(p: Primitives, db: Database, token: string, c: string, d: string, n: int, id: string,
                     actor: string, now: DateTime)
    ensures var v := VoteChecks(db, token, c, d, n, id);
            DoCastVote(p, db, token, c, d, n, id, actor, now)
            == if v.Err? then Rejected(v.error) else VoteOutcome(p, db, v.value.0, v.value.1, c, d, n, id, actor, now)
  {
    hide VoteChecks, LogEvent, RecordVote, NewBallot;
  }

  /** The guards agree on the two states, but for a taken key: the last guard. */
  lemma GuardsSame(p: Primitives, a: Database, b: Database, e: string, token: string, c: string, d: string, n: int,
                   id: string)
    requires Twins(p, a, b, e) && OwnSession(a, e, token).Some? && !KeyTaken(b, CastVote(token, c, d, n, id), e)
    ensures var v, v' := VoteChecks(a, token, c, d, n, id), VoteChecks(b, token, c, d, n, id);
            && (v'.Err? ==> v == v')
            && (v'.Ok? ==> (v.Ok? <==> !KeyTaken(a, CastVote(token, c, d, n, id), e)))
  {
    hide Twins, PartOf, TablesOk, KeyTaken, VoteChecks, BallotIdFree, OwnCandidate, OwnSession, OwnDevice, FindIndex;
    TwinsParts(p, a, b, e);
    PartParts(a, b, e);
    SameVoteRows(p, a, b, e, token, c);
    SessionDeviceFound(p, a, e, token);
    SameDevice(p, a, b, e, OwnSession(a, e, token).value.deviceId);
    BallotIdFreeOrTaken(a, b, e, token, c, d, n, id);
    ChecksByRows(a, e, token, c, d, n, id);
    ChecksByRows(b, e, token, c, d, n, id);
  }

  /** The rows that a granted vote finds. */
  lemma GrantedRows(p: Primitives, db: Database, e: string, token: string, c: string, d: string, n: int, id: string)
    requires TablesOk(p, db) && OwnSession(db, e, token).Some? && VoteChecks(db, token, c, d, n, id).Ok?
    ensures var (i, k) := VoteChecks(db, token, c, d, n, id).value;
            && OwnSession(db, e, token) == Some(db.sessions[i]) && db.sessions[i].electionId == e && e in db.elections
            && OwnDevice(db, e, d) == Some(db.devices[k]) && db.devices[k].electionId == e
  {
    SessionDeviceFound(p, db, e, token);
    ChecksByRows(db, e, token, c, d, n, id);
    hide TablesOk, VoteChecks, BallotIdFree, OwnCandidate;
  }

  lemma VoteSame(p: Primitives, a: Database, b: Database, e: string, token: string, c: string, d: string, n: int,
                 id: string, actor: string, now: DateTime)
    requires Twins(p, a, b, e) && OwnSession(a, e, token).Some? && !KeyTaken(b, CastVote(token, c, d, n, id), e)
    ensures SameOutcome(DoCastVote(p, a, token, c, d, n, id, actor, now),
                        DoCastVote(p, b, token, c, d, n, id, actor, now), e)
            <==> !(DoCastVote(p, b, token, c, d, n, id, actor, now).Accepted?
                   && KeyTaken(a, CastVote(token, c, d, n, id), e))
  {
    hide Twins, PartOf, TablesOk, KeyTaken, DoCastVote, VoteChecks, OwnSession, OwnDevice, RecordVote, LogEvent,
         NewBallot;
    TwinsParts(p, a, b, e);
    SameVoteRows(p, a, b, e, token, c);
    SameDevice(p, a, b, e, d);
    GuardsSame(p, a, b, e, token, c, d, n, id);
    VoteByChecks(p, a, token, c, d, n, id, actor, now);
    VoteByChecks(p, b, token, c, d, n, id, actor, now);
    var v, v' := VoteChecks(a, token, c, d, n, id), VoteChecks(b, token, c, d, n, id);
    if v.Ok? && v'.Ok? {
      GrantedRows(p, a, e, token, c, d, n, id);
      GrantedRows(p, b, e, token, c, d, n, id);
      VoteTwins(p, a, b, e, v.value.0, v.value.1, v'.value.0, v'.value.1, c, d, n, id, actor, now);
    }
  }

  // ---------- one request ----------

  lemma PlainSame(p: Primitives, a: Database, b: Database, r: Request, e: string)
    requires Twins(p, a, b, e) && !r.command.CastVote? && r.command.electionId == e
    requires !r.command.AddCandidates? && !r.command.RegisterDevice? && !r.command.AuthorizeSession?
    ensures SameOutcome(Serve(p, a, r), Serve(p, b, r), e)
  {
    hide Twins, PartOf, TablesOk, SameOutcome, DoCreateElection, DoChangeState, DoUpdateDeviceStatus,
         DoRunFullVerification, DoSignManifest, DoAnchorElectionRoot, LogEvent;
    TwinsParts(p, a, b, e);
    match r.command {
      case CreateElection(_, name) => CreateSame(p, a, b, e, name, r.actor, r.now);
      case ChangeState(_, to, reason) => ChangeSame(p, a, b, e, to, reason, r.actor, r.now);
      case UpdateDeviceStatus(_, d, status) => StatusSame(p, a, b, e, d, status, r.actor, r.now);
      case RunFullVerification(_) => VerifySame(p, a, b, e, r.actor, r.now);
      case SignManifest(_, key) => SignSame(p, a, b, e, key, r.actor, r.now);
      case AnchorElectionRoot(_, provider, id) => AnchorSame(p, a, b, e, provider, id, r.actor, r.now);
      case RejectCard(_, _, _, _) => CardSame(p, a, b, r, e);
    }
  }

  lemma KeySame(p: Primitives, a: Database, b: Database, r: Request, e: string)
    requires Twins(p, a, b, e) && !KeyTaken(b, r.command, e)
    requires r.command.AddCandidates? || r.command.RegisterDevice? || r.command.AuthorizeSession?
    requires r.command.electionId == e
    ensures SameOutcome(Serve(p, a, r), Serve(p, b, r), e)
            <==> !(Serve(p, b, r).Accepted? && KeyTaken(a, r.command, e))
  {
    hide Twins, PartOf, TablesOk, SameOutcome, KeyTaken, DoAddCandidates, DoRegisterDevice, DoAuthorizeSession;
    TwinsParts(p, a, b, e);
    match r.command {
      case AddCandidates(_, batch) => AddSame(p, a, b, e, batch, r.actor, r.now);
      case RegisterDevice(_, d, name) => RegisterSame(p, a, b, e, d, name, r.actor, r.now);
      case AuthorizeSession(_, credential, d, sid, token) =>
        AuthorizeSame(p, a, b, e, credential, d, sid, token, r.actor, r.now);
    }
  }

  lemma CastSame(p: Primitives, a: Database, b: Database, r: Request, e: string)
    requires Twins(p, a, b, e) && !KeyTaken(b, r.command, e) && r.command.CastVote? && About(a, r.command, e)
    ensures SameOutcome(Serve(p, a, r), Serve(p, b, r), e)
            <==> !(Serve(p, b, r).Accepted? && KeyTaken(a, r.command, e))
  {
    var c := r.command;
    assert OwnSession(a, e, c.token).Some?;
    hide Twins, SameOutcome, KeyTaken, DoCastVote, OwnSession, About;
    VoteSame(p, a, b, e, c.token, c.candidateId, c.deviceId, c.sequenceNumber, c.ballotId, r.actor, r.now);
  }

  lemma NoKeyNamed(db: Database, c: Command, e: string)
    requires !c.AddCandidates? && !c.RegisterDevice? && !c.AuthorizeSession? && !c.CastVote?
    ensures !KeyTaken(db, c, e)
  {
  }

  lemma AboutItsElection(db: Database, c: Command, e: string)
    requires About(db, c, e) && !c.CastVote?
    ensures c.electionId == e
  {
  }

  /**
   * Requests about e are answered by the rows of e alone, with one exception. On two states that hold the same about e,
   * where the second has no foreign row with a key that the request names, the answers and the rows about e after them
   * are the same if and only if the request is refused on the second, or names no taken key on the first either.
   */
  lemma ServeSame(p: Primitives, a: Database, b: Database, r: Request, e: string)
    requires Twins(p, a, b, e) && About(a, r.command, e) && !KeyTaken(b, r.command, e)
    ensures SameOutcome(Serve(p, a, r), Serve(p, b, r), e)
            <==> !(Serve(p, b, r).Accepted? && KeyTaken(a, r.command, e))
  {
    hide Twins, SameOutcome, KeyTaken, About, Serve;
    if r.command.CastVote? {
      CastSame(p, a, b, r, e);
    } else {
      AboutItsElection(a, r.command, e);
      if r.command.AddCandidates? || r.command.RegisterDevice? || r.command.AuthorizeSession? {
        KeySame(p, a, b, r, e);
      } else {
        PlainSame(p, a, b, r, e);
        NoKeyNamed(a, r.command, e);
      }
    }
  }

  lemma CardSame(p: Primitives, a: Database, b: Database, r: Request, e: string)
    requires PartOf(a, e) == PartOf(b, e) && r.command.RejectCard? && r.command.electionId == e
    ensures SameOutcome(Serve(p, a, r), Serve(p, b, r), e)
  {
    var c := r.command;
    hide PartOf, LogEvent;
    LogPart(p, a, b, e, "RFID_CARD_REJECTED", CardRejectedData(c.cause, c.pseudonym), "rfid_reader", Some(c.deviceId),
            r.now);
  }

  // ---------- an election on its own ----------

  /** Every row belongs to e. */
  ghost predicate OnlyRows(db: Database, e: string) {
    && (forall i :: 0 <= i < |db.candidates| ==> db.candidates[i].electionId == e)
    && (forall i :: 0 <= i < |db.devices| ==> db.devices[i].electionId == e)
    && (forall i :: 0 <= i < |db.sessions| ==> db.sessions[i].electionId == e)
    && (forall i :: 0 <= i < |db.ballots| ==> db.ballots[i].electionId == e)
  }

  lemma OnlyRowsNotTaken(db: Database, c: Command, e: string)
    requires OnlyRows(db, e)
    ensures !KeyTaken(db, c, e)
  {
  }

  lemma OnlyRowsStay(p: Primitives, db: Database, r: Request, e: string)
    requires OnlyRows(db, e) && (r.command.CastVote? || r.command.electionId == e)
    ensures OnlyRows(Step(p, db, r), e)
  {
    hide Step;
    match r.command {
      case CastVote(_, _, _, _, _) => OnlyRowsVote(p, db, r, e);
      case AddCandidates(_, _) => OnlyRowsAdd(p, db, r, e);
      case RegisterDevice(_, _, _) => OnlyRowsAdd(p, db, r, e);
      case UpdateDeviceStatus(_, _, _) => OnlyRowsAdd(p, db, r, e);
      case AuthorizeSession(_, _, _, _, _) => OnlyRowsAdd(p, db, r, e);
      case _ => Untouched(p, db, r);
    }
  }

  lemma OnlyRowsVote(p: Primitives, db: Database, r: Request, e: string)
    requires OnlyRows(db, e) && r.command.CastVote?
    ensures OnlyRows(Step(p, db, r), e)
  {
    StepFrame(p, db, r);
    hide Step, Logs, VoteChecks, NewBallot;
    var c := r.command;
    var v := VoteChecks(db, c.token, c.candidateId, c.deviceId, c.sequenceNumber, c.ballotId);
    if v.Ok? {
      BallotElection(p, db.sessions[v.value.0], c.candidateId, c.deviceId, c.sequenceNumber, c.ballotId, r.now);
    }
  }

  lemma OnlyRowsAdd(p: Primitives, db: Database, r: Request, e: string)
    requires OnlyRows(db, e)
    requires r.command.AddCandidates? || r.command.RegisterDevice? || r.command.UpdateDeviceStatus?
             || r.command.AuthorizeSession?
    requires r.command.electionId == e
    ensures OnlyRows(Step(p, db, r), e)
  {
    StepFrame(p, db, r);
    hide Step, Logs;
  }

  /** The requests of a run that are about e when they are served. */
  ghost function OwnRequests(p: Primitives, rs: seq<Request>, e: string): seq<Request> {
    if rs == [] then []
    else
      var front, last := rs[..|rs| - 1], rs[|rs| - 1];
      OwnRequests(p, front, e) + if About(Run(p, EMPTY, front), last.command, e) then [last] else []
  }

  /** The state e would be in if there were no other elections. */
  ghost function Alone(p: Primitives, rs: seq<Request>, e: string): Database {
    Run(p, EMPTY, OwnRequests(p, rs, e))
  }

  lemma AloneStep(p: Primitives, rs: seq<Request>, r: Request, e: string)
    ensures Alone(p, rs + [r], e)
         == if About(Run(p, EMPTY, rs), r.command, e) then Step(p, Alone(p, rs, e), r) else Alone(p, rs, e)
  {
    hide Step, About;
    var own := OwnRequests(p, rs, e);
    assert (rs + [r])[..|rs|] == rs;
    assert (own + [r])[..|own|] == own && own + [] == own;
  }

  lemma {:induction false} AloneHasOnlyOwn(p: Primitives, rs: seq<Request>, e: string)
    ensures OnlyRows(Alone(p, rs, e), e)
  {
    hide Step, OnlyRows, Alone;
    if rs == [] {
      NothingAlone(p, e);
    } else {
      var front, last := rs[..|rs| - 1], rs[|rs| - 1];
      assert rs == front + [last];
      AloneHasOnlyOwn(p, front, e);
      AloneStep(p, front, last, e);
      if About(Run(p, EMPTY, front), last.command, e) {
        OnlyRowsStay(p, Alone(p, front, e), last, e);
      }
    }
  }

  lemma NothingAlone(p: Primitives, e: string)
    ensures Alone(p, [], e) == Run(p, EMPTY, []) == EMPTY && OnlyRows(EMPTY, e)
  {
  }

  // ---------- whole runs ----------

  /** Request i is about e when it is served. */
  ghost predicate AboutAt(p: Primitives, rs: seq<Request>, i: nat, e: string)
    requires i < |rs|
  {
    About(Run(p, EMPTY, rs[..i]), rs[i].command, e)
  }

  /** Request i gets the answer, and leaves the rows about e, as it would without the other elections. */
  ghost predicate AnsweredAlone(p: Primitives, rs: seq<Request>, i: nat, e: string)
    requires i < |rs|
  {
    SameOutcome(Serve(p, Run(p, EMPTY, rs[..i]), rs[i]), Serve(p, Alone(p, rs[..i], e), rs[i]), e)
  }

  /** Request i would be granted without the other elections, but names a key that one of them took. */
  ghost predicate Obstructed(p: Primitives, rs: seq<Request>, i: nat, e: string)
    requires i < |rs|
  {
    Serve(p, Alone(p, rs[..i], e), rs[i]).Accepted? && KeyTaken(Run(p, EMPTY, rs[..i]), rs[i].command, e)
  }

  ghost predicate AllAnsweredAlone(p: Primitives, rs: seq<Request>, e: string) {
    forall i :: 0 <= i < |rs| && AboutAt(p, rs, i, e) ==> AnsweredAlone(p, rs, i, e)
  }

  ghost predicate NoneObstructed(p: Primitives, rs: seq<Request>, e: string) {
    forall i :: 0 <= i < |rs| && AboutAt(p, rs, i, e) ==> !Obstructed(p, rs, i, e)
  }

  lemma PrefixSame(p: Primitives, rs: seq<Request>, n: nat, i: nat, e: string)
    requires i < n <= |rs|
    ensures AboutAt(p, rs[..n], i, e) == AboutAt(p, rs, i, e)
    ensures AnsweredAlone(p, rs[..n], i, e) == AnsweredAlone(p, rs, i, e)
    ensures Obstructed(p, rs[..n], i, e) == Obstructed(p, rs, i, e)
  {
    hide Run, Alone, Serve, About, KeyTaken, SameOutcome;
    assert rs[..n][..i] == rs[..i] && rs[..n][i] == rs[i];
  }

  lemma FrontAndLast(p: Primitives, rs: seq<Request>, e: string)
    requires rs != []
    ensures var n := |rs| - 1;
            && (AllAnsweredAlone(p, rs, e) <==>
                AllAnsweredAlone(p, rs[..n], e) && (AboutAt(p, rs, n, e) ==> AnsweredAlone(p, rs, n, e)))
            && (NoneObstructed(p, rs, e) <==>
                NoneObstructed(p, rs[..n], e) && (AboutAt(p, rs, n, e) ==> !Obstructed(p, rs, n, e)))
  {
    hide AboutAt, AnsweredAlone, Obstructed;
    var n := |rs| - 1;
    forall i | 0 <= i < n
      ensures AboutAt(p, rs[..n], i, e) == AboutAt(p, rs, i, e)
      ensures AnsweredAlone(p, rs[..n], i, e) == AnsweredAlone(p, rs, i, e)
      ensures Obstructed(p, rs[..n], i, e) == Obstructed(p, rs, i, e)
    {
      PrefixSame(p, rs, n, i, e);
    }
  }

  lemma TwinsAlong(p: Primitives, rs: seq<Request>, e: string)
    requires p.Sound() && PartOf(Run(p, EMPTY, rs), e) == PartOf(Alone(p, rs, e), e)
    ensures Twins(p, Run(p, EMPTY, rs), Alone(p, rs, e), e)
  {
    hide Run, Inv, TablesOk, PartOf, OwnRequests;
    ReachableInv(p, rs);
    ReachableInv(p, OwnRequests(p, rs, e));
    InvTables(p, Run(p, EMPTY, rs));
    InvTables(p, Run(p, EMPTY, OwnRequests(p, rs, e)));
  }

  /** One more request about e. */
  lemma LastAnswer(p: Primitives, rs: seq<Request>, r: Request, e: string)
    requires p.Sound() && PartOf(Run(p, EMPTY, rs), e) == PartOf(Alone(p, rs, e), e)
    requires About(Run(p, EMPTY, rs), r.command, e)
    ensures var a, b := Run(p, EMPTY, rs), Alone(p, rs, e);
            && (SameOutcome(Serve(p, a, r), Serve(p, b, r), e)
                <==> !(Serve(p, b, r).Accepted? && KeyTaken(a, r.command, e)))
            && (SameOutcome(Serve(p, a, r), Serve(p, b, r), e) ==> PartOf(Step(p, a, r), e) == PartOf(Step(p, b, r), e))
  {
    hide Run, Alone, Serve, About, KeyTaken, PartOf, Twins, OnlyRows;
    TwinsAlong(p, rs, e);
    AloneHasOnlyOwn(p, rs, e);
    OnlyRowsNotTaken(Alone(p, rs, e), r.command, e);
    ServeSame(p, Run(p, EMPTY, rs), Alone(p, rs, e), r, e);
  }

  /**
   * Non-interference, exactly. Take any run and any election e. Every request about e gets the answer, and leaves the
   * rows about e, that it would if all requests about other elections were deleted from the run, if and only if no
   * request about e that would be granted alone names a candidate, device, session, token or ballot key that another
   * election took. Then the rows about e are in the end those of e alone.
   */
  lemma {:induction false} NonInterference(p: Primitives, rs: seq<Request>, e: string)
    requires p.Sound()
    ensures AllAnsweredAlone(p, rs, e) <==> NoneObstructed(p, rs, e)
    ensures NoneObstructed(p, rs, e) ==> PartOf(Run(p, EMPTY, rs), e) == PartOf(Alone(p, rs, e), e)
  {
    hide Alone, Step, Serve, About, KeyTaken, PartOf, AllAnsweredAlone, NoneObstructed, SameOutcome;
    if rs == [] {
      NothingAlone(p, e);
      NothingAsked(p, e);
    } else {
      var n := |rs| - 1;
      var front := rs[..n];
      assert rs == front + [rs[n]];
      NonInterference(p, front, e);
      FrontAndLast(p, rs, e);
      AloneStep(p, front, rs[n], e);
      if NoneObstructed(p, front, e) {
        if About(Run(p, EMPTY, front), rs[n].command, e) {
          LastAnswer(p, front, rs[n], e);
        } else {
          ReachableInv(p, front);
          StepIsolated(p, Run(p, EMPTY, front), rs[n], e);
        }
      }
    }
  }

  lemma NothingAsked(p: Primitives, e: string)
    ensures AllAnsweredAlone(p, [], e) && NoneObstructed(p, [], e)
  {
  }
}
