/** The batch simulator: a second producer of elections, judged by the same verifier. */
module Simulator {
  import opened Prelude
  import opened Text
  import opened Timestamps
  import opened Sorting
  import opened Grouping
  import opened Records
  import opened Hashing
  import opened AuditChain
  import opened Verifier
  import opened Export
  import opened Acceptance
  import Transactions

  const BATCH_SIZE := 500

  // ---------- round robin ----------

  /** How often slot k of n comes up in the first t turns of a round robin. */
  function Turns(t: nat, n: nat, k: nat): nat
    requires k < n
  {
    t / n + if k < t % n then 1 else 0
  }

  lemma NextTurn(t: nat, n: nat)
    requires n > 0
    ensures (t + 1) / n == (if t % n + 1 == n then t / n + 1 else t / n)
    ensures (t + 1) % n == (if t % n + 1 == n then 0 else t % n + 1)
  {
    var q, r := t / n, t % n;
    assert t == n * q + r;
    if r + 1 == n {
      assert t + 1 == n * (q + 1) by { MulStep(n, q); }
      QuotientUnique(n, q + 1, 0, t + 1);
    } else {
      QuotientUnique(n, q, r + 1, t + 1);
    }
  }

  lemma MulStep(n: nat, q: nat)
    ensures n * (q + 1) == n * q + n
  {
  }

  lemma QuotientUnique(n: nat, q: nat, r: nat, t: nat)
    requires n > 0 && r < n && t == n * q + r
    ensures t / n == q && t % n == r
  {
    var q', r' := t / n, t % n;
    assert t == n * q' + r';
    if q' < q {
      assert n * q >= n * (q' + 1) by { MulMonotone(n, q' + 1, q); }
      MulStep(n, q');
    } else if q < q' {
      assert n * q' >= n * (q + 1) by { MulMonotone(n, q + 1, q'); }
      MulStep(n, q);
    }
  }

  lemma MulMonotone(n: nat, a: nat, b: nat)
    requires a <= b
    ensures n * a <= n * b
  {
  }

  /** Turn t goes to slot t % n and to no other. */
  lemma TurnsStep(t: nat, n: nat, k: nat)
    requires k < n
    ensures Turns(t + 1, n, k) == Turns(t, n, k) + (if k == t % n then 1 else 0)
  {
    NextTurn(t, n);
  }

  lemma TurnsStart(n: nat, k: nat)
    requires k < n
    ensures Turns(0, n, k) == 0
  {
  }

  /** No two slots are ever more than one turn apart. */
  lemma TurnsFair(t: nat, n: nat, a: nat, b: nat)
    requires a < n && b < n
    ensures -1 <= Turns(t, n, a) - Turns(t, n, b) <= 1
  {
  }

  // ---------- rows ----------

  ghost predicate AllDistinct(ids: seq<string>) {
    forall i, j :: 0 <= i < j < |ids| ==> ids[i] != ids[j]
  }

  function CandidateRows(e: string, ids: seq<string>, names: seq<string>, parties: seq<string>): seq<Candidate>
    requires |ids| == |names| == |parties|
  {
    seq(|ids|, i requires 0 <= i < |ids| =>
      Candidate(CandidateInfo(ids[i], names[i], Some(parties[i]), Some(""), i + 1), e))
  }

  function DeviceRows(e: string, ids: seq<string>, names: seq<string>): seq<Device>
    requires |ids| == |names|
  {
    seq(|ids|, i requires 0 <= i < |ids| => Device(ids[i], e, names[i], Active, 0, 0))
  }

  /** What the simulator draws from outside: the clock, session IDs and ballot IDs, by turn. */
  datatype Outside = Outside(voteTime: nat -> DateTime, sessionId: nat -> string, ballotId: nat -> string)

  /** Device row k has the k-th ID, and no ballot that names it has a number above its counter. */
  ghost predicate DevicesInStep(devices: seq<Device>, ids: seq<string>, ballots: seq<Ballot>) {
    && |devices| == |ids|
    && (forall k :: 0 <= k < |ids| ==> devices[k].id == ids[k])
    && (forall k :: 0 <= k < |ids| ==> devices[k].lastSequenceNumber >= 0)
    && (forall k, j :: 0 <= k < |ids| && 0 <= j < |ballots| && ballots[j].deviceId == ids[k]
          ==> ballots[j].sequenceNumber <= devices[k].lastSequenceNumber)
  }

  /** Device row k has cast as many ballots as name it, and its counter is that number. */
  ghost predicate CountersInStep(devices: seq<Device>, ids: seq<string>, ballots: seq<Ballot>) {
    && |devices| == |ids|
    && (forall k :: 0 <= k < |ids| ==>
          devices[k].totalVotesCast == devices[k].lastSequenceNumber == CountOf(BallotDevice(), ballots, ids[k]))
  }

  /** The row of a device after one more ballot. */
  function OneMoreVote(d: Device): Device {
    d.(lastSequenceNumber := d.lastSequenceNumber + 1, totalVotesCast := d.totalVotesCast + 1)
  }

  lemma CountersStep(devices: seq<Device>, ids: seq<string>, ballots: seq<Ballot>, k: nat, b: Ballot)
    requires AllDistinct(ids) && CountersInStep(devices, ids, ballots)
    requires k < |ids| && b.deviceId == ids[k]
    ensures CountersInStep(devices[k := OneMoreVote(devices[k])], ids, ballots + [b])
  {
    hide CountOf;
    forall j | 0 <= j < |ids|
      ensures CountOf(BallotDevice(), ballots + [b], ids[j])
           == CountOf(BallotDevice(), ballots, ids[j]) + (if j == k then 1 else 0)
    {
      CountAppend(BallotDevice(), ballots, b, ids[j]);
    }
  }

  /** Rows in step are rows that reconciliation passes. */
  lemma InStepReconciles(election: Election, devices: seq<Device>, ids: seq<string>, ballots: seq<Ballot>)
    requires DevicesInStep(devices, ids, ballots) && CountersInStep(devices, ids, ballots)
    requires election.totalBallots == |ballots|
    ensures Transactions.StoredTotalsMatch(Some(election), devices, ballots)
  {
    hide CountOf;
  }

  /** The tally dictionary holds exactly the counts, and they are the round-robin turns. */
  ghost predicate TallyInStep(key: Ballot -> string, ids: seq<string>, ballots: seq<Ballot>, tally: map<string, int>) {
    && (forall x :: x in tally <==> x in ids)
    && (forall k :: 0 <= k < |ids| ==>
          tally[ids[k]] == CountOf(key, ballots, ids[k]) == Turns(|ballots|, |ids|, k))
  }

  lemma TallyStarts(key: Ballot -> string, ids: seq<string>, tally: map<string, int>)
    requires ids != [] && tally == map x | x in ids :: 0
    ensures TallyInStep(key, ids, [], tally)
  {
    forall k | 0 <= k < |ids| ensures Turns(0, |ids|, k) == 0 {
      TurnsStart(|ids|, k);
    }
  }

  lemma TallySteps(key: Ballot -> string, ids: seq<string>, ballots: seq<Ballot>, tally: map<string, int>, b: Ballot)
    requires ids != [] && AllDistinct(ids) && TallyInStep(key, ids, ballots, tally)
    requires key(b) == ids[|ballots| % |ids|]
    ensures TallyInStep(key, ids, ballots + [b], tally[key(b) := tally[key(b)] + 1])
  {
    hide Turns, CountOf;
    forall k | 0 <= k < |ids|
      ensures CountOf(key, ballots + [b], ids[k]) == Turns(|ballots| + 1, |ids|, k)
              == tally[ids[k]] + (if ids[k] == key(b) then 1 else 0)
    {
      TallyStepsAt(key, ids, ballots, tally, b, k);
    }
  }

  lemma TallyStepsAt(key: Ballot -> string, ids: seq<string>, ballots: seq<Ballot>, tally: map<string, int>, b: Ballot,
                     k: nat)
    requires ids != [] && AllDistinct(ids) && TallyInStep(key, ids, ballots, tally)
    requires key(b) == ids[|ballots| % |ids|] && k < |ids|
    ensures CountOf(key, ballots + [b], ids[k]) == Turns(|ballots| + 1, |ids|, k)
            == tally[ids[k]] + (if ids[k] == key(b) then 1 else 0)
  {
    hide Turns, CountOf;
    var n := |ballots| % |ids|;
    TurnsStep(|ballots|, |ids|, k);
    CountAppend(key, ballots, b, ids[k]);
    assert k != n ==> ids[k] != ids[n];
  }

  lemma TallyStatesCounts(key: Ballot -> string, ids: seq<string>, known: set<string>, ballots: seq<Ballot>,
                          tally: map<string, int>)
    requires TallyInStep(key, ids, ballots, tally) && forall x :: x in known <==> x in ids
    ensures StatesCounts(key, known, ballots, tally)
  {
  }

  /** The rows of a simulated ballot. */
  ghost predicate SimulatedBallot(p: Primitives, e: string, cids: seq<string>, dids: seq<string>, b: Ballot) {
    && b.electionId == e && b.candidateId in cids && b.deviceId in dids
    && b.ballotHash == BallotHash(p, e, b.sessionId, b.candidateId, b.deviceId, b.sequenceNumber, Iso(b.recordedAt))
  }

  ghost predicate AllSimulated(p: Primitives, e: string, cids: seq<string>, dids: seq<string>, ballots: seq<Ballot>) {
    forall b :: b in ballots ==> SimulatedBallot(p, e, cids, dids, b)
  }

  lemma NoneSimulated(p: Primitives, e: string, cids: seq<string>, dids: seq<string>)
    ensures AllSimulated(p, e, cids, dids, [])
  {
  }

  lemma SimulatedAppend(p: Primitives, e: string, cids: seq<string>, dids: seq<string>, ballots: seq<Ballot>, b: Ballot,
                        c: nat, d: nat)
    requires AllSimulated(p, e, cids, dids, ballots)
    requires c < |cids| && d < |dids| && b.electionId == e && b.candidateId == cids[c] && b.deviceId == dids[d]
    requires b.ballotHash
             == BallotHash(p, e, b.sessionId, b.candidateId, b.deviceId, b.sequenceNumber, Iso(b.recordedAt))
    ensures AllSimulated(p, e, cids, dids, ballots + [b])
  {
    hide BallotHash, Iso;
  }

  lemma NextBallotReplayFree(devices: seq<Device>, ids: seq<string>, ballots: seq<Ballot>, k: nat, b: Ballot)
    requires AllDistinct(ids) && DevicesInStep(devices, ids, ballots) && ReplayFree(ballots)
    requires k < |ids| && b.deviceId == ids[k] && b.sequenceNumber == devices[k].lastSequenceNumber + 1
    ensures ReplayFree(ballots + [b])
    ensures DevicesInStep(devices[k := OneMoreVote(devices[k])], ids, ballots + [b])
  {
    var bs := ballots + [b];
    var ds := devices[k := OneMoreVote(devices[k])];
    forall x, j | 0 <= x < |ids| && 0 <= j < |bs| && bs[j].deviceId == ids[x]
      ensures bs[j].sequenceNumber <= ds[x].lastSequenceNumber
    {
      if j < |ballots| {
        assert bs[j] == ballots[j];
      }
      assert x != k ==> ids[x] != ids[k];
    }
  }

  // ---------- what is produced, turn by turn ----------

  /** The ballot of turn i: the round robin's candidate and device, and the device's next number. */
  function TurnBallot(p: Primitives, e: string, cids: seq<string>, dids: seq<string>, outside: Outside, i: nat): Ballot
    requires cids != [] && dids != []
  {
    var c, d, n := cids[i % |cids|], dids[i % |dids|], i / |dids| + 1;
    var sid, at := outside.sessionId(i), outside.voteTime(i);
    Ballot(outside.ballotId(i), e, sid, d, c, n, BallotHash(p, e, sid, c, d, n, Iso(at)), at)
  }

  ghost predicate TurnByTurn(p: Primitives, e: string, cids: seq<string>, dids: seq<string>, outside: Outside,
                             ballots: seq<Ballot>)
    requires cids != [] && dids != []
  {
    forall i :: 0 <= i < |ballots| ==> ballots[i] == TurnBallot(p, e, cids, dids, outside, i)
  }

  lemma NextTurnBallot(p: Primitives, e: string, cids: seq<string>, dids: seq<string>, outside: Outside,
                       ballots: seq<Ballot>, b: Ballot)
    requires cids != [] && dids != [] && TurnByTurn(p, e, cids, dids, outside, ballots)
    requires b == TurnBallot(p, e, cids, dids, outside, |ballots|)
    ensures TurnByTurn(p, e, cids, dids, outside, ballots + [b])
  {
    hide TurnBallot;
  }

  /** The device whose turn it is has had one turn for every full round. */
  lemma NumberOfTurn(devices: seq<Device>, dids: seq<string>, ballots: seq<Ballot>, deviceTallies: map<string, int>)
    requires dids != [] && CountersInStep(devices, dids, ballots)
    requires TallyInStep(BallotDevice(), dids, ballots, deviceTallies)
    ensures var k := |ballots| % |dids|;
            |devices| == |dids| && devices[k].lastSequenceNumber == |ballots| / |dids|
  {
    hide CountOf;
    var k := |ballots| % |dids|;
    assert Turns(|ballots|, |dids|, k) == |ballots| / |dids|;
  }

  lemma TurnsStartEmpty(p: Primitives, e: string, cids: seq<string>, dids: seq<string>, outside: Outside,
                        devices: seq<Device>)
    requires cids != [] && dids != []
    ensures TurnByTurn(p, e, cids, dids, outside, []) && CountersOnly(devices, devices) && Batches(0) == []
  {
  }

  /** Only the counters of a device row move. */
  ghost predicate CountersOnly(before: seq<Device>, after: seq<Device>) {
    && |before| == |after|
    && forall k :: 0 <= k < |after| ==>
         after[k] == before[k].(lastSequenceNumber := after[k].lastSequenceNumber,
                                totalVotesCast := after[k].totalVotesCast)
  }

  lemma CounterMoves(before: seq<Device>, after: seq<Device>, k: nat)
    requires CountersOnly(before, after) && k < |after|
    ensures CountersOnly(before, after[k := OneMoreVote(after[k])])
  {
  }

  function EventTypes(log: seq<AuditEntry>): seq<string> {
    Map((x: AuditEntry) => x.eventType, log)
  }

  lemma EventTypesAppend(log: seq<AuditEntry>, x: AuditEntry)
    ensures EventTypes(log + [x]) == EventTypes(log) + [x.eventType]
  {
  }

  lemma NoEvents()
    ensures EventTypes([]) == []
  {
  }

  /** One batch entry for every five hundred turns. */
  function Batches(turns: nat): seq<string> {
    seq(turns / 500, _ => "VOTES_CAST_BATCH")
  }

  lemma BatchesStep(turns: nat)
    ensures Batches(turns + 1) == Batches(turns) + (if (turns + 1) % 500 == 0 then ["VOTES_CAST_BATCH"] else [])
  {
  }

  /** The rows that are listed: candidates by position, active devices with their turns. */
  ghost predicate RowsListed(e: string, cids: seq<string>, cnames: seq<string>, parties: seq<string>,
                             dids: seq<string>, dnames: seq<string>, candidates: seq<Candidate>, devices: seq<Device>,
                             turnout: nat)
    requires |cids| == |cnames| == |parties| && |dids| == |dnames|
  {
    && |candidates| == |cids| && |devices| == |dids|
    && (forall i :: 0 <= i < |cids| ==>
          && candidates[i].info.id == cids[i] && candidates[i].info.name == cnames[i]
          && candidates[i].info.party == Some(parties[i]) && candidates[i].info.position == i + 1
          && candidates[i].electionId == e)
    && (forall k :: 0 <= k < |dids| ==>
          && devices[k].id == dids[k] && devices[k].electionId == e && devices[k].name == dnames[k]
          && devices[k].status == Active
          && devices[k].lastSequenceNumber == devices[k].totalVotesCast == Turns(turnout, |dids|, k))
  }

  lemma ListRows(e: string, cids: seq<string>, cnames: seq<string>, parties: seq<string>, dids: seq<string>,
                 dnames: seq<string>, devices: seq<Device>, ballots: seq<Ballot>, deviceTallies: map<string, int>)
    requires |cids| == |cnames| == |parties| && |dids| == |dnames|
    requires CountersOnly(DeviceRows(e, dids, dnames), devices) && CountersInStep(devices, dids, ballots)
    requires TallyInStep(BallotDevice(), dids, ballots, deviceTallies)
    ensures RowsListed(e, cids, cnames, parties, dids, dnames, CandidateRows(e, cids, cnames, parties), devices,
                       |ballots|)
  {
    hide CountOf, Turns;
  }

  class Simulation {
    const p: Primitives
    var log: seq<AuditEntry>
    var lastHash: Option<string>
    var seqNum: nat

    /** The closure variables follow the log. */
    ghost predicate Valid()
      reads this
    {
      ValidLog(p, log) && lastHash == Tip(log) && seqNum == |log| + 1
    }

    constructor (p: Primitives)
      ensures Valid() && log == [] && this.p == p
    {
      this.p := p;
      log := [];
      lastHash := None;
      seqNum := 1;
    }

    /** add_audit */
    method AddAudit(eventType: string, data: EventData, now: DateTime)
      requires Valid()
      modifies this
      ensures Valid()
      ensures log == old(log) + [NextEntry(p, old(log), eventType, Some(p.eventJson(data)), None, None, now)]
      ensures EventTypes(log) == EventTypes(old(log)) + [eventType]
    {
      hide EventTypes, Iso, EntryHash;
      var json := Some(p.eventJson(data));
      var entryHash := EntryHash(p, seqNum, eventType, json, Iso(now), lastHash);
      var entry := AuditEntry(seqNum, eventType, json, None, None, now, lastHash, entryHash);
      EventTypesAppend(log, entry);
      AppendKeepsValid(p, log, eventType, json, None, None, now);
      log := log + [entry];
      lastHash := Some(entryHash);
      seqNum := seqNum + 1;
    }

    /** The entries from creation to opening. */
    method LogOpening(name: string, count: nat, configHash: string, now: DateTime)
      requires Valid() && log == []
      modifies this
      ensures Valid() && log != []
      ensures EventTypes(log)
           == ["ELECTION_CREATED", "CANDIDATES_ADDED", "ELECTION_CONFIGURED", "ELECTION_LOCKED", "ELECTION_OPENED"]
    {
      hide ValidLog, NextEntry, EventTypes;
      NoEvents();
      AddAudit("ELECTION_CREATED", SimulationData("name", 0, name), now);
      AddAudit("CANDIDATES_ADDED", SimulationData("count", count, ""), now);
      AddAudit("ELECTION_CONFIGURED", SimulationData("configuration_hash", 0, configHash), now);
      AddAudit("ELECTION_LOCKED", SimulationData("locked_at", 0, Iso(now)), now);
      AddAudit("ELECTION_OPENED", SimulationData("opened_at", 0, Iso(now)), now);
    }

    /** Section 6 of run_simulation: one ballot per turn, a batch entry every BATCH_SIZE ballots. */
    method GenerateBallots(e: string, cids: seq<string>, devices0: seq<Device>, dids: seq<string>, turnout: nat,
                           outside: Outside)
      returns (ballots: seq<Ballot>, devices: seq<Device>, candidateTallies: map<string, int>,
               deviceTallies: map<string, int>)
      requires Valid() && log != []
      requires cids != [] && dids != [] && AllDistinct(cids) && AllDistinct(dids)
      requires DevicesInStep(devices0, dids, []) && CountersInStep(devices0, dids, [])
      modifies this
      ensures Valid() && log != []
      ensures |ballots| == turnout && ReplayFree(ballots)
      ensures AllSimulated(p, e, cids, dids, ballots)
      ensures DevicesInStep(devices, dids, ballots) && CountersInStep(devices, dids, ballots)
      ensures TallyInStep(BallotCandidate(), cids, ballots, candidateTallies)
      ensures TallyInStep(BallotDevice(), dids, ballots, deviceTallies)
      ensures TurnByTurn(p, e, cids, dids, outside, ballots) && CountersOnly(devices0, devices)
      ensures EventTypes(log) == EventTypes(old(log)) + Batches(turnout)
    {
      hide ValidLog, AllDistinct, BallotHash, InStep, DevicesInStep, CountersInStep, TallyInStep, AllSimulated,
           ReplayFree, NextEntry, TurnByTurn, CountersOnly, EventTypes, Batches;
      devices := devices0;
      ballots := [];
      candidateTallies := map x | x in cids :: 0;
      deviceTallies := map x | x in dids :: 0;
      BatchStarts(p, e, cids, dids, devices0, candidateTallies, deviceTallies);
      TurnsStartEmpty(p, e, cids, dids, outside, devices0);
      var i := 0;
      while i < turnout
        invariant 0 <= i <= turnout && |ballots| == i
        invariant Valid() && log != []
        invariant InStep(p, e, cids, dids, ballots, devices, candidateTallies, deviceTallies)
        invariant TurnByTurn(p, e, cids, dids, outside, ballots) && CountersOnly(devices0, devices)
        invariant EventTypes(log) == EventTypes(old(log)) + Batches(i)
      {
        InStepParts(p, e, cids, dids, ballots, devices, candidateTallies, deviceTallies);
        NumberOfTurn(devices, dids, ballots, deviceTallies);
        var k := i % |dids|;
        var cid := cids[i % |cids|];
        RowsOfTurn(p, e, cids, dids, ballots, devices, candidateTallies, deviceTallies);
        var device := devices[k];
        device := device.(lastSequenceNumber := device.lastSequenceNumber + 1);
        device := device.(totalVotesCast := device.totalVotesCast + 1);
        var now, sid := outside.voteTime(i), outside.sessionId(i);
        var hash := BallotHash(p, e, sid, cid, device.id, device.lastSequenceNumber, Iso(now));
        var b := Ballot(outside.ballotId(i), e, sid, device.id, cid, device.lastSequenceNumber, hash, now);
        BatchSteps(p, e, cids, dids, ballots, devices, candidateTallies, deviceTallies, b);
        NextTurnBallot(p, e, cids, dids, outside, ballots, b);
        CounterMoves(devices0, devices, k);
        BatchesStep(i);
        devices := devices[k := device];
        candidateTallies := candidateTallies[cid := candidateTallies[cid] + 1];
        deviceTallies := deviceTallies[device.id := deviceTallies[device.id] + 1];
        ballots := ballots + [b];
        if (i + 1) % BATCH_SIZE == 0 {
          AddAudit("VOTES_CAST_BATCH", SimulationData("batch", i + 1, ""), now);
        }
        i := i + 1;
      }
      InStepParts(p, e, cids, dids, ballots, devices, candidateTallies, deviceTallies);
    }
  }

  /** What the batch loop keeps after each ballot. */
  ghost predicate InStep(p: Primitives, e: string, cids: seq<string>, dids: seq<string>, ballots: seq<Ballot>,
                         devices: seq<Device>, candidateTallies: map<string, int>, deviceTallies: map<string, int>)
  {
    && ReplayFree(ballots)
    && AllSimulated(p, e, cids, dids, ballots)
    && DevicesInStep(devices, dids, ballots)
    && CountersInStep(devices, dids, ballots)
    && TallyInStep(BallotCandidate(), cids, ballots, candidateTallies)
    && TallyInStep(BallotDevice(), dids, ballots, deviceTallies)
  }

  lemma InStepParts(p: Primitives, e: string, cids: seq<string>, dids: seq<string>, ballots: seq<Ballot>,
                    devices: seq<Device>, candidateTallies: map<string, int>, deviceTallies: map<string, int>)
    requires InStep(p, e, cids, dids, ballots, devices, candidateTallies, deviceTallies)
    ensures ReplayFree(ballots) && AllSimulated(p, e, cids, dids, ballots)
    ensures DevicesInStep(devices, dids, ballots) && CountersInStep(devices, dids, ballots)
    ensures TallyInStep(BallotCandidate(), cids, ballots, candidateTallies)
    ensures TallyInStep(BallotDevice(), dids, ballots, deviceTallies)
  {
    hide ReplayFree, AllSimulated, DevicesInStep, CountersInStep, TallyInStep;
  }

  lemma BatchStarts(p: Primitives, e: string, cids: seq<string>, dids: seq<string>, devices: seq<Device>,
                    candidateTallies: map<string, int>, deviceTallies: map<string, int>)
    requires cids != [] && dids != [] && DevicesInStep(devices, dids, []) && CountersInStep(devices, dids, [])
    requires candidateTallies == (map x | x in cids :: 0) && deviceTallies == (map x | x in dids :: 0)
    ensures InStep(p, e, cids, dids, [], devices, candidateTallies, deviceTallies)
  {
    hide DevicesInStep, CountersInStep, TallyInStep;
    NothingReplayed();
    NoneSimulated(p, e, cids, dids);
    TallyStarts(BallotCandidate(), cids, candidateTallies);
    TallyStarts(BallotDevice(), dids, deviceTallies);
  }

  /** The rows that the next turn uses exist. */
  lemma RowsOfTurn(p: Primitives, e: string, cids: seq<string>, dids: seq<string>, ballots: seq<Ballot>,
                   devices: seq<Device>, candidateTallies: map<string, int>, deviceTallies: map<string, int>)
    requires cids != [] && dids != []
    requires InStep(p, e, cids, dids, ballots, devices, candidateTallies, deviceTallies)
    ensures var k := |ballots| % |dids|; |devices| == |dids| && devices[k].id == dids[k] && dids[k] in deviceTallies
    ensures cids[|ballots| % |cids|] in candidateTallies
  {
    hide ReplayFree, AllSimulated, DevicesInStep, CountersInStep, TallyInStep;
    DeviceRowAt(devices, dids, ballots, |ballots| % |dids|);
    TallyHas(BallotCandidate(), cids, ballots, candidateTallies, cids[|ballots| % |cids|]);
    TallyHas(BallotDevice(), dids, ballots, deviceTallies, dids[|ballots| % |dids|]);
  }

  /** One turn of the batch loop. */
  lemma BatchSteps(p: Primitives, e: string, cids: seq<string>, dids: seq<string>, ballots: seq<Ballot>,
                   devices: seq<Device>, candidateTallies: map<string, int>, deviceTallies: map<string, int>, b: Ballot)
    requires cids != [] && dids != [] && AllDistinct(cids) && AllDistinct(dids)
    requires InStep(p, e, cids, dids, ballots, devices, candidateTallies, deviceTallies)
    requires |devices| == |dids| && b.deviceId in deviceTallies && b.candidateId in candidateTallies
    requires b.electionId == e && b.candidateId == cids[|ballots| % |cids|] && b.deviceId == dids[|ballots| % |dids|]
    requires b.sequenceNumber == devices[|ballots| % |dids|].lastSequenceNumber + 1
    requires b.ballotHash
             == BallotHash(p, e, b.sessionId, b.candidateId, b.deviceId, b.sequenceNumber, Iso(b.recordedAt))
    ensures var k := |ballots| % |dids|;
            InStep(p, e, cids, dids, ballots + [b],
                   devices[k := OneMoreVote(devices[k])],
                   candidateTallies[b.candidateId := candidateTallies[b.candidateId] + 1],
                   deviceTallies[b.deviceId := deviceTallies[b.deviceId] + 1])
  {
    hide ReplayFree, AllSimulated, DevicesInStep, CountersInStep, TallyInStep, AllDistinct, BallotHash;
    SimulatedAppend(p, e, cids, dids, ballots, b, |ballots| % |cids|, |ballots| % |dids|);
    NextBallotReplayFree(devices, dids, ballots, |ballots| % |dids|, b);
    CountersStep(devices, dids, ballots, |ballots| % |dids|, b);
    TallySteps(BallotCandidate(), cids, ballots, candidateTallies, b);
    TallySteps(BallotDevice(), dids, ballots, deviceTallies, b);
  }

  lemma NothingReplayed()
    ensures ReplayFree([])
  {
  }

  lemma DeviceRowAt(devices: seq<Device>, ids: seq<string>, ballots: seq<Ballot>, k: nat)
    requires DevicesInStep(devices, ids, ballots) && k < |ids|
    ensures |devices| == |ids| && devices[k].id == ids[k]
  {
  }

  lemma TallyHas(key: Ballot -> string, ids: seq<string>, ballots: seq<Ballot>, tally: map<string, int>, x: string)
    requires TallyInStep(key, ids, ballots, tally) && x in ids
    ensures x in tally
  {
  }

  // ---------- the whole simulation ----------

  ghost predicate SimulatedView(p: Primitives, v: View, e: string, cids: seq<string>, dids: seq<string>) {
    && v.election.id == e
    && v.election.configurationHash == Some(ConfigurationHash(p, e, Map(InfoOf(), v.candidates)))
    && |v.candidates| == |cids| && (forall i :: 0 <= i < |cids| ==> v.candidates[i].info.id == cids[i])
    && |v.devices| == |dids| && (forall i :: 0 <= i < |dids| ==> v.devices[i].id == dids[i])
    && (forall b :: b in v.ballots ==> SimulatedBallot(p, e, cids, dids, b))
    && ReplayFree(v.ballots)
    && ValidLog(p, v.log) && v.log != []
  }

  lemma SimulatedRowsGood(p: Primitives, v: View, e: string, cids: seq<string>, dids: seq<string>)
    requires SimulatedView(p, v, e, cids, dids)
    ensures RowsGood(p, v) && ConfigurationCurrent(p, v)
  {
    hide ReplayFree, ValidLog, ConfigurationHash, BallotHash;
    forall b | b in v.ballots ensures BallotRowGood(p, v, b) {
      var i :| 0 <= i < |cids| && cids[i] == b.candidateId;
      assert v.candidates[i].info.id == b.candidateId;
      var k :| 0 <= k < |dids| && dids[k] == b.deviceId;
      assert v.devices[k].id == b.deviceId;
    }
  }

  lemma KnownIds(p: Primitives, v: View, e: string, cids: seq<string>, dids: seq<string>)
    requires SimulatedView(p, v, e, cids, dids)
    ensures forall x :: x in CandidateIds(OrderedCandidates(v.candidates)) <==> x in cids
    ensures forall x :: x in DeviceIds(Sort(DeviceLe, v.devices)) <==> x in dids
  {
    hide ReplayFree, ValidLog, ConfigurationHash, SimulatedBallot, OrderedCandidates, Sort;
    forall x ensures x in CandidateIds(OrderedCandidates(v.candidates)) <==> x in cids {
      CandidateIdsExported(v.candidates, x);
      if x in cids {
        var i :| 0 <= i < |cids| && cids[i] == x;
        assert v.candidates[i].info.id == x;
      }
    }
    forall x ensures x in DeviceIds(Sort(DeviceLe, v.devices)) <==> x in dids {
      DeviceIdsExported(v.devices, x);
      if x in dids {
        var i :| 0 <= i < |dids| && dids[i] == x;
        assert v.devices[i].id == x;
      }
    }
  }

  /** An export of simulated rows with a manifest over the tallies is accepted, zero entries included. */
  lemma SimulatedAccepted(p: Primitives, v: View, e: string, cids: seq<string>, dids: seq<string>, m: Manifest,
                          exportedAt: string)
    requires p.Sound() && SimulatedView(p, v, e, cids, dids) && v.manifest == Some(m)
    requires TallyInStep(BallotCandidate(), cids, v.ballots, m.candidateTotals)
    requires TallyInStep(BallotDevice(), dids, v.ballots, m.deviceTotals)
    requires m == Manifest(e, |v.ballots|, m.candidateTotals, m.deviceTotals, "PASSED", "INTACT",
                           OrElse(v.election.configurationHash, ""), ManifestHash(p, DataOf(m)), None)
    ensures ReportOf(p, ExportView(p, v, exportedAt), None, None).valid
  {
    hide RowsGood, TallyInStep, ReportOf, ExportView, ManifestHashCurrent, StatesCounts, OrderedCandidates,
         ConfigurationHash;
    SimulatedRowsGood(p, v, e, cids, dids);
    KnownIds(p, v, e, cids, dids);
    TallyStatesCounts(BallotCandidate(), cids, CandidateIds(OrderedCandidates(v.candidates)), v.ballots,
                      m.candidateTotals);
    TallyStatesCounts(BallotDevice(), dids, DeviceIds(Sort(DeviceLe, v.devices)), v.ballots, m.deviceTotals);
    HexHash(p, e, Map(InfoOf(), v.candidates));
    CurrentManifestAccepted(p, v, m);
    AcceptedByHashes(p, v, exportedAt, None, None);
  }

  lemma HexHash(p: Primitives, e: string, infos: seq<CandidateInfo>)
    requires p.Sound()
    ensures ConfigurationHash(p, e, infos) != ""
  {
    assert IsHex(ConfigurationHash(p, e, infos));
  }

  /** Round robin keeps any two tallies within one vote of each other. */
  lemma TalliesFair(key: Ballot -> string, ids: seq<string>, ballots: seq<Ballot>, tally: map<string, int>, x: string,
                    y: string)
    requires TallyInStep(key, ids, ballots, tally) && x in tally && y in tally
    ensures -1 <= tally[x] - tally[y] <= 1
  {
    var i :| 0 <= i < |ids| && ids[i] == x;
    var j :| 0 <= j < |ids| && ids[j] == y;
    TurnsFair(|ballots|, |ids|, i, j);
  }

  /** run_simulation, from the list of IDs to the rows of a published election. */
  method RunSimulation(p: Primitives, e: string, name: string,
                       cids: seq<string>, cnames: seq<string>, parties: seq<string>,
                       dids: seq<string>, dnames: seq<string>, turnout: nat, outside: Outside, now: DateTime)
    returns (v: View)
    requires |cids| == |cnames| == |parties| && |dids| == |dnames|
    requires cids != [] && dids != [] && AllDistinct(cids) && AllDistinct(dids)
    ensures v.election == Election(e, name, Published, v.election.configurationHash, turnout)
    ensures v.candidates == CandidateRows(e, cids, cnames, parties) && |v.ballots| == turnout
    ensures DevicesInStep(v.devices, dids, v.ballots) && CountersInStep(v.devices, dids, v.ballots)
    ensures Transactions.StoredTotalsMatch(Some(v.election), v.devices, v.ballots)
    ensures v.manifest.Some?
    ensures var m := v.manifest.value;
            && TallyInStep(BallotCandidate(), cids, v.ballots, m.candidateTotals)
            && TallyInStep(BallotDevice(), dids, v.ballots, m.deviceTotals)
            && (forall x, y :: x in m.candidateTotals && y in m.candidateTotals
                  ==> -1 <= m.candidateTotals[x] - m.candidateTotals[y] <= 1)
            && (forall x, y :: x in m.deviceTotals && y in m.deviceTotals
                  ==> -1 <= m.deviceTotals[x] - m.deviceTotals[y] <= 1)
    ensures TurnByTurn(p, e, cids, dids, outside, v.ballots)
    ensures RowsListed(e, cids, cnames, parties, dids, dnames, v.candidates, v.devices, turnout)
    ensures EventTypes(v.log)
         == ["ELECTION_CREATED", "CANDIDATES_ADDED", "ELECTION_CONFIGURED", "ELECTION_LOCKED", "ELECTION_OPENED"]
            + Batches(turnout) + ["ELECTION_CLOSED", "MANIFEST_GENERATED"]
    ensures p.Sound() ==> forall exportedAt :: ReportOf(p, ExportView(p, v, exportedAt), None, None).valid
  {
    hide ValidLog, TallyInStep, DevicesInStep, CountersInStep, ReplayFree, AllDistinct, ConfigurationHash,
         SimulatedBallot, ReportOf, ExportView, Transactions.StoredTotalsMatch, TurnByTurn, CountersOnly, RowsListed,
         EventTypes, Batches, NextEntry;
    var candidates := CandidateRows(e, cids, cnames, parties);
    var devices0 := DeviceRows(e, dids, dnames);
    var infos := Map(InfoOf(), candidates);
    var configHash := ConfigurationHash(p, e, Sort(PositionLe, infos));
    SortedConfigurationSame(p, e, infos);
    var sim := new Simulation(p);
    sim.LogOpening(name, |candidates|, configHash, now);
    FreshDevicesInStep(e, dids, dnames);
    var ballots, devices, candidateTallies, deviceTallies :=
      sim.GenerateBallots(e, cids, devices0, dids, turnout, outside);
    sim.AddAudit("ELECTION_CLOSED", SimulationData("total_votes", turnout, ""), now);
    var manifestHash :=
      ManifestHash(p, ManifestData(e, turnout, candidateTallies, deviceTallies, "PASSED", "INTACT", configHash));
    var m := Manifest(e, turnout, candidateTallies, deviceTallies, "PASSED", "INTACT", configHash, manifestHash, None);
    sim.AddAudit("MANIFEST_GENERATED", SimulationData("manifest_hash", 0, manifestHash), now);
    v := View(Election(e, name, Published, Some(configHash), turnout), candidates, devices, ballots, sim.log, Some(m));
    Finish(p, v, e, cids, dids, m);
    InStepReconciles(v.election, v.devices, dids, v.ballots);
    ListRows(e, cids, cnames, parties, dids, dnames, devices, ballots, deviceTallies);
  }

  lemma SortedConfigurationSame(p: Primitives, e: string, infos: seq<CandidateInfo>)
    ensures ConfigurationHash(p, e, Sort(PositionLe, infos)) == ConfigurationHash(p, e, infos)
  {
    PositionOrder();
    SortIdempotent(PositionLe, infos);
  }

  lemma FreshDevicesInStep(e: string, ids: seq<string>, names: seq<string>)
    requires |ids| == |names|
    ensures DevicesInStep(DeviceRows(e, ids, names), ids, []) && CountersInStep(DeviceRows(e, ids, names), ids, [])
  {
  }

  lemma DevicesKeepIds(devices: seq<Device>, ids: seq<string>, ballots: seq<Ballot>)
    requires DevicesInStep(devices, ids, ballots)
    ensures |devices| == |ids| && forall i :: 0 <= i < |ids| ==> devices[i].id == ids[i]
  {
  }

  lemma Finish(p: Primitives, v: View, e: string, cids: seq<string>, dids: seq<string>, m: Manifest)
    requires v.election.id == e && v.manifest == Some(m)
    requires v.election.configurationHash == Some(ConfigurationHash(p, e, Map(InfoOf(), v.candidates)))
    requires |v.candidates| == |cids| && (forall i :: 0 <= i < |cids| ==> v.candidates[i].info.id == cids[i])
    requires DevicesInStep(v.devices, dids, v.ballots)
    requires AllSimulated(p, e, cids, dids, v.ballots)
    requires ReplayFree(v.ballots) && ValidLog(p, v.log) && v.log != []
    requires TallyInStep(BallotCandidate(), cids, v.ballots, m.candidateTotals)
    requires TallyInStep(BallotDevice(), dids, v.ballots, m.deviceTotals)
    requires m == Manifest(e, |v.ballots|, m.candidateTotals, m.deviceTotals, "PASSED", "INTACT",
                           v.election.configurationHash.value, ManifestHash(p, DataOf(m)), None)
    ensures p.Sound() ==> forall exportedAt :: ReportOf(p, ExportView(p, v, exportedAt), None, None).valid
    ensures forall x, y :: x in m.candidateTotals && y in m.candidateTotals
              ==> -1 <= m.candidateTotals[x] - m.candidateTotals[y] <= 1
    ensures forall x, y :: x in m.deviceTotals && y in m.deviceTotals
              ==> -1 <= m.deviceTotals[x] - m.deviceTotals[y] <= 1
  {
    hide ValidLog, TallyInStep, DevicesInStep, ReplayFree, ConfigurationHash, SimulatedBallot, ReportOf, ExportView;
    DevicesKeepIds(v.devices, dids, v.ballots);
    if p.Sound() {
      HexHash(p, e, Map(InfoOf(), v.candidates));
      assert SimulatedView(p, v, e, cids, dids);
      forall exportedAt ensures ReportOf(p, ExportView(p, v, exportedAt), None, None).valid {
        SimulatedAccepted(p, v, e, cids, dids, m, exportedAt);
      }
    }
    forall x, y | x in m.candidateTotals && y in m.candidateTotals
      ensures -1 <= m.candidateTotals[x] - m.candidateTotals[y] <= 1
    {
      TalliesFair(BallotCandidate(), cids, v.ballots, m.candidateTotals, x, y);
    }
    forall x, y | x in m.deviceTotals && y in m.deviceTotals
      ensures -1 <= m.deviceTotals[x] - m.deviceTotals[y] <= 1
    {
      TalliesFair(BallotDevice(), dids, v.ballots, m.deviceTotals, x, y);
    }
  }
}
