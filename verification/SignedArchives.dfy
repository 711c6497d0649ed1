/** What an accepted archive with a signature says: the results that were signed. */
module SignedArchives {
  import opened Prelude
  import opened Text
  import opened Sorting
  import opened Grouping
  import opened Records
  import opened Hashing
  import opened AuditChain
  import opened Verifier
  import opened VerifierFacts
  import opened Export
  import opened Acceptance
  import opened Transactions
  import opened Runs
  import opened Staleness

  // ---------- the signature ----------

  /** The archive states the data: election, number of ballots, count of every candidate and device, configuration. */
  ghost predicate StatesData(p: Primitives, b: ArchiveBody, data: ManifestData) {
    && b.election.id == data.electionId
    && |b.ballots| == data.totalBallots
    && (forall c :: GetOrZero(data.candidateTotals, c) == CountOf(CandidateOf(), b.ballots, c))
    && (forall d :: GetOrZero(data.deviceTotals, d) == CountOf(DeviceOf(), b.ballots, d))
    && data.configurationHash == RecomputedConfiguration(p, b)
  }

  lemma KnownKeysCount(key: ArchiveBallot -> string, ids: set<string>, ballots: seq<ArchiveBallot>, k: string)
    requires forall b :: b in ballots ==> key(b) in ids
    ensures GetOrZero(Recount(key, ids, ballots), k) == CountOf(key, ballots, k)
  {
    if k !in ids {
      forall b | b in ballots
        ensures !Keyed(key, k)(b)
      {
      }
      FilterNone(Keyed(key, k), ballots);
    }
  }

  lemma RebuiltStates(p: Primitives, b: ArchiveBody, m: Manifest)
    requires BallotsAccepted(p, b.election.id, CandidateIds(b.candidates), DeviceIds(b.devices), b.ballots)
    ensures StatesData(p, b, RebuiltManifest(p, b, m))
  {
    var cids, dids := CandidateIds(b.candidates), DeviceIds(b.devices);
    forall x | x in b.ballots
      ensures CandidateOf()(x) in cids && DeviceOf()(x) in dids
    {
      assert BallotGood(p, b.election.id, cids, dids, x);
    }
    hide ChooseTotals, Recount, GetOrZero, CountOf, CandidateIds, DeviceIds;
    forall c
      ensures GetOrZero(RebuiltManifest(p, b, m).candidateTotals, c) == CountOf(CandidateOf(), b.ballots, c)
    {
      ChosenTotalsAgree(m.candidateTotals, Recount(CandidateOf(), cids, b.ballots), c);
      KnownKeysCount(CandidateOf(), cids, b.ballots, c);
    }
    forall d
      ensures GetOrZero(RebuiltManifest(p, b, m).deviceTotals, d) == CountOf(DeviceOf(), b.ballots, d)
    {
      ChosenTotalsAgree(m.deviceTotals, Recount(DeviceOf(), dids, b.ballots), d);
      KnownKeysCount(DeviceOf(), dids, b.ballots, d);
    }
  }

  /** An archive with a signed manifest. */
  predicate Signed(a: Archive) {
    a.body.manifest.Some? && a.body.manifest.value.digitalSignature.Some?
  }

  function PayloadIn(a: Archive): SignedPayload
    requires Signed(a)
  {
    a.body.manifest.value.digitalSignature.value.payload
  }

  lemma AcceptedSignature(p: Primitives, a: Archive, key: Option<string>, receipt: Option<AnchorReceipt>)
    requires p.Sound() && Signed(a) && ReportOf(p, a, key, receipt).valid
    ensures var b := a.body;
            && BallotsAccepted(p, b.election.id, CandidateIds(b.candidates), DeviceIds(b.devices), b.ballots)
            && PayloadIn(a).electionId == b.election.id
            && Lower(PayloadIn(a).manifestHash) == Lower(ManifestHash(p, RebuiltManifest(p, b, b.manifest.value)))
  {
    hide Sort, RebuiltManifest, ChainAccepted, ReconciliationAccepted, BallotsAccepted, SequencesAccepted;
    assert ChecksOf(p, a, key, receipt).All();
    assert ManifestAccepted(p, a.body) && SignatureAccepted(p, a.body, key);
  }

  /**
   * The signature pins the results. An accepted archive whose signed payload carries the hash of some manifest data
   * states exactly these data, unless two manifest data share a hash.
   */
  lemma SignaturePinsData(p: Primitives, a: Archive, key: Option<string>, receipt: Option<AnchorReceipt>,
                          data: ManifestData)
    requires p.Sound() && Signed(a) && ReportOf(p, a, key, receipt).valid
    requires PayloadIn(a).manifestHash == ManifestHash(p, data)
    requires NoManifestCollision(p, data, RebuiltManifest(p, a.body, a.body.manifest.value))
    ensures StatesData(p, a.body, data)
  {
    var rebuilt := RebuiltManifest(p, a.body, a.body.manifest.value);
    AcceptedSignature(p, a, key, receipt);
    RebuiltStates(p, a.body, a.body.manifest.value);
    assert IsHex(ManifestHash(p, data)) && IsHex(ManifestHash(p, rebuilt));
    HexFacts(ManifestHash(p, data));
    HexFacts(ManifestHash(p, rebuilt));
    hide ReportOf, RebuiltManifest, StatesData, BallotsAccepted, ManifestHash, Lower;
  }

  // ---------- signatures of a run ----------

  /** Request i of the run signed the payload with the secret. */
  ghost predicate SignedAt(p: Primitives, rs: seq<Request>, i: nat, e: string, secret: string, payload: SignedPayload)
    requires i < |rs|
  {
    var db := Run(p, EMPTY, rs[..i]);
    && rs[i].command == SignManifest(e, Some(secret))
    && e in db.elections && e in db.manifests
    && payload == PayloadOf(db.manifests[e], e, Root(LogOf(db, e)))
  }

  /** The manifest data of election e after j requests. */
  ghost function ResultsAt(p: Primitives, rs: seq<Request>, j: nat, e: string): Option<ManifestData>
    requires j <= |rs|
  {
    var db := Run(p, EMPTY, rs[..j]);
    if e in db.elections then Some(CurrentManifest(ViewOf(db, e))) else None
  }

  /** A stored manifest states the results of the state in which it was last verified. */
  lemma StoredIsDated(p: Primitives, rs: seq<Request>, e: string) returns (j: nat)
    requires p.Sound() && e in Run(p, EMPTY, rs).manifests
    ensures j < |rs| && LastVerification(p, rs, e) == Some(j)
    ensures ResultsAt(p, rs, j, e) == Some(DataOf(Run(p, EMPTY, rs).manifests[e]))
  {
    ManifestAge(p, rs, e);
    hide Run, CurrentManifest, LastVerification, DataOf;
    j := LastVerification(p, rs, e).value;
  }

  lemma StoredOwnHash(p: Primitives, rs: seq<Request>, e: string)
    requires p.Sound() && e in Run(p, EMPTY, rs).manifests
    ensures Run(p, EMPTY, rs).manifests[e].manifestHash == ManifestHash(p, DataOf(Run(p, EMPTY, rs).manifests[e]))
  {
    ReachableInv(p, rs);
    hide Run, Inv, DataOf, ManifestHash;
    StoredManifestOk(p, Run(p, EMPTY, rs), e);
  }

  lemma ResultsOfPrefix(p: Primitives, rs: seq<Request>, i: nat, j: nat, e: string)
    requires j <= i <= |rs|
    ensures ResultsAt(p, rs[..i], j, e) == ResultsAt(p, rs, j, e)
  {
    assert rs[..i][..j] == rs[..j];
    hide Run, CurrentManifest;
  }

  lemma SignedData(p: Primitives, rs: seq<Request>, i: nat, e: string, secret: string, payload: SignedPayload)
    returns (j: nat, data: ManifestData)
    requires p.Sound() && i < |rs| && SignedAt(p, rs, i, e, secret, payload)
    ensures j < i && LastVerification(p, rs[..i], e) == Some(j) && ResultsAt(p, rs, j, e) == Some(data)
    ensures payload.electionId == e && payload.manifestHash == ManifestHash(p, data)
  {
    hide Run, ResultsAt, DataOf, ManifestHash;
    j := StoredIsDated(p, rs[..i], e);
    data := DataOf(Run(p, EMPTY, rs[..i]).manifests[e]);
    StoredOwnHash(p, rs[..i], e);
    ResultsOfPrefix(p, rs, i, j, e);
  }

  /** No manifest data of any state of the run share a hash with what the verifier rebuilds from the archive. */
  ghost predicate ResultsCollisionFree(p: Primitives, rs: seq<Request>, a: Archive)
    requires Signed(a)
  {
    forall j: nat, e, data :: j <= |rs| && ResultsAt(p, rs, j, e) == Some(data) ==>
      NoManifestCollision(p, data, RebuiltManifest(p, a.body, a.body.manifest.value))
  }

  /**
   * An archive accepted with a signature over a payload that the backend signed during a run, which is all an
   * unforgeable signature can be over, states the rows of a state of that run: the election that was signed and, as
   * they were when it was last verified before the signing, its number of ballots, the count of every candidate and
   * device, and its configuration hash.
   */
  lemma SignaturePinsResults(p: Primitives, rs: seq<Request>, i: nat, secret: string, a: Archive, key: Option<string>,
                             receipt: Option<AnchorReceipt>) returns (j: nat, data: ManifestData)
    requires p.Sound() && Signed(a) && ReportOf(p, a, key, receipt).valid
    requires i < |rs| && SignedAt(p, rs, i, a.body.election.id, secret, PayloadIn(a))
    requires ResultsCollisionFree(p, rs, a)
    ensures j < i && LastVerification(p, rs[..i], a.body.election.id) == Some(j)
    ensures ResultsAt(p, rs, j, a.body.election.id) == Some(data) && StatesData(p, a.body, data)
  {
    hide SignedAt, ReportOf, ResultsAt, NoManifestCollision, RebuiltManifest, ManifestHash, StatesData;
    j, data := SignedData(p, rs, i, a.body.election.id, secret, PayloadIn(a));
    SignaturePinsData(p, a, key, receipt, data);
  }

  // ---------- what a caller knows ----------

  /** The signature is not a forgery: if the signer's public key accepts it, the run signed this payload. */
  ghost predicate NotForged(p: Primitives, rs: seq<Request>, secret: string, payload: SignedPayload, signature: string)
  {
    p.verify(p.publicKey(secret), payload, signature) ==>
      exists i: nat :: i < |rs| && SignedAt(p, rs, i, payload.electionId, secret, payload)
  }

  lemma AcceptedVerifies(p: Primitives, a: Archive, key: string, receipt: Option<AnchorReceipt>)
    requires Signed(a) && key != "" && ReportOf(p, a, Some(key), receipt).valid
    ensures p.verify(key, PayloadIn(a), a.body.manifest.value.digitalSignature.value.signature)
  {
    hide Sort, RebuiltManifest, ChainAccepted, ReconciliationAccepted, BallotsAccepted, SequencesAccepted;
    assert ChecksOf(p, a, Some(key), receipt).All();
    assert SignatureAccepted(p, a.body, Some(key));
  }

  /**
   * The caller's form. Whoever verifies an archive with the backend's public key, and trusts that the one signature in
   * it is no forgery, knows the results: accepted, the archive states what the signed election showed at its latest
   * verification before some signing of it in the run.
   */
  lemma AcceptedKeyPinsResults(p: Primitives, rs: seq<Request>, secret: string, a: Archive,
                               receipt: Option<AnchorReceipt>) returns (i: nat, j: nat, data: ManifestData)
    requires p.Sound() && Signed(a) && p.publicKey(secret) != ""
    requires ReportOf(p, a, Some(p.publicKey(secret)), receipt).valid
    requires NotForged(p, rs, secret, PayloadIn(a), a.body.manifest.value.digitalSignature.value.signature)
    requires ResultsCollisionFree(p, rs, a)
    ensures j < i < |rs| && SignedAt(p, rs, i, a.body.election.id, secret, PayloadIn(a))
    ensures LastVerification(p, rs[..i], a.body.election.id) == Some(j)
    ensures ResultsAt(p, rs, j, a.body.election.id) == Some(data) && StatesData(p, a.body, data)
  {
    hide SignedAt, ReportOf, ResultsCollisionFree, ResultsAt, StatesData, LastVerification, BallotsAccepted,
         RebuiltManifest, ManifestHash, Lower;
    AcceptedVerifies(p, a, p.publicKey(secret), receipt);
    AcceptedSignature(p, a, Some(p.publicKey(secret)), receipt);
    i :| i < |rs| && SignedAt(p, rs, i, PayloadIn(a).electionId, secret, PayloadIn(a));
    j, data := SignaturePinsResults(p, rs, i, secret, a, Some(p.publicKey(secret)), receipt);
  }
}
