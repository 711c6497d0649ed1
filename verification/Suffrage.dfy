/** Every voter who has not voted can: the guards of a vote never shut out an unused credential. */
module Suffrage {
  import opened Prelude
  import opened Records
  import opened Hashing
  import opened Transactions
  import opened Invariants
  import opened Runs
  import opened Answers
  import opened Effects
  import opened Progress

  ghost predicate CredentialFree(db: Database, e: string, credential: string) {
    forall i :: 0 <= i < |db.sessions| && db.sessions[i].electionId == e ==> db.sessions[i].credential != credential
  }

  /** A text that is neither the ID nor the token of a session. */
  function FreshText(db: Database): (t: string)
    ensures forall i :: 0 <= i < |db.sessions| ==> db.sessions[i].id != t && db.sessions[i].token != t
  {
    var ids, tokens := Map((s: Session) => s.id, db.sessions), Map((s: Session) => s.token, db.sessions);
    var t := Unused(ids + tokens);
    assert forall i :: 0 <= i < |ids| ==> (ids + tokens)[i] == ids[i];
    assert forall i :: 0 <= i < |tokens| ==> (ids + tokens)[|ids| + i] == tokens[i];
    assert forall i :: 0 <= i < |db.sessions| ==> ids[i] == db.sessions[i].id && tokens[i] == db.sessions[i].token;
    t
  }

  /** An ID that no ballot has. */
  function FreshBallotId(db: Database): (t: string)
    ensures forall i :: 0 <= i < |db.ballots| ==> db.ballots[i].id != t
  {
    var ids := Map((b: Ballot) => b.id, db.ballots);
    var t := Unused(ids);
    assert forall i :: 0 <= i < |db.ballots| ==> ids[i] == db.ballots[i].id;
    t
  }

  function NewSession(db: Database, e: string, credential: string, d: string): Session {
    Session(FreshText(db), e, d, FreshText(db), credential, Authorized)
  }

  function Authorize(db: Database, e: string, credential: string, d: string): Request {
    Ask(AuthorizeSession(e, credential, d, FreshText(db), FreshText(db)))
  }

  lemma MayAuthorize(db: Database, e: string, credential: string, d: string)
    requires At(db, e, Open) && DeviceIs(db, e, d, Active) && CredentialFree(db, e, credential)
    ensures Refusal(db, Authorize(db, e, credential, d).command) == None
  {
    hide DeviceIs;
  }

  lemma Authorizes(p: Primitives, db: Database, e: string, credential: string, d: string)
    requires p.Sound() && Inv(p, db) && At(db, e, Open) && DeviceIs(db, e, d, Active)
    requires CredentialFree(db, e, credential)
    ensures var db' := Step(p, db, Authorize(db, e, credential, d));
            && Inv(p, db')
            && db' == db.(sessions := db.sessions + [NewSession(db, e, credential, d)], audit := db'.audit)
  {
    hide Inv, Step, Refusal, DeviceIs, CredentialFree;
    var r := Authorize(db, e, credential, d);
    MayAuthorize(db, e, credential, d);
    Granted(p, db, r);
    hide EntryAdded;
  }

  function Vote(token: string, c: string, d: string, id: string): Request {
    Ask(CastVote(token, c, d, 1, id))
  }

  /** Device d is the last row, and has cast no vote. */
  predicate NewDevice(db: Database, e: string, d: string) {
    && db.devices != []
    && var n := |db.devices| - 1;
    && db.devices[n].id == d && db.devices[n].electionId == e && db.devices[n].status == Active
    && db.devices[n].lastSequenceNumber == 0
    && forall k :: 0 <= k < n ==> db.devices[k].id != d
  }

  lemma DeviceIsNew(db: Database, db': Database, e: string, d: string)
    requires OneMoreActive(db, db', e, d)
    ensures NewDevice(db', e, d)
  {
    NotAmong(db, d);
  }

  lemma MayVote(db: Database, s: Session, e: string, c: string, d: string, id: string)
    requires At(db, e, Open) && NewDevice(db, e, d) && HasCandidate(db.candidates, c, e)
    requires db.sessions != [] && db.sessions[|db.sessions| - 1] == s
    requires s.electionId == e && s.deviceId == d && s.status == Authorized
    requires forall i :: 0 <= i < |db.ballots| ==> db.ballots[i].id != id
    ensures Refusal(db, CastVote(s.token, c, d, 1, id)) == None
  {
    var i, k := |db.sessions| - 1, |db.devices| - 1;
    var j :| 0 <= j < |db.candidates| && db.candidates[j].info.id == c && db.candidates[j].electionId == e;
    assert db.sessions[i].token == s.token && db.devices[k].id == d;
    assert TokenKnown(db, s.token) && SessionReady(db, s.token, d) && DeviceActive(db, d);
    assert StandsForToken(db, s.token, c);
    assert !NumberUsed(db, d, 1) && !BallotIdTaken(db, id);
    hide TokenKnown, SessionReady, DeviceActive, StandsForToken, NumberUsed, BallotIdTaken;
  }

  /** One more ballot, in e for c, by the voter with the credential, whose session is used up. */
  ghost predicate VoteCounted(db: Database, db': Database, e: string, credential: string, c: string) {
    exists b, i ::
      && db'.ballots == db.ballots + [b] && b.electionId == e && b.candidateId == c
      && 0 <= i < |db'.sessions| && db'.sessions[i].id == b.sessionId && db'.sessions[i].electionId == e
      && db'.sessions[i].credential == credential && db'.sessions[i].status == Voted
  }

  lemma VoteAtParts(p: Primitives, db: Database, r: Request, db': Database, i: nat, k: nat, b: Ballot)
    requires r.command.CastVote? && VoteAt(p, db, r, db', i, k, b)
    ensures i < |db.sessions| && db.sessions[i].token == r.command.token
    ensures db'.ballots == db.ballots + [b] && db'.sessions == db.sessions[i := db.sessions[i].(status := Voted)]
    ensures b.electionId == db.sessions[i].electionId && b.sessionId == db.sessions[i].id
    ensures b.candidateId == r.command.candidateId
  {
    hide EntryAdded;
  }

  lemma Counted(p: Primitives, db: Database, r: Request, db': Database, s: Session, c: string)
    requires r.command.CastVote? && VoteRecorded(p, db, r, db')
    requires r.command.token == s.token && r.command.candidateId == c
    requires db.sessions != [] && db.sessions[|db.sessions| - 1] == s
    requires forall i :: 0 <= i < |db.sessions| - 1 ==> db.sessions[i].token != s.token
    ensures VoteCounted(db, db', s.electionId, s.credential, c)
  {
    hide VoteAt;
    var i: nat, k: nat, b :| VoteAt(p, db, r, db', i, k, b);
    VoteAtParts(p, db, r, db', i, k, b);
    assert i == |db.sessions| - 1;
    assert db'.sessions[i] == s.(status := Voted);
  }

  lemma Votes(p: Primitives, db: Database, s: Session, e: string, c: string, d: string)
    requires p.Sound() && Inv(p, db)
    requires At(db, e, Open) && NewDevice(db, e, d) && HasCandidate(db.candidates, c, e)
    requires db.sessions != [] && db.sessions[|db.sessions| - 1] == s
    requires forall i :: 0 <= i < |db.sessions| - 1 ==> db.sessions[i].token != s.token
    requires s.electionId == e && s.deviceId == d && s.status == Authorized
    ensures VoteCounted(db, Step(p, db, Vote(s.token, c, d, FreshBallotId(db))), e, s.credential, c)
  {
    hide Inv, Step, Refusal, NewDevice, HasCandidate, VoteCounted, VoteRecorded;
    var r := Vote(s.token, c, d, FreshBallotId(db));
    MayVote(db, s, e, c, d, FreshBallotId(db));
    Granted(p, db, r);
    Counted(p, db, r, Step(p, db, r), s, c);
  }

  lemma Equipped(p: Primitives, db: Database, get: seq<Request>, e: string, credential: string, c: string, d: string)
    returns (rs: seq<Request>)
    requires p.Sound() && At(db, e, Open) && OneMoreActive(db, Run(p, db, get), e, d) && Inv(p, Run(p, db, get))
    requires CredentialFree(db, e, credential) && HasCandidate(db.candidates, c, e)
    ensures |rs| == |get| + 2 && VoteCounted(db, Run(p, db, rs), e, credential, c)
  {
    var db1 := Run(p, db, get);
    DeviceIsNew(db, db1, e, d);
    ActiveNow(db, db1, e, d);
    hide Inv, Step, Run, DeviceExists, NewDevice, DeviceIs, HasCandidate, VoteCounted, FreshText, FreshBallotId;
    var authorize := Authorize(db1, e, credential, d);
    var s := NewSession(db1, e, credential, d);
    Authorizes(p, db1, e, credential, d);
    var db2 := Step(p, db1, authorize);
    SameNewDevice(db1, db2, e, d);
    var vote := Vote(s.token, c, d, FreshBallotId(db2));
    Votes(p, db2, s, e, c, d);
    rs := get + ([authorize] + [vote]);
    RunConcat(p, db, get, [authorize] + [vote]);
    RunMore(p, db1, authorize, [vote]);
    RunOne(p, db2, vote);
    SameBallots(db, db2, Step(p, db2, vote), e, credential, c);
  }

  lemma SameNewDevice(a: Database, b: Database, e: string, d: string)
    requires NewDevice(a, e, d) && b.devices == a.devices
    ensures NewDevice(b, e, d)
  {
  }

  lemma SameBallots(a: Database, b: Database, db': Database, e: string, credential: string, c: string)
    requires a.ballots == b.ballots && VoteCounted(b, db', e, credential, c)
    ensures VoteCounted(a, db', e, credential, c)
  {
  }

  /**
   * From every reachable state in which an election is open, for each of its candidates and each credential without a
   * session in it, four requests record a vote: a device is registered and activated, the session authorized, the vote
   * cast.
   */
  lemma EveryVoterCanVote(p: Primitives, rs: seq<Request>, e: string, credential: string, c: string)
    returns (more: seq<Request>)
    requires p.Sound() && At(Run(p, EMPTY, rs), e, Open)
    requires CredentialFree(Run(p, EMPTY, rs), e, credential) && HasCandidate(Run(p, EMPTY, rs).candidates, c, e)
    ensures |more| == 4 && VoteCounted(Run(p, EMPTY, rs), Run(p, EMPTY, rs + more), e, credential, c)
  {
    hide Inv, Step, Run, CredentialFree, HasCandidate, VoteCounted, OneMoreActive;
    var db := Run(p, EMPTY, rs);
    ReachableInv(p, rs);
    var get, d := GetDevice(p, db, e);
    more := Equipped(p, db, get, e, credential, c, d);
    RunConcat(p, EMPTY, rs, more);
  }
}
