/** The terminal's twelve-state machine and what its transition matrix means over whole runs. */
module StateMachine {
  import opened Clocks

  datatype FsmState =
    | Boot | SelfTest | Ready | AdminAuth | Voting | Confirm
    | VoteSubmission | AuditCommit | VoteComplete | Paused | TamperDetected | Error

  predicate IsTransitionValid(from: FsmState, to: FsmState) {
    || to.TamperDetected?
    || to.Error?
    || match from
       case Boot => to.SelfTest?
       case SelfTest => to.Ready? || to.Paused?
       case Ready => to.AdminAuth? || to.Voting? || to.Paused?
       case AdminAuth => to.Ready? || to.Paused? || to.Error? || to.TamperDetected?
       case Voting => to.Confirm? || to.Ready? || to.AdminAuth?
       case Confirm => to.VoteSubmission? || to.Voting? || to.Ready? || to.AdminAuth?
       case VoteSubmission => to.AuditCommit?
       case AuditCommit => to.VoteComplete?
       case VoteComplete => to.Ready?
       case Paused => to.AdminAuth?
       case TamperDetected => to.AdminAuth?
       case Error => to.AdminAuth?
  }

  predicate Locked(s: FsmState) {
    s.TamperDetected? || s.Error? || s.Paused?
  }

  predicate MayVote(s: FsmState) {
    s.Voting? || s.Confirm?
  }

  datatype Fsm = Fsm(current: FsmState, previous: FsmState, enteredMs: Millis)

  datatype Event = Request(to: FsmState) | Tamper | Fault | Recovery(configHashValid: bool)

  /** The state an event leads to, if it is accepted. */
  function Target(s: FsmState, e: Event): FsmState {
    match e
    case Request(to) => if IsTransitionValid(s, to) then to else s
    case Tamper => TamperDetected
    case Fault => Error
    case Recovery(valid) => if !s.AdminAuth? then s else if valid then Ready else Error
  }

  predicate Accepted(s: FsmState, e: Event) {
    match e
    case Request(to) => IsTransitionValid(s, to)
    case Tamper => true
    case Fault => true
    case Recovery(_) => s.AdminAuth?
  }

  function Handle(f: Fsm, e: Event, now: Millis): (r: Fsm)
    ensures r.current == Target(f.current, e)
  {
    if Accepted(f.current, e) then Fsm(Target(f.current, e), f.current, now) else f
  }

  class Machine {
    var current: FsmState
    var previous: FsmState
    var enteredMs: Millis

    function State(): Fsm
      reads this
    {
      Fsm(current, previous, enteredMs)
    }

    constructor ()
      ensures State() == Fsm(Boot, Boot, 0)
    {
      current, previous, enteredMs := Boot, Boot, 0;
    }

    method Init()
      modifies this
      ensures State() == Fsm(Boot, Boot, 0)
    {
      current := Boot;
      previous := Boot;
      enteredMs := 0;
    }

    method TransitionTo(newState: FsmState, now: Millis) returns (ok: bool)
      modifies this
      ensures State() == Handle(old(State()), Request(newState), now)
      ensures ok == IsTransitionValid(old(current), newState)
      ensures ok ==> State() == Fsm(newState, old(current), now)
      ensures !ok ==> State() == old(State())
    {
      if !IsTransitionValid(current, newState) {
        return false;
      }
      previous := current;
      current := newState;
      enteredMs := now;
      return true;
    }

    method TriggerTamper(now: Millis)
      modifies this
      ensures State() == Handle(old(State()), Tamper, now) == Fsm(TamperDetected, old(current), now)
    {
      previous := current;
      current := TamperDetected;
      enteredMs := now;
    }

    method TriggerError(now: Millis)
      modifies this
      ensures State() == Handle(old(State()), Fault, now) == Fsm(Error, old(current), now)
    {
      previous := current;
      current := Error;
      enteredMs := now;
    }

    method ExecuteRecovery(configHashValid: bool, now: Millis) returns (ok: bool)
      modifies this
      ensures State() == Handle(old(State()), Recovery(configHashValid), now)
      ensures ok <==> old(current).AdminAuth? && configHashValid
      ensures State() == if !old(current).AdminAuth? then old(State())
                         else Fsm(if configHashValid then Ready else Error, AdminAuth, now)
    {
      if !current.AdminAuth? {
        return false;
      }
      if configHashValid {
        previous := current;
        current := Ready;
        enteredMs := now;
        return true;
      } else {
        previous := current;
        current := Error;
        enteredMs := now;
        return false;
      }
    }

    method CanVote() returns (r: bool)
      ensures r == MayVote(current)
    {
      r := current == Voting || current == Confirm;
    }

    method IsLocked() returns (r: bool)
      ensures r == Locked(current)
    {
      r := current == TamperDetected || current == Error || current == Paused;
    }
  }

  // ---------- Runs ----------

  /** The states of a run: the start, then the state after each event. */
  function Trace(start: FsmState, events: seq<Event>): (t: seq<FsmState>)
    ensures |t| == |events| + 1 && t[0] == start
  {
    if events == [] then [start]
    else
      var before := Trace(start, events[..|events| - 1]);
      before + [Target(before[|events| - 1], events[|events| - 1])]
  }

  /** One move of a run: nothing, or one the matrix allows. */
  predicate Moves(from: FsmState, to: FsmState) {
    from == to || IsTransitionValid(from, to)
  }

  predicate Follows(t: seq<FsmState>) {
    forall i :: 0 < i < |t| ==> Moves(t[i - 1], t[i])
  }

  /**
   * The emergency triggers and the recovery bypass the request check, yet no event leaves
   * the matrix.
   */
  lemma {:induction false} TracesFollowMatrix(start: FsmState, events: seq<Event>)
    ensures Follows(Trace(start, events))
  {
    if events != [] {
      var last := |events| - 1;
      var before := Trace(start, events[..last]);
      TracesFollowMatrix(start, events[..last]);
      assert Moves(before[last], Target(before[last], events[last]));
    }
  }

  /** `wanted` occurs in `s` in order, not necessarily contiguously. */
  predicate InOrder(wanted: seq<FsmState>, s: seq<FsmState>) {
    || wanted == []
    || (s != [] && if wanted[|wanted| - 1] == s[|s| - 1]
                   then InOrder(wanted[..|wanted| - 1], s[..|s| - 1])
                   else InOrder(wanted, s[..|s| - 1]))
  }

  lemma {:induction false} InOrderPrefix(wanted: seq<FsmState>, s: seq<FsmState>)
    requires InOrder(wanted, s) && wanted != []
    ensures InOrder(wanted[..|wanted| - 1], s)
    decreases |s|, 0
  {
    var short := wanted[..|wanted| - 1];
    if wanted[|wanted| - 1] == s[|s| - 1] {
      InOrderMore(short, s[..|s| - 1], s[|s| - 1]);
      assert s == s[..|s| - 1] + [s[|s| - 1]];
    } else {
      InOrderPrefix(wanted, s[..|s| - 1]);
      InOrderMore(short, s[..|s| - 1], s[|s| - 1]);
      assert s == s[..|s| - 1] + [s[|s| - 1]];
    }
  }

  lemma {:induction false} InOrderMore(wanted: seq<FsmState>, s: seq<FsmState>, x: FsmState)
    requires InOrder(wanted, s)
    ensures InOrder(wanted, s + [x])
    decreases |s|, 1
  {
    assert (s + [x])[..|s|] == s;
    if wanted != [] && wanted[|wanted| - 1] == x {
      InOrderPrefix(wanted, s);
    }
  }

  lemma InOrderTake(wanted: seq<FsmState>, s: seq<FsmState>, x: FsmState)
    requires InOrder(wanted, s)
    ensures InOrder(wanted + [x], s + [x])
  {
    assert (s + [x])[..|s|] == s;
    assert (wanted + [x])[..|wanted|] == wanted;
  }

  /** The last wanted state stands at some position, and the others come in order before it. */
  lemma {:induction false} InOrderPosition(wanted: seq<FsmState>, s: seq<FsmState>) returns (k: nat)
    requires InOrder(wanted, s) && wanted != []
    ensures k < |s| && s[k] == wanted[|wanted| - 1] && InOrder(wanted[..|wanted| - 1], s[..k])
  {
    k := |s| - 1;
    if wanted[|wanted| - 1] != s[k] {
      var n := InOrderPosition(wanted, s[..k]);
      assert s[..k][..n] == s[..n];
      k := n;
    }
  }

  const UNLOCKING := [AdminAuth, Ready, Voting, Confirm]

  /** How much of the unlocking path must lie behind a machine found in s after a lock. */
  function Behind(s: FsmState): (n: nat)
    ensures n <= 4
  {
    match s
    case AdminAuth => 0
    case Ready => 1
    case Voting => 2
    case Confirm => 3
    case _ => 4
  }

  /** From the last locked state at i on, every later state has its part of the path behind it. */
  lemma {:induction false} PathBehind(t: seq<FsmState>, i: nat, k: nat)
    requires Follows(t) && i < k < |t|
    requires Locked(t[i]) && forall m :: i < m <= k ==> !Locked(t[m])
    ensures !t[k].Boot? && !t[k].SelfTest?
    ensures InOrder(UNLOCKING[..Behind(t[k])], t[i + 1..k])
  {
    var path := UNLOCKING[..Behind(t[k])];
    assert Moves(t[k - 1], t[k]);
    if k == i + 1 {
      assert t[k].AdminAuth?;
    } else {
      var before := t[i + 1..k - 1];
      assert t[i + 1..k] == before + [t[k - 1]];
      PathBehind(t, i, k - 1);
      var old' := UNLOCKING[..Behind(t[k - 1])];
      InOrderMore(old', before, t[k - 1]);
      if Behind(t[k]) > Behind(t[k - 1]) {
        assert path == old' + [t[k - 1]];
        InOrderTake(old', before, t[k - 1]);
      } else {
        ShorterPath(Behind(t[k - 1]), Behind(t[k]), t[i + 1..k]);
      }
    }
  }

  lemma {:induction false} ShorterPath(n: nat, m: nat, s: seq<FsmState>)
    requires m <= n <= 4 && InOrder(UNLOCKING[..n], s)
    ensures InOrder(UNLOCKING[..m], s)
  {
    if m < n {
      InOrderPrefix(UNLOCKING[..n], s);
      assert UNLOCKING[..n][..n - 1] == UNLOCKING[..n - 1];
      ShorterPath(n - 1, m, s);
    }
  }

  /**
   * No vote is submitted after a pause, tamper or error without authentication, a return to
   * READY, a new VOTING and a new CONFIRM, in this order, all after the last lock; the
   * authentication comes straight after it.
   */
  lemma NoVoteAroundTheLock(start: FsmState, events: seq<Event>, i: nat, j: nat)
    requires i < j <= |events|
    requires Locked(Trace(start, events)[i]) && Trace(start, events)[j] == VoteSubmission
    requires forall m :: i < m <= j ==> !Locked(Trace(start, events)[m])
    ensures Trace(start, events)[i + 1] == AdminAuth
    ensures var t := Trace(start, events);
            exists r, v, c :: i + 1 < r < v < c < j && t[r] == Ready && t[v] == Voting && t[c] == Confirm
  {
    var t := Trace(start, events);
    TracesFollowMatrix(start, events);
    PathBehind(t, i, j);
    assert Moves(t[i], t[i + 1]);
    assert UNLOCKING[..4] == UNLOCKING;
    hide Trace, Follows, InOrder;
    var r, v, c := PathPositions(t[i + 1..j]);
    assert t[i + 1 + r] == Ready && t[i + 1 + v] == Voting && t[i + 1 + c] == Confirm;
  }

  /**
   * What the voting query means over runs. It never answers yes while the lock query does; a submission is only ever
   * entered from a state in which it answers yes; and after a lock it answers yes again only once authentication, which
   * comes straight after the lock, and a return to READY lie behind.
   */
  lemma MayVoteAroundTheLock(start: FsmState, events: seq<Event>, i: nat, j: nat)
    requires i < j <= |events|
    ensures var t := Trace(start, events);
            && !(MayVote(t[j]) && Locked(t[j]))
            && (t[j] == VoteSubmission && t[j - 1] != VoteSubmission ==> MayVote(t[j - 1]))
            && (MayVote(t[j]) && Locked(t[i]) && (forall m :: i < m <= j ==> !Locked(t[m])) ==>
                  t[i + 1] == AdminAuth && exists r :: i + 1 < r < j && t[r] == Ready)
  {
    var t := Trace(start, events);
    TracesFollowMatrix(start, events);
    assert Moves(t[j - 1], t[j]) && Moves(t[i], t[i + 1]);
    if MayVote(t[j]) && Locked(t[i]) && forall m :: i < m <= j ==> !Locked(t[m]) {
      PathBehind(t, i, j);
      ShorterPath(Behind(t[j]), 2, t[i + 1..j]);
      hide Trace, Follows, InOrder;
      assert UNLOCKING[..2] == [AdminAuth, Ready] && [AdminAuth, Ready][..1] == [AdminAuth];
      var r := InOrderPosition([AdminAuth, Ready], t[i + 1..j]);
      var a := InOrderPosition([AdminAuth], t[i + 1..j][..r]);
      assert t[i + 1 + r] == Ready;
    }
  }

  /** Where the last three states of the path stand; the first stands before them. */
  lemma PathPositions(s: seq<FsmState>) returns (r: nat, v: nat, c: nat)
    requires InOrder(UNLOCKING, s)
    ensures 0 < r < v < c < |s| && s[r] == Ready && s[v] == Voting && s[c] == Confirm
  {
    hide InOrder;
    c := InOrderPosition(UNLOCKING, s);
    assert UNLOCKING[..3] == [AdminAuth, Ready, Voting];
    v := InOrderPosition([AdminAuth, Ready, Voting], s[..c]);
    assert [AdminAuth, Ready, Voting][..2] == [AdminAuth, Ready];
    assert s[..c][..v] == s[..v];
    r := InOrderPosition([AdminAuth, Ready], s[..v]);
    assert [AdminAuth, Ready][..1] == [AdminAuth];
    assert s[..v][..r] == s[..r];
    var a := InOrderPosition([AdminAuth], s[..r]);
  }

  // ---------- Accounting of submissions ----------

  function Is(s: FsmState, x: FsmState): nat {
    if s == x then 1 else 0
  }

  /** How often the run moves into x. */
  function Entries(t: seq<FsmState>, x: FsmState): nat
    requires t != []
  {
    if |t| == 1 then 0
    else
      var n := |t| - 1;
      Entries(t[..n], x) + if t[n] == x && t[n - 1] != x then 1 else 0
  }

  /** How often a tamper or an error takes the run out of x. */
  function Cuts(t: seq<FsmState>, x: FsmState): nat
    requires t != []
  {
    if |t| == 1 then 0
    else
      var n := |t| - 1;
      Cuts(t[..n], x) + if t[n - 1] == x && (t[n].TamperDetected? || t[n].Error?) then 1 else 0
  }

  /** A stage that only its successor or an emergency follows, and only it precedes. */
  predicate Stage(x: FsmState, next: FsmState) {
    || (x.VoteSubmission? && next.AuditCommit?)
    || (x.AuditCommit? && next.VoteComplete?)
  }

  lemma {:induction false} StageBalance(t: seq<FsmState>, x: FsmState, next: FsmState)
    requires t != [] && Follows(t) && Stage(x, next)
    ensures Is(t[0], x) + Entries(t, x) == Entries(t, next) + Cuts(t, x) + Is(t[|t| - 1], x)
  {
    var n := |t| - 1;
    if n > 0 {
      assert Moves(t[n - 1], t[n]);
      StageBalance(t[..n], x, next);
    }
  }

  /**
   * Every submission ends in exactly one audit commit, or is cut by a tamper or an error, or
   * is still in flight; and likewise every commit up to its completion.
   */
  lemma SubmissionsAccounted(events: seq<Event>)
    ensures var t := Trace(Boot, events);
            && Entries(t, VoteSubmission)
               == Entries(t, AuditCommit) + Cuts(t, VoteSubmission) + Is(t[|events|], VoteSubmission)
            && Entries(t, AuditCommit)
               == Entries(t, VoteComplete) + Cuts(t, AuditCommit) + Is(t[|events|], AuditCommit)
  {
    var t := Trace(Boot, events);
    TracesFollowMatrix(Boot, events);
    StageBalance(t, VoteSubmission, AuditCommit);
    StageBalance(t, AuditCommit, VoteComplete);
  }
}
