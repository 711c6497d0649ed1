/** What requests alone can do to the terminal: which states they lead to, and how soon. */
module Reachability {
  import opened Clocks
  import opened StateMachine

  /** A request for anything but the two emergency states, which every state accepts. */
  predicate Ordinary(e: Event) {
    e.Request? && !e.to.TamperDetected? && !e.to.Error?
  }

  predicate AllOrdinary(events: seq<Event>) {
    forall i :: 0 <= i < |events| ==> Ordinary(events[i])
  }

  /** The state a run ends in. */
  function Final(start: FsmState, events: seq<Event>): FsmState {
    Trace(start, events)[|events|]
  }

  /** The fewest ordinary requests that lead from s to each state they can lead to. */
  function Fewest(s: FsmState): map<FsmState, nat> {
    match s
    case Boot =>
      map[Boot := 0, SelfTest := 1, Ready := 2, Paused := 2, AdminAuth := 3, Voting := 3, Confirm := 4,
          VoteSubmission := 5, AuditCommit := 6, VoteComplete := 7]
    case SelfTest =>
      map[SelfTest := 0, Ready := 1, Paused := 1, AdminAuth := 2, Voting := 2, Confirm := 3, VoteSubmission := 4,
          AuditCommit := 5, VoteComplete := 6]
    case Ready =>
      map[Ready := 0, AdminAuth := 1, Voting := 1, Paused := 1, Confirm := 2, VoteSubmission := 3, AuditCommit := 4,
          VoteComplete := 5]
    case AdminAuth =>
      map[AdminAuth := 0, Ready := 1, Paused := 1, Voting := 2, Confirm := 3, VoteSubmission := 4, AuditCommit := 5,
          VoteComplete := 6]
    case Voting =>
      map[Voting := 0, Confirm := 1, Ready := 1, AdminAuth := 1, VoteSubmission := 2, Paused := 2, AuditCommit := 3,
          VoteComplete := 4]
    case Confirm =>
      map[Confirm := 0, VoteSubmission := 1, Voting := 1, Ready := 1, AdminAuth := 1, AuditCommit := 2, Paused := 2,
          VoteComplete := 3]
    case VoteSubmission =>
      map[VoteSubmission := 0, AuditCommit := 1, VoteComplete := 2, Ready := 3, AdminAuth := 4, Voting := 4,
          Paused := 4, Confirm := 5]
    case AuditCommit =>
      map[AuditCommit := 0, VoteComplete := 1, Ready := 2, AdminAuth := 3, Voting := 3, Paused := 3, Confirm := 4,
          VoteSubmission := 5]
    case VoteComplete =>
      map[VoteComplete := 0, Ready := 1, AdminAuth := 2, Voting := 2, Paused := 2, Confirm := 3, VoteSubmission := 4,
          AuditCommit := 5]
    case Paused =>
      map[Paused := 0, AdminAuth := 1, Ready := 2, Voting := 3, Confirm := 4, VoteSubmission := 5, AuditCommit := 6,
          VoteComplete := 7]
    case TamperDetected =>
      map[TamperDetected := 0, AdminAuth := 1, Ready := 2, Paused := 2, Voting := 3, Confirm := 4,
          VoteSubmission := 5, AuditCommit := 6, VoteComplete := 7]
    case Error =>
      map[Error := 0, AdminAuth := 1, Ready := 2, Paused := 2, Voting := 3, Confirm := 4, VoteSubmission := 5,
          AuditCommit := 6, VoteComplete := 7]
  }

  predicate Within(s: FsmState, t: FsmState, n: nat) {
    t in Fewest(s) && Fewest(s)[t] <= n
  }

  lemma NoShortcutIdle(s: FsmState, u: FsmState, e: Event, n: nat)
    requires Ordinary(e) && Within(s, u, n) && s in {Boot, SelfTest, Ready, AdminAuth, Paused, TamperDetected, Error}
    ensures Within(s, Target(u, e), n + 1)
  {
    match s {
      case Boot =>
      case SelfTest =>
      case Ready =>
      case AdminAuth =>
      case Paused =>
      case TamperDetected =>
      case Error =>
      case _ =>
    }
  }

  lemma NoShortcutVoting(s: FsmState, u: FsmState, e: Event, n: nat)
    requires Ordinary(e) && Within(s, u, n) && s in {Voting, Confirm, VoteSubmission, AuditCommit, VoteComplete}
    ensures Within(s, Target(u, e), n + 1)
  {
    match s {
      case Voting =>
      case Confirm =>
      case VoteSubmission =>
      case AuditCommit =>
      case VoteComplete =>
      case _ =>
    }
  }

  /** No ordinary request gains more than one step on the table. */
  lemma NoShortcut(s: FsmState, u: FsmState, e: Event, n: nat)
    requires Ordinary(e) && Within(s, u, n)
    ensures Within(s, Target(u, e), n + 1)
  {
    hide Within, Target, Ordinary;
    if s in {Voting, Confirm, VoteSubmission, AuditCommit, VoteComplete} {
      NoShortcutVoting(s, u, e, n);
    } else {
      NoShortcutIdle(s, u, e, n);
    }
  }

  /** The state before t on a shortest way from s. */
  lemma LastStop(s: FsmState, t: FsmState) returns (u: FsmState)
    requires t in Fewest(s) && t != s
    ensures u in Fewest(s) && Fewest(s)[u] + 1 == Fewest(s)[t]
    ensures Ordinary(Request(t)) && Target(u, Request(t)) == t
  {
    match t {
      case SelfTest => u := Boot;
      case Ready =>
        u := match s case Boot => SelfTest case SelfTest => SelfTest case Voting => Voting case Confirm => Confirm
             case VoteSubmission => VoteComplete case AuditCommit => VoteComplete case VoteComplete => VoteComplete
             case _ => AdminAuth;
      case AdminAuth =>
        u := match s case Voting => Voting case Confirm => Confirm case Paused => Paused
             case TamperDetected => TamperDetected case Error => Error case _ => Ready;
      case Voting => u := if s == Confirm then Confirm else Ready;
      case Confirm => u := Voting;
      case VoteSubmission => u := Confirm;
      case AuditCommit => u := VoteSubmission;
      case VoteComplete => u := AuditCommit;
      case Paused =>
        u := if s in {Boot, SelfTest} then SelfTest
             else if s in {TamperDetected, Error, AdminAuth, Voting, Confirm} then AdminAuth else Ready;
      case _ =>
    }
  }

  lemma FinalAppend(s: FsmState, events: seq<Event>, e: Event)
    ensures Final(s, events + [e]) == Target(Final(s, events), e)
  {
    assert (events + [e])[..|events|] == events;
  }

  lemma {:induction false} Attained(s: FsmState, t: FsmState) returns (events: seq<Event>)
    requires t in Fewest(s)
    ensures AllOrdinary(events) && |events| == Fewest(s)[t] && Final(s, events) == t
    decreases Fewest(s)[t]
  {
    if t == s {
      events := [];
    } else {
      var u := LastStop(s, t);
      var before := Attained(s, u);
      hide Fewest, Final;
      FinalAppend(s, before, Request(t));
      events := before + [Request(t)];
    }
  }

  lemma {:induction false} NoneSooner(s: FsmState, events: seq<Event>)
    requires AllOrdinary(events)
    ensures Within(s, Final(s, events), |events|)
  {
    hide Final, Within;
    if events == [] {
      Start(s);
    } else {
      var front, last := events[..|events| - 1], events[|events| - 1];
      assert events == front + [last];
      NoneSooner(s, front);
      FinalAppend(s, front, last);
      NoShortcut(s, Final(s, front), last, |front|);
    }
  }

  lemma Start(s: FsmState)
    ensures Final(s, []) == s && Within(s, s, 0)
  {
  }

  /**
   * The table is exact: at most n ordinary requests can lead from s to t if and only if the table has an entry of at
   * most n. An entry of 1 is an edge of the matrix, so each edge, also one with an alternative, is needed.
   */
  lemma ReachedWithinExactly(s: FsmState, t: FsmState, n: nat)
    ensures (exists events :: AllOrdinary(events) && |events| <= n && Final(s, events) == t)
            <==> t in Fewest(s) && Fewest(s)[t] <= n
  {
    hide Fewest, Final, AllOrdinary;
    if t in Fewest(s) && Fewest(s)[t] <= n {
      var events := Attained(s, t);
    }
    if events :| AllOrdinary(events) && |events| <= n && Final(s, events) == t {
      NoneSooner(s, events);
    }
  }

  /** From every state requests alone lead back to READY, at most three of them. */
  lemma ReadyAgain(s: FsmState)
    ensures exists events :: AllOrdinary(events) && |events| <= 3 && Final(s, events) == Ready
  {
    ReachedWithinExactly(s, Ready, 3);
  }

  // ---------- the vote cycle ----------

  lemma TraceNext(s: FsmState, events: seq<Event>, states: seq<FsmState>, e: Event, longer: seq<Event>)
    requires Trace(s, events) == states && longer == events + [e]
    ensures states != [] && Trace(s, longer) == states + [Target(states[|states| - 1], e)]
  {
    assert longer[..|events|] == events;
  }

  lemma CycleMoves()
    ensures Trace(Ready, []) == [Ready]
    ensures Target(Ready, Request(Voting)) == Voting && Target(Voting, Request(Confirm)) == Confirm
    ensures Target(Confirm, Request(VoteSubmission)) == VoteSubmission
    ensures Target(VoteSubmission, Request(AuditCommit)) == AuditCommit
    ensures Target(AuditCommit, Request(VoteComplete)) == VoteComplete
    ensures Target(VoteComplete, Request(Ready)) == Ready
  {
  }

  /** One vote from READY to READY: each of the six requests is granted. */
  lemma VoteCycle()
    ensures Trace(Ready, [Request(Voting), Request(Confirm), Request(VoteSubmission), Request(AuditCommit),
                          Request(VoteComplete), Request(Ready)])
         == [Ready, Voting, Confirm, VoteSubmission, AuditCommit, VoteComplete, Ready]
  {
    hide *;
    CycleMoves();
    var events := [Request(Voting), Request(Confirm), Request(VoteSubmission), Request(AuditCommit),
                   Request(VoteComplete), Request(Ready)];
    var states := [Ready, Voting, Confirm, VoteSubmission, AuditCommit, VoteComplete, Ready];
    var n := 0;
    while n < 6
      invariant n <= 6 && Trace(Ready, events[..n]) == states[..n + 1]
    {
      TraceNext(Ready, events[..n], states[..n + 1], events[n], events[..n + 1]);
      assert states[..n + 2] == states[..n + 1] + [states[n + 1]];
      n := n + 1;
    }
    assert events[..6] == events && states[..7] == states;
  }

  // ---------- the two queries ----------

  /** The voting query answers yes exactly where a submission lies ahead and at most two requests away. */
  lemma MayVoteExactly(s: FsmState)
    ensures MayVote(s) <==>
            s != VoteSubmission
            && exists events :: AllOrdinary(events) && |events| <= 2 && Final(s, events) == VoteSubmission
  {
    ReachedWithinExactly(s, VoteSubmission, 2);
  }

  /** One ordinary request takes the terminal from s to another state t. */
  predicate Leads(s: FsmState, t: FsmState) {
    Ordinary(Request(t)) && t != s && Final(s, [Request(t)]) == t
  }

  /** Authentication is the one state that an ordinary request leads to. */
  ghost predicate OnlyAuthenticationAhead(s: FsmState) {
    forall t :: Leads(s, t) <==> t.AdminAuth?
  }

  lemma EdgeByTable(s: FsmState, t: FsmState)
    ensures Ordinary(Request(t)) && t != s && Target(s, Request(t)) == t <==> t in Fewest(s) && Fewest(s)[t] == 1
  {
    match s {
      case Boot =>
      case SelfTest =>
      case Ready =>
      case AdminAuth =>
      case Voting =>
      case Confirm =>
      case VoteSubmission =>
      case AuditCommit =>
      case VoteComplete =>
      case Paused =>
      case TamperDetected =>
      case Error =>
    }
  }

  lemma LeadsByTable(s: FsmState, t: FsmState)
    ensures Leads(s, t) <==> t in Fewest(s) && Fewest(s)[t] == 1
  {
    EdgeByTable(s, t);
    FinalAppend(s, [], Request(t));
    hide Fewest;
    assert [] + [Request(t)] == [Request(t)];
  }

  lemma OneWayOn(s: FsmState, t: FsmState)
    requires Locked(s)
    ensures Leads(s, t) <==> t.AdminAuth?
  {
    LeadsByTable(s, t);
    hide Leads;
  }

  lemma OtherWayOn(s: FsmState) returns (t: FsmState)
    requires !Locked(s)
    ensures Leads(s, t) && !t.AdminAuth?
  {
    t := match s case Boot => SelfTest case Ready => Voting case VoteSubmission => AuditCommit
         case AuditCommit => VoteComplete case _ => Ready;
    LeadsByTable(s, t);
    hide Leads;
  }

  /** The lock query answers yes exactly where authentication is the only way on. */
  lemma LockedExactly(s: FsmState)
    ensures Locked(s) <==> OnlyAuthenticationAhead(s)
  {
    hide Leads;
    if Locked(s) {
      forall t
        ensures Leads(s, t) <==> t.AdminAuth?
      {
        OneWayOn(s, t);
      }
    } else {
      var t := OtherWayOn(s);
    }
  }

  // ---------- what a machine records ----------

  /** An event and the clock reading it comes with. */
  datatype Timed = Timed(event: Event, at: Millis)

  function EventsOf(run: seq<Timed>): seq<Event> {
    seq(|run|, i requires 0 <= i < |run| => run[i].event)
  }

  /** The machine after a run. */
  function Recorded(f: Fsm, run: seq<Timed>): Fsm {
    if run == [] then f
    else
      var n := |run| - 1;
      Handle(Recorded(f, run[..n]), run[n].event, run[n].at)
  }

  predicate AcceptedAt(states: seq<FsmState>, run: seq<Timed>, i: nat)
    requires i < |run| < |states|
  {
    Accepted(states[i], run[i].event)
  }

  /** g records the move of event i. */
  predicate LeftBy(g: Fsm, states: seq<FsmState>, run: seq<Timed>, i: nat)
    requires i < |run| < |states|
  {
    g == Fsm(states[i + 1], states[i], run[i].at)
  }

  /** g is f, and no event was accepted; or the latest accepted one took the machine to g from g's previous state. */
  ghost predicate LatestMove(f: Fsm, g: Fsm, states: seq<FsmState>, run: seq<Timed>)
    requires |states| == |run| + 1
  {
    || (g == f && forall i :: 0 <= i < |run| ==> !AcceptedAt(states, run, i))
    || (exists i :: 0 <= i < |run| && AcceptedAt(states, run, i) && LeftBy(g, states, run, i)
                    && forall j :: i < j < |run| ==> !AcceptedAt(states, run, j))
  }

  lemma LatestStays(f: Fsm, g: Fsm, states: seq<FsmState>, run: seq<Timed>, x: FsmState, last: Timed)
    requires |states| == |run| + 1 && LatestMove(f, g, states, run) && !Accepted(states[|run|], last.event)
    ensures LatestMove(f, g, states + [x], run + [last])
  {
    var longer, more := states + [x], run + [last];
    assert forall i :: 0 <= i < |run| ==> AcceptedAt(longer, more, i) == AcceptedAt(states, run, i);
    if i :| 0 <= i < |run| && AcceptedAt(states, run, i) && LeftBy(g, states, run, i)
            && forall j :: i < j < |run| ==> !AcceptedAt(states, run, j) {
      assert AcceptedAt(longer, more, i) && LeftBy(g, longer, more, i);
      assert forall j :: i < j < |more| ==> !AcceptedAt(longer, more, j);
    }
  }

  /** The machine stands where the trace ends, and records where its latest accepted event took it from, and when. */
  lemma {:induction false} RecordsLatestMove(f: Fsm, run: seq<Timed>)
    ensures Recorded(f, run).current == Final(f.current, EventsOf(run))
    ensures LatestMove(f, Recorded(f, run), Trace(f.current, EventsOf(run)), run)
  {
    if run != [] {
      var n := |run| - 1;
      var front, last := run[..n], run[n];
      var before, states := Trace(f.current, EventsOf(front)), Trace(f.current, EventsOf(run));
      RecordsLatestMove(f, front);
      assert run == front + [last];
      assert EventsOf(run)[..n] == EventsOf(front);
      assert states == before + [Target(before[n], last.event)];
      if Accepted(before[n], last.event) {
        assert AcceptedAt(states, run, n) && LeftBy(Recorded(f, run), states, run, n);
      } else {
        LatestStays(f, Recorded(f, front), before, front, states[n + 1], last);
      }
    }
  }
}
