/** The tamper switch debouncer: `tamper_poll` works on a 32-bit millisecond clock that wraps
    after 49.7 days; its meaning is given on real, unbounded time. */
module TamperSwitch {
  import opened Clocks

  const WRAP: nat := 0x1_0000_0000
  const DEBOUNCE_DELAY: nat := 50

  /** The 32-bit clock reading at real time t. */
  function Clock(t: nat): (c: Millis) {
    (t % WRAP) as Millis
  }

  /** Unsigned 32-bit subtraction. */
  function Elapsed(now: Millis, since: Millis): (e: nat)
    ensures e < WRAP
    ensures e == now as int - since as int || e == now as int - since as int + WRAP
  {
    (now as int - since as int) % WRAP
  }

  datatype Debouncer = Debouncer(lastRaw: bool, debounced: bool, lastDebounceTime: Millis)

  function Started(reading: bool): Debouncer {
    Debouncer(reading, reading, 0)
  }

  function PollStep(d: Debouncer, raw: bool, now: Millis): Debouncer {
    var seen := if raw != d.lastRaw then d.(lastRaw := raw, lastDebounceTime := now) else d;
    if Elapsed(now, seen.lastDebounceTime) > DEBOUNCE_DELAY then seen.(debounced := raw) else seen
  }

  class Switch {
    var lastRaw: bool
    var debounced: bool
    var lastDebounceTime: Millis

    function State(): Debouncer
      reads this
    {
      Debouncer(lastRaw, debounced, lastDebounceTime)
    }

    /** Power-up without initialisation: the static values. */
    constructor ()
      ensures State() == Debouncer(false, false, 0)
    {
      lastRaw, debounced, lastDebounceTime := false, false, 0;
    }

    method Init(reading: bool)
      modifies this
      ensures State() == Started(reading)
    {
      debounced := reading;
      lastRaw := debounced;
      lastDebounceTime := 0;
    }

    method Poll(raw: bool, now: Millis) returns (open: bool)
      modifies this
      ensures State() == PollStep(old(State()), raw, now)
      ensures open == debounced
    {
      if raw != lastRaw {
        lastDebounceTime := now;
        lastRaw := raw;
      }
      if Elapsed(now, lastDebounceTime) > DEBOUNCE_DELAY {
        if raw != debounced {
          debounced := raw;
          if debounced {
            return true;
          }
        }
      }
      return debounced;
    }
  }

  // ---------- Meaning on real time ----------

  datatype Reading = Reading(time: nat, open: bool)

  /** The debouncer after the first n polls, each seen through the 32-bit clock. */
  function After(initial: bool, polls: seq<Reading>, n: nat): Debouncer
    requires n <= |polls|
  {
    if n == 0 then Started(initial)
    else PollStep(After(initial, polls, n - 1), polls[n - 1].open, Clock(polls[n - 1].time))
  }

  predicate Ordered(polls: seq<Reading>) {
    forall i, j :: 0 <= i <= j < |polls| ==> polls[i].time <= polls[j].time
  }

  predicate GapsWithin(polls: seq<Reading>, gap: nat) {
    forall i :: 0 < i < |polls| ==> polls[i].time - polls[i - 1].time <= gap
  }

  predicate SameReadings(polls: seq<Reading>, i: nat, j: nat)
    requires i <= j < |polls|
  {
    forall k :: i <= k <= j ==> polls[k].open == polls[j].open
  }

  /** Poll j ends a run of equal readings observed for more than the delay. */
  ghost predicate Lasted(polls: seq<Reading>, j: nat)
    requires j < |polls|
  {
    exists i: nat :: i <= j && SameReadings(polls, i, j) && polls[j].time - polls[i].time > DEBOUNCE_DELAY
  }

  /**
   * What the switch should show after n polls: the value of the latest lasting run, or else
   * the initial reading.
   */
  ghost predicate Shows(initial: bool, polls: seq<Reading>, n: nat, value: bool)
    requires n <= |polls|
  {
    if exists j: nat :: j < n && Lasted(polls, j) then
      exists j: nat :: j < n && Lasted(polls, j) && value == polls[j].open
                       && forall k: nat :: j < k < n ==> !Lasted(polls, k)
    else
      value == initial
  }

  ghost predicate Debounces(initial: bool, polls: seq<Reading>) {
    forall n: nat :: n <= |polls| ==> Shows(initial, polls, n, After(initial, polls, n).debounced)
  }

  // ---------- The current run ----------

  function RunStart(polls: seq<Reading>, j: nat): (s: nat)
    requires j < |polls|
    ensures s <= j && SameReadings(polls, s, j)
    ensures s == 0 || polls[s - 1].open != polls[j].open
  {
    if j == 0 || polls[j - 1].open != polls[j].open then j else RunStart(polls, j - 1)
  }

  lemma LastedFromRunStart(polls: seq<Reading>, j: nat)
    requires j < |polls| && Ordered(polls)
    ensures Lasted(polls, j) <==> polls[j].time - polls[RunStart(polls, j)].time > DEBOUNCE_DELAY
  {
    var s := RunStart(polls, j);
    if Lasted(polls, j) {
      var i: nat :| i <= j && SameReadings(polls, i, j) && polls[j].time - polls[i].time > DEBOUNCE_DELAY;
      assert s == 0 || i > s - 1;
      assert polls[s].time <= polls[i].time;
    }
  }

  /** What the static variables mean after n > 0 polls. */
  ghost predicate Tracks(initial: bool, polls: seq<Reading>, n: nat)
    requires 0 < n <= |polls|
  {
    var d := After(initial, polls, n);
    var s := RunStart(polls, n - 1);
    && d.lastRaw == polls[n - 1].open
    && (if s == 0 && polls[0].open == initial
        then d.debounced == initial && d.lastDebounceTime == 0
        else d.lastDebounceTime == Clock(polls[s].time))
    && (polls[n - 1].time - polls[s].time > DEBOUNCE_DELAY ==> d.debounced == polls[n - 1].open)
  }

  lemma ElapsedIsReal(now: nat, since: nat)
    requires since <= now < since + WRAP
    ensures Elapsed(Clock(now), Clock(since)) == now - since
  {
    var e := Elapsed(Clock(now), Clock(since));
    assert now == WRAP * (now / WRAP) + now % WRAP;
    assert since == WRAP * (since / WRAP) + since % WRAP;
    assert now / WRAP - since / WRAP == 0 || now / WRAP - since / WRAP == 1;
  }

  lemma {:induction false} TracksStep(initial: bool, polls: seq<Reading>, n: nat)
    requires 0 < n < |polls| && Ordered(polls) && GapsWithin(polls, WRAP - 51)
    requires Tracks(initial, polls, n)
    ensures Tracks(initial, polls, n + 1)
  {
    var d := After(initial, polls, n);
    var s := RunStart(polls, n - 1);
    var e := After(initial, polls, n + 1);
    assert e == PollStep(d, polls[n].open, Clock(polls[n].time));
    if polls[n].open != polls[n - 1].open {
      assert RunStart(polls, n) == n;
      ElapsedIsReal(polls[n].time, polls[n].time);
    } else {
      assert RunStart(polls, n) == s;
      if polls[n].time - polls[s].time > DEBOUNCE_DELAY && polls[n - 1].time - polls[s].time <= DEBOUNCE_DELAY {
        assert polls[n].time - polls[n - 1].time <= WRAP - 51;
        ElapsedIsReal(polls[n].time, polls[s].time);
      }
    }
  }

  lemma {:induction false} TracksAlways(initial: bool, polls: seq<Reading>, n: nat)
    requires 0 < n <= |polls| && Ordered(polls) && GapsWithin(polls, WRAP - 51)
    ensures Tracks(initial, polls, n)
  {
    if n == 1 {
      assert After(initial, polls, 1) == PollStep(After(initial, polls, 0), polls[0].open, Clock(polls[0].time));
      ElapsedIsReal(polls[0].time, polls[0].time);
    } else {
      TracksAlways(initial, polls, n - 1);
      TracksStep(initial, polls, n - 1);
    }
  }

  /** A poll shows its own reading if it ends a lasting run, and otherwise changes nothing. */
  lemma PollShows(initial: bool, polls: seq<Reading>, n: nat)
    requires n < |polls| && Ordered(polls) && GapsWithin(polls, WRAP - 51)
    ensures After(initial, polls, n + 1).debounced
         == if Lasted(polls, n) then polls[n].open else After(initial, polls, n).debounced
  {
    var s := RunStart(polls, n);
    LastedFromRunStart(polls, n);
    TracksAlways(initial, polls, n + 1);
    if n > 0 {
      TracksAlways(initial, polls, n);
    }
    if s == 0 && polls[0].open == initial {
      if n > 0 { assert RunStart(polls, n - 1) == 0; }
    } else if !Lasted(polls, n) {
      assert polls[s].time <= polls[n].time;
      ElapsedIsReal(polls[n].time, polls[s].time);
    }
  }

  /** One more poll: a lasting run is shown, and a quiet poll changes nothing. */
  lemma ShowsAdvances(initial: bool, polls: seq<Reading>, n: nat, before: bool, after: bool)
    requires n < |polls|
    requires Shows(initial, polls, n, before)
    requires after == if Lasted(polls, n) then polls[n].open else before
    ensures Shows(initial, polls, n + 1, after)
  {
    hide Lasted;
    if Lasted(polls, n) {
    } else if j: nat :| j < n && Lasted(polls, j) && before == polls[j].open
                        && forall k: nat :: j < k < n ==> !Lasted(polls, k) {
      assert forall k: nat :: j < k < n + 1 ==> !Lasted(polls, k);
    } else {
      assert !exists j: nat :: j < n + 1 && Lasted(polls, j);
    }
  }

  lemma ShowsAtStart(initial: bool, polls: seq<Reading>)
    ensures Shows(initial, polls, 0, After(initial, polls, 0).debounced)
  {
  }

  /**
   * The 32-bit debouncer refines its real-time meaning as long as no two polls lie further
   * apart than 2^32 - 51 ms, in particular for every gap under 2^31 ms.
   */
  lemma {:induction false} DebounceRefines(initial: bool, polls: seq<Reading>, n: nat)
    requires n <= |polls| && Ordered(polls) && GapsWithin(polls, WRAP - 51)
    ensures Shows(initial, polls, n, After(initial, polls, n).debounced)
  {
    hide Lasted, Shows, Ordered, GapsWithin, PollStep, After;
    if n == 0 {
      ShowsAtStart(initial, polls);
    } else {
      DebounceRefines(initial, polls, n - 1);
      PollShows(initial, polls, n - 1);
      ShowsAdvances(initial, polls, n - 1, After(initial, polls, n - 1).debounced,
                    After(initial, polls, n).debounced);
    }
  }

  /** A gap one millisecond longer can hide a lasting run behind the wrap. */
  lemma LongGapMisses(gap: nat)
    requires gap > WRAP - 51
    ensures var polls := [Reading(0, true), Reading(50, true), Reading(WRAP, true)];
            Ordered(polls) && GapsWithin(polls, gap) && !Debounces(false, polls)
  {
    var polls := [Reading(0, true), Reading(50, true), Reading(WRAP, true)];
    assert After(false, polls, 1) == Debouncer(true, false, 0);
    assert After(false, polls, 2) == Debouncer(true, false, 0);
    assert After(false, polls, 3) == Debouncer(true, false, 0);
    assert SameReadings(polls, 0, 2);
    assert Lasted(polls, 2);
    assert !Shows(false, polls, 3, false);
  }

  /** The exact gap up to which the debouncer keeps its promise. */
  lemma DebounceExactBound(gap: nat)
    ensures (forall initial, polls :: Ordered(polls) && GapsWithin(polls, gap) ==> Debounces(initial, polls))
            <==> gap <= WRAP - 51
  {
    if gap <= WRAP - 51 {
      forall initial, polls | Ordered(polls) && GapsWithin(polls, gap)
        ensures Debounces(initial, polls)
      {
        forall n: nat | n <= |polls|
          ensures Shows(initial, polls, n, After(initial, polls, n).debounced)
        {
          DebounceRefines(initial, polls, n);
        }
      }
    } else {
      LongGapMisses(gap);
    }
  }
}
