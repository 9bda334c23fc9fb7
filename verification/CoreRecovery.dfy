// The restart policy of the managed core (`CoreRecoveryState` in src-tauri/src/service.rs).
module CoreRecovery {
  import opened Basics
  import opened Sets

  const MAX: int := 0xFFFF_FFFF_FFFF_FFFF
  type u64 = n: int | 0 <= n <= MAX

  const FORMAT := 1
  const WINDOW: u64 := 600
  const HEALTHY_RESET: u64 := 60
  const DELAYS: seq<u64> := [15, 30, 60]
  const MAX_FAILURES := 4
  const ERROR_MAX := 512

  datatype State = State(
    count: nat, last: Option<u64>, nextRetry: Option<u64>, healthySince: Option<u64>, suspended: bool,
    error: Option<string>)

  const FRESH := State(0, None, None, None, false, None)

  // ---------- specification ----------

  function Since(now: u64, past: u64): u64 {
    if now >= past then now - past else 0
  }

  function Later(now: u64, delay: u64): u64 {
    if now + delay <= MAX then now + delay else MAX
  }

  function Bounded(error: string): string {
    if |error| <= ERROR_MAX then error else error[..ERROR_MAX]
  }

  predicate Expired(s: State, now: u64) {
    s.last.Some? && Since(now, s.last.value) >= WINDOW
  }

  function Unexpired(s: State, now: u64): State {
    if Expired(s, now) then FRESH else s
  }

  predicate CanAttempt(s: State, now: u64) {
    !s.suspended && !(s.nextRetry.Some? && s.nextRetry.value > now)
  }

  /** The wait the policy demands after the n-th failure in a row. */
  function Wait(n: nat): u64 {
    if 1 <= n <= 3 then DELAYS[n - 1] else WINDOW
  }

  function AfterFailure(s: State, now: u64, error: string): State {
    var count := if Unexpired(s, now).count + 1 <= MAX_FAILURES then Unexpired(s, now).count + 1 else MAX_FAILURES;
    var suspended := count == MAX_FAILURES;
    State(count, Some(now), if suspended then None else Some(Later(now, Wait(count))), None, suspended,
          Some(Bounded(error)))
  }

  predicate HealthyLongEnough(s: State, now: u64) {
    s.healthySince.Some? && Since(now, s.healthySince.value) >= HEALTHY_RESET
  }

  function AfterReady(s: State, now: u64): State {
    if Expired(s, now) || s.count == 0 then Unexpired(s, now)
    else if s.healthySince.None? then s.(nextRetry := None, healthySince := Some(now))
    else if HealthyLongEnough(s, now) then FRESH
    else s.(nextRetry := None)
  }

  /** What the operations make of the fresh state. */
  predicate Sane(s: State) {
    && s.count <= MAX_FAILURES
    && (s.count == 0 ==> s == FRESH)
    && (s.count > 0 ==> s.last.Some?)
    && (s.suspended <==> s.count == MAX_FAILURES)
    && (s.suspended ==> s.nextRetry.None?)
    && (s.nextRetry.Some? ==> s.healthySince.None? && s.nextRetry.value == Later(s.last.value, Wait(s.count)))
    && (s.healthySince.None? && 1 <= s.count < MAX_FAILURES ==> s.nextRetry.Some?)
    && (s.error.Some? ==> |s.error.value| <= ERROR_MAX)
  }

  // ---------- the mutable state ----------

  class CoreRecoveryState {
    var count: nat
    var last: Option<u64>
    var nextRetry: Option<u64>
    var healthySince: Option<u64>
    var suspended: bool
    var error: Option<string>

    function Snapshot(): State
      reads this
    {
      State(count, last, nextRetry, healthySince, suspended, error)
    }

    constructor ()
      ensures Snapshot() == FRESH
    {
      count, last, nextRetry, healthySince, suspended, error := 0, None, None, None, false, None;
    }

    method Reset()
      modifies this
      ensures Snapshot() == FRESH
    {
      count, last, nextRetry, healthySince, suspended, error := 0, None, None, None, false, None;
    }

    method ResetIfExpired(now: u64) returns (expired: bool)
      modifies this
      ensures expired == Expired(old(Snapshot()), now) && Snapshot() == Unexpired(old(Snapshot()), now)
    {
      expired := last.Some? && Since(now, last.value) >= WINDOW;
      if expired {
        Reset();
      }
    }

    /** `recovery_can_attempt`: an expired record is dropped before the question is answered. */
    method AllowAttempt(now: u64) returns (allowed: bool)
      requires Sane(Snapshot())
      modifies this
      ensures Snapshot() == Unexpired(old(Snapshot()), now) && Sane(Snapshot())
      ensures allowed == CanAttempt(Unexpired(old(Snapshot()), now), now)
    {
      var expired := ResetIfExpired(now);
      if expired {
        return true;
      }
      allowed := CanAttempt(Snapshot(), now);
    }

    method RecordFailure(now: u64, message: string)
      requires Sane(Snapshot())
      modifies this
      ensures Snapshot() == AfterFailure(old(Snapshot()), now, message) && Sane(Snapshot())
    {
      var _ := ResetIfExpired(now);
      count := if count + 1 <= MAX_FAILURES then count + 1 else MAX_FAILURES;
      last := Some(now);
      healthySince := None;
      error := Some(Bounded(message));
      if count >= MAX_FAILURES {
        suspended := true;
        nextRetry := None;
      } else {
        suspended := false;
        nextRetry := Some(Later(now, DELAYS[count - 1]));
      }
    }

    method MarkReady(now: u64) returns (changed: bool)
      requires Sane(Snapshot())
      modifies this
      ensures Snapshot() == AfterReady(old(Snapshot()), now) && Sane(Snapshot())
      ensures changed <==> Snapshot() != old(Snapshot())
    {
      var expired := ResetIfExpired(now);
      if expired {
        return true;
      }
      if count == 0 {
        return false;
      }
      nextRetry := None;
      if healthySince.None? {
        healthySince := Some(now);
        return true;
      }
      if Since(now, healthySince.value) >= HEALTHY_RESET {
        Reset();
        return true;
      }
      changed := false;
    }
  }

  // ---------- persistence ----------

  datatype Persisted = Persisted(format: nat, state: State)

  /** The state file after a save: no failures, no file. */
  function Saved(s: State): Option<Persisted> {
    if s.count == 0 then None else Some(Persisted(FORMAT, s))
  }

  /** The state read back at `now`, and whether the file is to be cleared. */
  function Loaded(file: Option<Persisted>, now: u64): (State, bool) {
    if file.None? then (FRESH, false)
    else
      var p := file.value.state;
      if file.value.format != FORMAT || (p.count == 0 && p.suspended) || p.count > MAX_FAILURES
         || (p.count > 0 && p.last.None?) || (p.last.Some? && p.last.value > now)
         || (p.healthySince.Some? && p.healthySince.value > now)
      then (FRESH, true)
      else
        var read := p.(error := if p.error.Some? then Some(Bounded(p.error.value)) else None);
        var state := if read.count == 0 || Expired(read, now) || HealthyLongEnough(read, now) then FRESH
                     else if read.count == MAX_FAILURES then read.(suspended := true, nextRetry := None)
                     else read;
        (state, state != read)
  }

  // ---------- histories ----------

  /** What moves the policy: a question whether to start, a failed start, a core seen ready, a service restart. */
  datatype Event = Attempt(at: u64) | Failure(at: u64, error: string) | Ready(at: u64) | Restart(at: u64)

  function Step(s: State, e: Event): State {
    match e
    case Attempt(at) => Unexpired(s, at)
    case Failure(at, error) => AfterFailure(s, at, error)
    case Ready(at) => AfterReady(s, at)
    case Restart(at) => Loaded(Saved(s), at).0
  }

  function After(events: seq<Event>): State {
    if events == [] then FRESH else Step(After(events[..|events| - 1]), events[|events| - 1])
  }

  predicate Allowed(s: State, now: u64) {
    CanAttempt(Unexpired(s, now), now)
  }

  predicate Suspended(s: State, now: u64) {
    Unexpired(s, now).suspended
  }

  /** Times do not decrease. */
  predicate Ordered(events: seq<Event>) {
    events == [] ||
    var before, e := events[..|events| - 1], events[|events| - 1];
    Ordered(before) && (before != [] ==> before[|before| - 1].at <= e.at)
  }

  /** When the core was first seen ready since the last failure. */
  function FirstReady(events: seq<Event>): Option<u64> {
    if events == [] then None
    else
      var before, e := events[..|events| - 1], events[|events| - 1];
      match e
      case Failure(_, _) => None
      case Ready(at) => if FirstReady(before).Some? then FirstReady(before) else Some(at)
      case Attempt(_) => FirstReady(before)
      case Restart(_) => FirstReady(before)
  }

  /** A healthy minute: the core is seen ready, or its record is read back, a minute after it was first seen ready
      since the last failure. */
  predicate HealthyMinute(before: seq<Event>, e: Event) {
    (e.Ready? || e.Restart?) && FirstReady(before).Some? && e.at - FirstReady(before).value >= 60
  }

  /** No healthy minute forgives the failures. */
  predicate Unforgiven(events: seq<Event>) {
    events == [] ||
    var before, e := events[..|events| - 1], events[|events| - 1];
    Unforgiven(before) && !HealthyMinute(before, e)
  }

  /** Since the last healthy minute no failure has been recorded while the policy was suspended. */
  predicate Unsuspended(events: seq<Event>) {
    events == [] ||
    var before, e := events[..|events| - 1], events[|events| - 1];
    HealthyMinute(before, e) || (Unsuspended(before) && (e.Failure? ==> !Suspended(After(before), e.at)))
  }

  function LastTime(events: seq<Event>): u64 {
    if events == [] then 0 else events[|events| - 1].at
  }

  function Failures(events: seq<Event>): seq<u64> {
    if events == [] then []
    else
      var before, e := events[..|events| - 1], events[|events| - 1];
      if e.Failure? then Failures(before) + [e.at] else Failures(before)
  }

  /** The failures since the last healthy minute. */
  function Standing(events: seq<Event>): seq<u64> {
    if events == [] then []
    else
      var before, e := events[..|events| - 1], events[|events| - 1];
      if e.Failure? then Standing(before) + [e.at] else if HealthyMinute(before, e) then [] else Standing(before)
  }

  /** Those of them recorded while the policy was not suspended: they can still raise its count. */
  function Counted(events: seq<Event>): seq<u64> {
    if events == [] then []
    else
      var before, e := events[..|events| - 1], events[|events| - 1];
      if e.Failure? && !Suspended(After(before), e.at) then Counted(before) + [e.at]
      else if HealthyMinute(before, e) then [] else Counted(before)
  }

  /** How many of the latest failures lie less than a window apart from one another's predecessor. */
  function Streak(times: seq<u64>): nat {
    if |times| == 0 then 0
    else if |times| == 1 then 1
    else
      var gap := (times[|times| - 1] as int) - (times[|times| - 2] as int);
      if gap >= 600 then 1 else 1 + Streak(times[..|times| - 1])
  }

  lemma {:induction false} ReachableIsSane(events: seq<Event>)
    ensures Sane(After(events))
  {
    if events != [] {
      ReachableIsSane(events[..|events| - 1]);
    }
  }

  /** A restart at which no healthy minute has passed reads back the state, unless it has expired. */
  lemma RestartReadsBack(s: State, now: u64)
    requires Sane(s) && !HealthyLongEnough(s, now)
    requires s.last.Some? ==> s.last.value <= now
    requires s.healthySince.Some? ==> s.healthySince.value <= now
    ensures Loaded(Saved(s), now).0 == Unexpired(s, now)
    ensures Saved(s).None? <==> s.count == 0
  {
  }

  /** How the state, the failures that stand, the last event's time and the ready sightings hang together. */
  predicate Tally(s: State, times: seq<u64>, last: u64, first: Option<u64>) {
    && Sane(s)
    && (times != [] ==> times[|times| - 1] <= last)
    && (s.count > 0 ==> times != [] && s.last == Some(times[|times| - 1]) && s.healthySince == first
                        && s.count == if Streak(times) <= MAX_FAILURES then Streak(times) else MAX_FAILURES)
    && (s.count == 0 && times != [] ==> last - times[|times| - 1] >= WINDOW)
    && (first.Some? ==> first.value <= last)
    && (1 <= s.count < MAX_FAILURES ==> (s.nextRetry.Some? <==> first.None?))
  }

  lemma TallyStep(s: State, times: seq<u64>, last: u64, first: Option<u64>, e: Event)
    requires Tally(s, times, last, first) && last <= e.at
    ensures var forgiven := (e.Ready? || e.Restart?) && first.Some? && e.at - first.value >= 60;
            Tally(Step(s, e), if e.Failure? then times + [e.at] else if forgiven then [] else times, e.at,
                  if e.Failure? then None else if e.Ready? && first.None? then Some(e.at) else first)
  {
  }

  /** In every ordered history the state's count is the current streak among the failures since the last healthy
      minute, up to four, whatever the failures followed. */
  lemma {:induction false} CountIsStreak(events: seq<Event>)
    requires Ordered(events)
    ensures Tally(After(events), Standing(events), LastTime(events), FirstReady(events))
  {
    if events != [] {
      hide Tally, Step, Allowed, HealthyLongEnough;
      var before, e := events[..|events| - 1], events[|events| - 1];
      CountIsStreak(before);
      TallyStep(After(before), Standing(before), LastTime(before), FirstReady(before), e);
    }
  }

  /** When a ready sighting leaves the fresh state: nothing stands, the last failure lies ten minutes back, or the
      core has been healthy for a minute. */
  lemma SightingForgivesExactly(events: seq<Event>, now: u64)
    requires Ordered(events) && LastTime(events) <= now
    ensures var times, first := Standing(events), FirstReady(events);
            Step(After(events), Ready(now)) == FRESH
            <==> times == [] || now - times[|times| - 1] >= 600 || (first.Some? && now - first.value >= 60)
  {
    CountIsStreak(events);
  }

  /** Without a healthy minute every failure stands. */
  lemma {:induction false} AllStand(events: seq<Event>)
    requires Unforgiven(events)
    ensures Standing(events) == Failures(events)
  {
    if events != [] {
      AllStand(events[..|events| - 1]);
    }
  }

  lemma {:induction false} StandingAscend(events: seq<Event>)
    requires Ordered(events)
    ensures Ascending(Standing(events))
    ensures forall i | 0 <= i < |Standing(events)| :: Standing(events)[i] <= LastTime(events)
  {
    if events != [] {
      StandingAscend(events[..|events| - 1]);
    }
  }

  lemma {:induction false} FailuresAscend(events: seq<Event>)
    requires Ordered(events)
    ensures Ascending(Failures(events))
    ensures forall i | 0 <= i < |Failures(events)| :: Failures(events)[i] <= LastTime(events)
  {
    if events != [] {
      FailuresAscend(events[..|events| - 1]);
    }
  }

  predicate Ascending(times: seq<u64>) {
    forall i, j | 0 <= i <= j < |times| :: times[i] <= times[j]
  }

  /** n + 1 failures within one window make a streak of at least n + 1. */
  lemma {:induction false} TightStreak(times: seq<u64>, n: nat)
    requires n < |times| && Ascending(times) && times[|times| - 1] - times[|times| - 1 - n] < 600
    ensures Streak(times) >= n + 1
  {
    if n > 0 {
      TightStreak(times[..|times| - 1], n - 1);
    }
  }

  /** While the policy is not suspended, the fourth last failure that stands lies ten minutes or more in the past. */
  lemma FourFailuresSuspend(events: seq<Event>, now: u64)
    requires Ordered(events) && LastTime(events) <= now && !Suspended(After(events), now)
    ensures var times := Standing(events); |times| >= 4 ==> now - times[|times| - 4] >= 600
  {
    var times := Standing(events);
    CountIsStreak(events);
    StandingAscend(events);
    if |times| >= 4 && now - times[|times| - 4] < 600 {
      TightStreak(times, 3);
    }
  }

  /** A failure and the fourth one after it are at least a window apart. */
  predicate Spread(times: seq<u64>) {
    Ascending(times) && forall i, j | 0 <= i && i + 4 <= j < |times| :: times[j] - times[i] >= 600
  }

  /** Counted from the end, some of the failures come no later than all of them. */
  predicate Trails(some: seq<u64>, all: seq<u64>) {
    |some| <= |all| && forall i | 0 <= i < |some| :: some[i] <= all[|all| - |some| + i]
  }

  lemma TrailsStill(some: seq<u64>, all: seq<u64>, t: u64)
    requires Trails(some, all) && Ascending(all) && (all != [] ==> all[|all| - 1] <= t)
    ensures Trails(some, all + [t])
  {
  }

  lemma SpreadStep(some: seq<u64>, all: seq<u64>, t: u64)
    requires Trails(some, all) && Spread(some) && (all != [] ==> all[|all| - 1] <= t)
    requires |all| >= 4 ==> t - all[|all| - 4] >= 600
    ensures Spread(some + [t]) && Trails(some + [t], all + [t])
  {
    if some != [] {
      assert some[|some| - 1] <= all[|all| - 1];
    }
    if |some| >= 4 {
      assert some[|some| - 4] <= all[|all| - 4];
    }
  }

  /** Of the failures recorded since the last healthy minute and while the policy is not suspended, each and the
      fourth one after it are at least ten minutes apart, however many others are recorded in between. */
  lemma {:induction false} FifthFailureIsLate(events: seq<Event>)
    requires Ordered(events)
    ensures Spread(Counted(events)) && Trails(Counted(events), Standing(events))
  {
    if events != [] {
      var before, e := events[..|events| - 1], events[|events| - 1];
      FifthFailureIsLate(before);
      StandingAscend(before);
      hide After, Suspended, Spread, Trails, Unforgiven, Unsuspended, HealthyMinute;
      if e.Failure? && !Suspended(After(before), e.at) {
        FourFailuresSuspend(before, e.at);
        SpreadStep(Counted(before), Standing(before), e.at);
      } else if e.Failure? {
        TrailsStill(Counted(before), Standing(before), e.at);
      } else if HealthyMinute(before, e) {
        NothingIsSpread();
      }
    }
  }

  lemma NothingIsSpread()
    ensures Spread([]) && Trails([], [])
  {
  }

  /** The failures of one window, by number. */
  function InWindow(times: seq<u64>, from: int): set<int> {
    set i | 0 <= i < |times| && from <= times[i] < from + 600
  }

  lemma SpreadIsFew(times: seq<u64>, from: int)
    requires Spread(times)
    ensures |InWindow(times, from)| <= 4
  {
    var inside := InWindow(times, from);
    if inside != {} {
      var lo := Least(inside);
      assert forall i | lo + 4 <= i < |times| :: times[i] - times[lo] >= 600;
      assert inside <= {lo, lo + 1, lo + 2, lo + 3};
      SubsetSize(inside, {lo, lo + 1, lo + 2, lo + 3});
    }
  }

  /** Since the last healthy minute no failure was recorded while suspended if and only if all that stand are
      counted. */
  lemma {:induction false} AllAreCountedExactly(events: seq<Event>)
    ensures |Counted(events)| <= |Standing(events)|
    ensures Unsuspended(events) <==> Counted(events) == Standing(events)
  {
    if events != [] {
      var before, e := events[..|events| - 1], events[|events| - 1];
      AllAreCountedExactly(before);
      if e.Failure? && !Suspended(After(before), e.at) && Counted(events) == Standing(events) {
        assert Counted(before) == Counted(events)[..|Counted(before)|];
        assert Standing(before) == Standing(events)[..|Standing(before)|];
      }
    }
  }

  /** Since the last healthy minute no 600 seconds hold more than four failures recorded while the policy was not
      suspended: so no more than four at all if none was recorded while it was. */
  lemma AtMostFourPerWindow(events: seq<Event>, from: int)
    requires Ordered(events)
    ensures |InWindow(Counted(events), from)| <= 4
    ensures Unsuspended(events) ==> |InWindow(Standing(events), from)| <= 4
    ensures Unsuspended(events) && Unforgiven(events) ==> |InWindow(Failures(events), from)| <= 4
  {
    FifthFailureIsLate(events);
    SpreadIsFew(Counted(events), from);
    AllAreCountedExactly(events);
    if Unforgiven(events) {
      AllStand(events);
    }
  }

  /** The next failure is a fifth one in a row exactly if it meets a suspended policy. */
  lemma FifthInARow(s: State, times: seq<u64>, last: u64, first: Option<u64>, now: u64)
    requires Tally(s, times, last, first) && last <= now && Streak(times) <= 4
    ensures Suspended(s, now) <==> Streak(times + [now]) > 4
  {
    assert (times + [now])[..|times|] == times;
  }

  predicate NeverFiveInARow(times: seq<u64>) {
    times == [] || (NeverFiveInARow(times[..|times| - 1]) && Streak(times) <= 4)
  }

  /** A failure is recorded while suspended if and only if it is a fifth or later one in a row. */
  lemma {:induction false} FourInARowExactly(events: seq<Event>)
    requires Ordered(events)
    ensures Unsuspended(events) <==> NeverFiveInARow(Standing(events))
    ensures Unsuspended(events) ==> Streak(Standing(events)) <= 4
  {
    if events != [] {
      var before, e := events[..|events| - 1], events[|events| - 1];
      var times := Standing(before);
      FourInARowExactly(before);
      if e.Failure? && Unsuspended(before) {
        hide After, Unforgiven, Tally, Suspended, Streak;
        CountIsStreak(before);
        FifthInARow(After(before), times, LastTime(before), FirstReady(before), e.at);
        assert (times + [e.at])[..|times|] == times;
      }
    }
  }

  /** The wait after the n-th failure of a streak, the last one at `last`, is over: 15, 30 or 60 seconds, and ten
      minutes after the fourth and any later one. */
  predicate Due(last: u64, n: nat, now: u64) {
    if n >= 4 then now - last >= 600
    else
      var over := last + if n == 1 then 15 else if n == 2 then 30 else 60;
      now >= if over <= 0xFFFF_FFFF_FFFF_FFFF then over else 0xFFFF_FFFF_FFFF_FFFF
  }

  /** When an attempt is allowed: if no failure stands, once the wait is over, or at once if the core has been seen
      ready since the last failure and the policy is not suspended. */
  lemma AnswersExactly(events: seq<Event>, now: u64)
    requires Ordered(events) && LastTime(events) <= now
    ensures var times, ready := Standing(events), FirstReady(events).Some?;
            Allowed(After(events), now)
            <==> times == [] || (ready && Streak(times) < 4) || Due(times[|times| - 1], Streak(times), now)
  {
    CountIsStreak(events);
  }

  /** Every later attempt waits its turn exactly if the core has not been seen ready since the last failure, or
      the policy is suspended, or the wait is already over. */
  lemma BackoffIsKeptExactly(events: seq<Event>)
    requires Ordered(events) && Standing(events) != []
    ensures var last, n := Standing(events)[|Standing(events)| - 1], Streak(Standing(events));
            (forall now | LastTime(events) <= now && Allowed(After(events), now) :: Due(last, n, now))
            <==> FirstReady(events).None? || n >= 4 || Due(last, n, LastTime(events))
  {
    var times, begun := Standing(events), LastTime(events);
    CountIsStreak(events);
    AnswersExactly(events, begun);
    forall now | begun <= now && Allowed(After(events), now)
      ensures (FirstReady(events).Some? && Streak(times) < 4) || Due(times[|times| - 1], Streak(times), now)
    {
      AnswersExactly(events, now);
    }
  }

  function LastError(events: seq<Event>): string {
    if events == [] then ""
    else
      var e := events[|events| - 1];
      if e.Failure? then e.error else LastError(events[..|events| - 1])
  }

  /** While a failure counts, the state shows the first 512 characters of the last one's error. */
  lemma {:induction false} LastErrorIsShown(events: seq<Event>)
    ensures var s, error := After(events), LastError(events);
            s.count > 0 ==> s.error == Some(if |error| <= 512 then error else error[..512])
  {
    if events != [] {
      LastErrorIsShown(events[..|events| - 1]);
    }
  }

  lemma Appended(events: seq<Event>, e: Event)
    ensures var s, next := After(events), events + [e];
            && After(next) == Step(s, e)
            && Failures(next) == (if e.Failure? then Failures(events) + [e.at] else Failures(events))
            && Counted(next) == (if e.Failure? && !Suspended(s, e.at) then Counted(events) + [e.at]
                                 else if HealthyMinute(events, e) then [] else Counted(events))
            && (Unsuspended(next) <==> HealthyMinute(events, e) || (Unsuspended(events) && (e.Failure? ==> !Suspended(s, e.at))))
            && (Unforgiven(next) <==> Unforgiven(events) && !HealthyMinute(events, e))
            && Standing(next) == (if e.Failure? then Standing(events) + [e.at]
                                  else if HealthyMinute(events, e) then [] else Standing(events))
            && FirstReady(next) == (if e.Failure? then None
                                    else if e.Ready? && FirstReady(events).None? then Some(e.at) else FirstReady(events))
            && (Ordered(next) <==> Ordered(events) && (events != [] ==> LastTime(events) <= e.at))
            && LastTime(next) == e.at
  {
    assert (events + [e])[..|events|] == events;
  }

  /** A failed start can leave its core behind, and the monitor can see that core ready two seconds later: then
      the next attempt is allowed at once, where the first failure was to be followed by fifteen seconds. */
  lemma ReadyCutsTheGap()
    ensures var events := [Attempt(0), Failure(1, ""), Ready(3)];
            Ordered(events) && Standing(events) == [1] && Allowed(After(events), 3) && !Due(1, 1, 3)
  {
    var first, second := [Attempt(0)], [Attempt(0), Failure(1, "")];
    var events := [Attempt(0), Failure(1, ""), Ready(3)];
    assert first == [] + [Attempt(0)] && second == first + [Failure(1, "")] && events == second + [Ready(3)];
    assert Ordered([]) && Standing([]) == [] && After([]) == FRESH && FirstReady([]) == None;
    hide After, Failures, Standing, FirstReady, Counted, Ordered, Unforgiven, Unsuspended;
    Appended([], Attempt(0));
    Appended(first, Failure(1, ""));
    Appended(second, Ready(3));
    assert events[..2] == second && second[..1] == first && first[..0] == [];
  }

  // ---------- restarts ----------

  /** Whatever the file holds, what is read back is a state the policy could have reached. */
  lemma LoadedIsBounded(file: Option<Persisted>, now: u64)
    ensures var s := Loaded(file, now).0;
            && s.count <= MAX_FAILURES && (s.count == 0 ==> s == FRESH)
            && (s.count > 0 ==> s.last.Some? && s.last.value <= now && !Expired(s, now))
            && (s.count == MAX_FAILURES ==> s.suspended && s.nextRetry.None?)
            && (s.error.Some? ==> |s.error.value| <= ERROR_MAX)
  {
  }

  /** Which record of the file is used: one of this format, with one to four failures, the last of them less than
      ten minutes back, and not healthy for a minute. */
  lemma RecordIsUsedExactly(file: Option<Persisted>, now: u64)
    ensures Loaded(file, now).0.count > 0
            <==> && file.Some? && file.value.format == 1
                 && var p := file.value.state;
                    && 1 <= p.count <= 4 && p.last.Some? && p.last.value <= now && now - p.last.value < 600
                    && (p.healthySince.Some? ==> p.healthySince.value <= now && now - p.healthySince.value < 60)
    ensures Loaded(file, now).0.count > 0 ==>
              var p, s := file.value.state, Loaded(file, now).0;
              && s.count == p.count && s.last == p.last && s.healthySince == p.healthySince
              && (s.count < 4 ==> s.suspended == p.suspended && s.nextRetry == p.nextRetry)
    ensures Loaded(file, now).1 ==> file.Some?
    ensures file == Some(Persisted(1, FRESH)) ==> Loaded(file, now) == (FRESH, false)
    ensures file.Some? && Loaded(file, now).0 == FRESH && file.value.state != FRESH ==> Loaded(file, now).1
  {
  }

  /** Restarting at `now` answers an attempt as the running policy would, except exactly when a suspended
      core has been healthy long enough that the restart alone lifts the suspension. */
  lemma RestartIsTransparent(s: State, now: u64)
    requires Sane(s)
    requires s.last.Some? ==> s.last.value <= now
    requires s.healthySince.Some? ==> s.healthySince.value <= now
    ensures (Allowed(Loaded(Saved(s), now).0, now) == Allowed(s, now))
            <==> !(s.suspended && HealthyLongEnough(s, now) && !Expired(s, now))
    ensures s.healthySince.None? && !Expired(s, now) ==> Loaded(Saved(s), now) == (s, false)
  {
  }

  /** The same history without its restarts. */
  function Unrestarted(events: seq<Event>): seq<Event> {
    if events == [] then []
    else
      var before, e := events[..|events| - 1], events[|events| - 1];
      if e.Restart? then Unrestarted(before) else Unrestarted(before) + [e]
  }

  /** No restart meets a healthy mark. */
  predicate NoHealthyRestart(events: seq<Event>) {
    events == [] ||
    var before, e := events[..|events| - 1], events[|events| - 1];
    NoHealthyRestart(before) && (e.Restart? ==> After(before).healthySince.None?)
  }

  lemma {:induction false} RecordsThePast(events: seq<Event>)
    requires Ordered(events)
    ensures var s := After(events);
            && (s.last.Some? ==> events != [] && s.last.value <= events[|events| - 1].at)
            && (s.healthySince.Some? ==> events != [] && s.healthySince.value <= events[|events| - 1].at)
  {
    if events != [] {
      RecordsThePast(events[..|events| - 1]);
    }
  }

  /** Two states that agree once expiry is applied still agree after the same later event. */
  lemma AgreementIsKept(s: State, t: State, e: Event, now: u64)
    requires Unexpired(s, e.at) == Unexpired(t, e.at) && !e.Restart? && e.at <= now
    requires s.last.Some? ==> s.last.value <= e.at
    requires t.last.Some? ==> t.last.value <= e.at
    ensures Unexpired(Step(s, e), now) == Unexpired(Step(t, e), now)
  {
  }

  /** Restarts, however many and wherever they fall, change no later answer of the policy. */
  lemma {:induction false} RestartsAreInvisible(events: seq<Event>, now: u64)
    requires Ordered(events) && NoHealthyRestart(events)
    requires events != [] ==> events[|events| - 1].at <= now
    ensures Unexpired(After(events), now) == Unexpired(After(Unrestarted(events)), now)
    ensures Allowed(After(events), now) == Allowed(After(Unrestarted(events)), now)
    ensures Ordered(Unrestarted(events))
    ensures Unrestarted(events) != [] ==>
              events != [] && Unrestarted(events)[|Unrestarted(events)| - 1].at <= events[|events| - 1].at
  {
    if events != [] {
      var before, e := events[..|events| - 1], events[|events| - 1];
      RestartsAreInvisible(before, e.at);
      RecordsThePast(before);
      RecordsThePast(Unrestarted(before));
      ReachableIsSane(before);
      ReachableIsSane(Unrestarted(before));
      hide AfterFailure, AfterReady, Loaded, Sane, CanAttempt;
      if e.Restart? {
        RestartReadsBack(After(before), e.at);
      } else {
        assert Unrestarted(events)[..|Unrestarted(before)|] == Unrestarted(before);
        AgreementIsKept(After(before), After(Unrestarted(before)), e, now);
      }
    }
  }

  // ---------- the supervising loop ----------

  /** A turn of the monitor: an automatic start, asked for at `at` and, if allowed, known to have failed or
      succeeded at `done`; a running core seen ready, whether or not a start had announced it; or a core found
      gone, unready or no longer ours, which the monitor records as a failure without asking the policy. */
  datatype Turn =
    | Start(at: u64, starts: bool, done: u64, error: string)
    | Sighting(at: u64)
    | Loss(at: u64, error: string)

  function End(turn: Turn): u64 {
    if turn.Start? then turn.done else turn.at
  }

  predicate Timely(turns: seq<Turn>) {
    && (forall t <- turns :: t.at <= End(t))
    && (forall i, j | 0 <= i < j < |turns| :: End(turns[i]) <= turns[j].at)
  }

  predicate FailsToStart(s: State, turn: Turn) {
    turn.Start? && Allowed(s, turn.at) && !turn.starts
  }

  /** What one turn adds to the history. */
  function Episode(s: State, turn: Turn): seq<Event> {
    match turn
    case Sighting(at) => [Ready(at)]
    case Loss(at, error) => [Failure(at, error)]
    case Start(at, starts, done, error) =>
      [Attempt(at)] +
      if !Allowed(s, at) then []
      else if starts then [Ready(done)]
      else [Failure(done, error)]
  }

  /** What one turn makes of the state. */
  function AfterTurn(s: State, turn: Turn): State {
    match turn
    case Sighting(at) => AfterReady(s, at)
    case Loss(at, error) => AfterFailure(s, at, error)
    case Start(at, starts, done, error) =>
      if !Allowed(s, at) then Unexpired(s, at)
      else if starts then AfterReady(Unexpired(s, at), done)
      else AfterFailure(Unexpired(s, at), done, error)
  }

  /** The failures one turn records. */
  function Recorded(s: State, turn: Turn): seq<u64> {
    if turn.Loss? || FailsToStart(s, turn) then [End(turn)] else []
  }

  /** The turn ends a healthy minute. */
  predicate Forgives(events: seq<Event>, turn: Turn) {
    match turn
    case Sighting(at) => HealthyMinute(events, Ready(at))
    case Loss(_, _) => false
    case Start(at, starts, done, _) => Allowed(After(events), at) && starts && HealthyMinute(events, Ready(done))
  }

  /** What is to hold after a turn. */
  predicate TurnAdds(events: seq<Event>, turn: Turn, next: seq<Event>) {
    var s := After(events);
    && Ordered(next) && next != [] && LastTime(next) <= End(turn)
    && After(next) == AfterTurn(s, turn)
    && Failures(next) == Failures(events) + Recorded(s, turn)
    && Standing(next) == (if Forgives(events, turn) then [] else Standing(events) + Recorded(s, turn))
    && Counted(next) == (if Forgives(events, turn) then []
                         else if turn.Loss? && Suspended(s, turn.at) then Counted(events)
                         else Counted(events) + Recorded(s, turn))
    && (Unsuspended(next) <==>
          Forgives(events, turn) || (Unsuspended(events) && (turn.Loss? ==> !Suspended(s, turn.at))))
    && (Unforgiven(next) <==> Unforgiven(events) && !Forgives(events, turn))
  }

  /** An attempt in hand changes nothing but the state's expiry. */
  lemma AttemptAppended(events: seq<Event>, at: u64, e: Event)
    ensures var asked := events + [Attempt(at)];
            && After(asked) == Unexpired(After(events), at) && LastTime(asked) == at && asked != []
            && Failures(asked) == Failures(events) && Standing(asked) == Standing(events) && Counted(asked) == Counted(events)
            && Unsuspended(asked) == Unsuspended(events) && Unforgiven(asked) == Unforgiven(events)
            && (Ordered(asked) <==> Ordered(events) && (events != [] ==> LastTime(events) <= at))
            && HealthyMinute(asked, e) == HealthyMinute(events, e)
  {
    hide Ordered, Unsuspended, Unforgiven, After, Failures, Counted, Standing, Suspended, Unexpired, LastTime, FirstReady;
    Appended(events, Attempt(at));
  }

  lemma StartAppended(events: seq<Event>, turn: Turn)
    requires Ordered(events) && (events != [] ==> LastTime(events) <= turn.at) && turn.at <= End(turn)
    requires turn.Start? && Allowed(After(events), turn.at)
    ensures TurnAdds(events, turn, events + [Attempt(turn.at)]
                                   + [if turn.starts then Ready(turn.done) else Failure(turn.done, turn.error)])
  {
    hide Ordered, Unsuspended, Unforgiven, After, Failures, Counted, Standing, Allowed, Suspended, Unexpired, AfterReady,
         AfterFailure, LastTime, FirstReady, HealthyMinute;
    var asked := events + [Attempt(turn.at)];
    if turn.starts {
      AttemptAppended(events, turn.at, Ready(turn.done));
      Appended(asked, Ready(turn.done));
    } else {
      StaysUnsuspended(After(events), turn.at, turn.done);
      NoHealthyFailure(asked, turn.done, turn.error);
      AttemptAppended(events, turn.at, Failure(turn.done, turn.error));
      Appended(asked, Failure(turn.done, turn.error));
    }
  }

  lemma NoHealthyFailure(events: seq<Event>, at: u64, error: string)
    ensures !HealthyMinute(events, Failure(at, error))
  {
  }

  lemma OneEventAppended(events: seq<Event>, turn: Turn, e: Event)
    requires Ordered(events) && (events != [] ==> LastTime(events) <= turn.at)
    requires match turn
             case Sighting(at) => e == Ready(at)
             case Loss(at, error) => e == Failure(at, error)
             case Start(at, _, done, _) => e == Attempt(at) && !Allowed(After(events), at) && at <= done
    ensures TurnAdds(events, turn, events + [e])
  {
    hide Ordered, Unsuspended, Unforgiven, After, Failures, Counted, Standing, Allowed, Suspended, Unexpired, AfterReady,
         AfterFailure, LastTime, FirstReady;
    Appended(events, e);
  }

  lemma EpisodeAppended(events: seq<Event>, turn: Turn)
    requires Ordered(events) && (events != [] ==> LastTime(events) <= turn.at) && turn.at <= End(turn)
    ensures TurnAdds(events, turn, events + Episode(After(events), turn))
  {
    var s := After(events);
    hide TurnAdds, Allowed, After, Ordered, LastTime;
    if turn.Start? && Allowed(s, turn.at) {
      StartAppended(events, turn);
      assert events + Episode(s, turn)
          == events + [Attempt(turn.at)] + [if turn.starts then Ready(turn.done) else Failure(turn.done, turn.error)];
    } else {
      OneEventAppended(events, turn, Episode(s, turn)[0]);
      assert Episode(s, turn) == [Episode(s, turn)[0]];
    }
  }

  /** While an allowed attempt is under way, nothing suspends the policy. */
  lemma StaysUnsuspended(s: State, at: u64, done: u64)
    requires Allowed(s, at)
    ensures !Suspended(Unexpired(s, at), done)
  {
  }

  /** The history that a run of turns writes. */
  function History(turns: seq<Turn>): seq<Event>
    decreases |turns|
  {
    if turns == [] then []
    else
      var before := History(turns[..|turns| - 1]);
      before + Episode(After(before), turns[|turns| - 1])
  }

  /** The failures of automatic starts among those it records. */
  function FailedStarts(turns: seq<Turn>): seq<u64>
    decreases |turns|
  {
    if turns == [] then []
    else
      var before, turn := turns[..|turns| - 1], turns[|turns| - 1];
      FailedStarts(before) + if FailsToStart(After(History(before)), turn) then [turn.done] else []
  }

  /** Those of them since the last healthy minute. */
  function StandingStarts(turns: seq<Turn>): seq<u64>
    decreases |turns|
  {
    if turns == [] then []
    else
      var before, turn := turns[..|turns| - 1], turns[|turns| - 1];
      if Forgives(History(before), turn) then []
      else StandingStarts(before) + if FailsToStart(After(History(before)), turn) then [turn.done] else []
  }

  /** Since the last healthy minute the monitor has found no core lost while the policy was suspended. */
  predicate NoLossWhileSuspended(turns: seq<Turn>)
    decreases |turns|
  {
    turns == [] ||
    var before, turn := turns[..|turns| - 1], turns[|turns| - 1];
    || Forgives(History(before), turn)
    || (NoLossWhileSuspended(before) && (turn.Loss? ==> !Suspended(After(History(before)), turn.at)))
  }

  lemma LastTurn(turns: seq<Turn>)
    requires turns != [] && Timely(turns)
    ensures var before, turn := turns[..|turns| - 1], turns[|turns| - 1];
            var events := History(before);
            var s := After(events);
            var failed := if FailsToStart(s, turn) then [turn.done] else [];
            && Timely(before) && turn.at <= End(turn) && (before != [] ==> End(before[|before| - 1]) <= turn.at)
            && History(turns) == events + Episode(s, turn)
            && FailedStarts(turns) == FailedStarts(before) + failed
            && StandingStarts(turns) == (if Forgives(events, turn) then [] else StandingStarts(before) + failed)
            && (NoLossWhileSuspended(turns)
                <==> Forgives(events, turn) || (NoLossWhileSuspended(before) && (turn.Loss? ==> !Suspended(s, turn.at))))
  {
    hide After, Episode, Suspended, FailsToStart, Forgives;
  }

  /** Automatic starts never record a failure while the policy is suspended; the monitor's own failures alone
      can. */
  lemma {:induction false} HistoryIsUnsuspendedExactly(turns: seq<Turn>)
    requires Timely(turns)
    ensures var events := History(turns);
            && Ordered(events) && (events != [] ==> turns != [] && LastTime(events) <= End(turns[|turns| - 1]))
            && (Unsuspended(events) <==> NoLossWhileSuspended(turns))
    decreases |turns|
  {
    if turns != [] {
      hide *;
      var before := turns[..|turns| - 1];
      LastTurn(turns);
      HistoryIsUnsuspendedExactly(before);
      EpisodeAppended(History(before), turns[|turns| - 1]);
      return;
    }
  }

  lemma SpreadAppended(times: seq<u64>, t: u64)
    requires Spread(times + [t])
    ensures Ascending(times) && (times != [] ==> times[|times| - 1] <= t)
    ensures |times| >= 4 ==> t - times[|times| - 4] >= 600
  {
    var more := times + [t];
    assert times == more[..|times|] && more[|times|] == t;
    assert |times| >= 4 ==> more[|times|] - more[|times| - 4] >= 600;
  }

  lemma SpreadTurn(events: seq<Event>, starts: seq<u64>, turn: Turn)
    requires Ordered(events) && (events != [] ==> LastTime(events) <= turn.at) && turn.at <= End(turn)
    requires Spread(starts) && Trails(starts, Counted(events))
    ensures var s, next := After(events), events + Episode(After(events), turn);
            var more := if Forgives(events, turn) then [] else starts + if FailsToStart(s, turn) then [turn.done] else [];
            Spread(more) && Trails(more, Counted(next))
  {
    NothingIsSpread();
    hide After, Episode, AfterTurn, Suspended, Trails, Spread, Ascending, Forgives, Allowed, Ordered, Unforgiven,
         Unsuspended, Counted, Failures, Standing, LastTime;
    EpisodeAppended(events, turn);
    var s, all := After(events), Counted(events);
    FifthFailureIsLate(events + Episode(s, turn));
    assert starts + [] == starts;
    if !Forgives(events, turn) {
      if FailsToStart(s, turn) {
        SpreadAppended(all, turn.done);
        SpreadStep(starts, all, turn.done);
      } else if turn.Loss? && !Suspended(s, turn.at) {
        SpreadAppended(all, turn.at);
        TrailsStill(starts, all, turn.at);
      } else {
        assert Counted(events + Episode(s, turn)) == all;
      }
    }
  }

  /** Since the last healthy minute, a failed automatic start and the fourth one after it are at least ten minutes
      apart, wherever the monitor's own failures fall. */
  lemma {:induction false} FailedStartsAreSpread(turns: seq<Turn>)
    requires Timely(turns)
    ensures Spread(StandingStarts(turns)) && Trails(StandingStarts(turns), Counted(History(turns)))
    decreases |turns|
  {
    if turns == [] {
      NothingIsSpread();
      return;
    }
    hide *;
    var before, turn := turns[..|turns| - 1], turns[|turns| - 1];
    LastTurn(turns);
    HistoryIsUnsuspendedExactly(before);
    FailedStartsAreSpread(before);
    EpisodeAppended(History(before), turn);
    SpreadTurn(History(before), StandingStarts(before), turn);
  }

  lemma {:induction false} AllStartsStand(turns: seq<Turn>)
    requires Timely(turns) && Unforgiven(History(turns))
    ensures StandingStarts(turns) == FailedStarts(turns)
    decreases |turns|
  {
    if turns != [] {
      hide *;
      var before := turns[..|turns| - 1];
      LastTurn(turns);
      HistoryIsUnsuspendedExactly(before);
      EpisodeAppended(History(before), turns[|turns| - 1]);
      AllStartsStand(before);
      return;
    }
  }

  /** So since the last healthy minute no window sees more than four failed starts, and no more than four failures of
      any kind if none was recorded while the policy was suspended. Without a healthy minute these are all. */
  lemma SupervisedStartsAreBounded(turns: seq<Turn>, from: int)
    requires Timely(turns)
    ensures |InWindow(StandingStarts(turns), from)| <= 4
    ensures NoLossWhileSuspended(turns) ==> |InWindow(Standing(History(turns)), from)| <= 4
    ensures Unforgiven(History(turns)) ==>
              StandingStarts(turns) == FailedStarts(turns) && Standing(History(turns)) == Failures(History(turns))
  {
    FailedStartsAreSpread(turns);
    SpreadIsFew(StandingStarts(turns), from);
    HistoryIsUnsuspendedExactly(turns);
    AtMostFourPerWindow(History(turns), from);
    if Unforgiven(History(turns)) {
      AllStand(History(turns));
      AllStartsStand(turns);
    }
  }

  /** One turn more, for the loop below. */
  lemma NextTurn(turns: seq<Turn>, n: nat)
    requires Timely(turns) && n < |turns|
    ensures var s := After(History(turns[..n]));
            && Sane(s) && After(History(turns[..n + 1])) == AfterTurn(s, turns[n])
            && Failures(History(turns[..n + 1])) == Failures(History(turns[..n])) + Recorded(s, turns[n])
            && FailedStarts(turns[..n + 1])
               == FailedStarts(turns[..n]) + (if FailsToStart(s, turns[n]) then [turns[n].done] else [])
            && (NoLossWhileSuspended(turns[..n + 1])
                <==> || Forgives(History(turns[..n]), turns[n])
                     || (NoLossWhileSuspended(turns[..n]) && (turns[n].Loss? ==> !Suspended(s, turns[n].at))))
            && (Unforgiven(History(turns[..n + 1]))
                <==> Unforgiven(History(turns[..n])) && !Forgives(History(turns[..n]), turns[n]))
  {
    assert turns[..n + 1][..n] == turns[..n] && Timely(turns[..n]) && Timely(turns[..n + 1]);
    hide *;
    LastTurn(turns[..n + 1]);
    HistoryIsUnsuspendedExactly(turns[..n]);
    EpisodeAppended(History(turns[..n]), turns[n]);
    ReachableIsSane(History(turns[..n]));
  }

  /** Nothing but n failed starts so far. */
  predicate AllFailed(turns: seq<Turn>, n: nat, s: State, times: seq<u64>)
    requires n <= |turns|
  {
    var events := History(turns[..n]);
    After(events) == s && Failures(events) == times && FailedStarts(turns[..n]) == times && Unforgiven(events)
  }

  /** After n failures in a row, the last one at `last`. */
  function Failing(n: nat, last: u64): State {
    if n == 0 then FRESH
    else
      var retry := if n < MAX_FAILURES then Some(Later(last, Wait(n))) else None;
      State(n, Some(last), retry, None, n == MAX_FAILURES, Some(""))
  }

  lemma NothingFailed(turns: seq<Turn>)
    ensures AllFailed(turns, 0, Failing(0, 0), [])
  {
    assert turns[..0] == [];
  }

  /** A start that the retry time allows and that fails. */
  lemma AnotherFails(turns: seq<Turn>, n: nat, last: u64, times: seq<u64>)
    requires Timely(turns) && n < |turns| && n < MAX_FAILURES
    requires turns[n].Start? && !turns[n].starts && turns[n].error == ""
    requires AllFailed(turns, n, Failing(n, last), times)
    requires n > 0 ==> last + Wait(n) <= turns[n].at && turns[n].done < last + WINDOW
    requires turns[n].done <= MAX - WINDOW
    ensures AllFailed(turns, n + 1, Failing(n + 1, turns[n].done), times + [turns[n].done])
  {
    hide After, History, Failures, FailedStarts, Unforgiven, NoLossWhileSuspended, Suspended;
    NextTurn(turns, n);
  }

  lemma LastLoss(turns: seq<Turn>, s: State, times: seq<u64>)
    requires Timely(turns) && |turns| > 0 && AllFailed(turns, |turns| - 1, s, times)
    requires turns[|turns| - 1].Loss? && Suspended(s, turns[|turns| - 1].at)
    ensures Unforgiven(History(turns)) && !NoLossWhileSuspended(turns) && FailedStarts(turns) == times
    ensures Failures(History(turns)) == times + [turns[|turns| - 1].at]
  {
    assert turns[..|turns| - 1 + 1] == turns;
    hide After, History, Failures, FailedStarts, Unforgiven, NoLossWhileSuspended, AfterTurn, Suspended;
    NextTurn(turns, |turns| - 1);
  }

  /** Four failed starts, and eleven seconds after the last the monitor finds the core it left behind unready. */
  predicate FourStartsAndALoss(turns: seq<Turn>) {
    && |turns| == 5
    && turns[0] == Start(0, false, 1, "") && turns[1] == Start(25, false, 26, "")
    && turns[2] == Start(61, false, 62, "") && turns[3] == Start(133, false, 134, "")
    && turns[4] == Loss(145, "")
  }

  /** These turns begin with failed starts at these times, each asked for when the retry time allows it. */
  ghost predicate RetriesInTime(turns: seq<Turn>, times: seq<u64>) {
    && Timely(turns) && |times| <= |turns| && |times| <= MAX_FAILURES
    && (forall n | 0 <= n < |times| ::
          turns[n].Start? && !turns[n].starts && turns[n].error == "" && turns[n].done == times[n] <= MAX - WINDOW)
    && (forall m, n | 0 <= m && m + 1 == n < |times| ::
          times[m] + Wait(n) <= turns[n].at && times[n] < times[m] + WINDOW)
  }

  lemma TimesFit(turns: seq<Turn>, times: seq<u64>)
    requires FourStartsAndALoss(turns) && times == [1, 26, 62, 134]
    ensures RetriesInTime(turns, times) && Suspended(Failing(4, times[3]), 145)
  {
  }

  lemma {:induction false} StartsFail(turns: seq<Turn>, times: seq<u64>, n: nat)
    requires RetriesInTime(turns, times) && n <= |times|
    ensures AllFailed(turns, n, Failing(n, if n == 0 then 0 else times[n - 1]), times[..n])
  {
    hide AllFailed, Failing, Timely, Wait, Later;
    if n == 0 {
      NothingFailed(turns);
    } else {
      StartsFail(turns, times, n - 1);
      AnotherFails(turns, n - 1, if n == 1 then 0 else times[n - 2], times[..n - 1]);
      assert times[..n - 1] + [times[n - 1]] == times[..n];
    }
  }

  lemma FiveInWindow(times: seq<u64>)
    requires times == [1, 26, 62, 134, 145]
    ensures |InWindow(times, 0)| == 5
  {
    assert InWindow(times, 0) == {0, 1, 2, 3, 4};
  }

  /** The monitor does not ask whether the policy is suspended, so it records a fifth failure within the window. */
  lemma LossBreaksTheBound(turns: seq<Turn>)
    requires FourStartsAndALoss(turns)
    ensures Timely(turns) && Unforgiven(History(turns)) && !NoLossWhileSuspended(turns)
    ensures FailedStarts(turns) == [1, 26, 62, 134] && Failures(History(turns)) == [1, 26, 62, 134, 145]
    ensures |InWindow(Failures(History(turns)), 0)| == 5
  {
    var times := [1, 26, 62, 134];
    TimesFit(turns, times);
    hide *;
    StartsFail(turns, times, 4);
    assert times[..4] == times;
    LastLoss(turns, Failing(4, 134), times);
    FiveInWindow(Failures(History(turns)));
  }

  /** `monitor_core_once_locked` with `automatic_start_locked`, over and over. */
  method Supervise(turns: seq<Turn>) returns (recovery: CoreRecoveryState, recorded: seq<u64>, failed: seq<u64>)
    requires Timely(turns)
    ensures recovery.Snapshot() == After(History(turns))
    ensures recorded == Failures(History(turns)) && failed == FailedStarts(turns)
  {
    recovery := new CoreRecoveryState();
    recorded, failed := [], [];
    assert After(History([])) == FRESH && Failures(History([])) == [] && FailedStarts([]) == [];
    assert turns[..0] == [] && turns[..|turns|] == turns;
    hide Unexpired, AfterFailure, AfterReady, Sane, Failures, After, History, CanAttempt, FailedStarts, Unforgiven,
         NoLossWhileSuspended;
    for n := 0 to |turns|
      invariant fresh(recovery)
      invariant recovery.Snapshot() == After(History(turns[..n]))
      invariant recorded == Failures(History(turns[..n])) && failed == FailedStarts(turns[..n])
    {
      NextTurn(turns, n);
      match turns[n] {
        case Sighting(at) => var _ := recovery.MarkReady(at);
        case Loss(at, error) =>
          recovery.RecordFailure(at, error);
          recorded := recorded + [at];
        case Start(at, starts, done, error) =>
          var allowed := recovery.AllowAttempt(at);
          if allowed && starts {
            var _ := recovery.MarkReady(done);
          } else if allowed {
            recovery.RecordFailure(done, error);
            recorded, failed := recorded + [done], failed + [done];
          }
      }
    }
  }
}
