// The reconciler that drives a requested TUN state through an unreliable Service
// (src-tauri/src/reconciliation.rs), and the request loop around it (`request_tun` in src-tauri/src/service.rs).
module Reconciliation {
  import opened Basics

  datatype Connectivity =
    | NotInstalled | ServiceStopped | ScmStarting | PipeNotReady | Transient | Ambiguous | Ready
    | ProtocolFailure | AuthenticationFailure | CommandFailure

  datatype Projection = WaitingForService | Enabling | Disabling | Recovering

  datatype Actual = Disabled | Enabled | Transitioning | External | Unknown

  datatype Outcome = NotSent | Applied | Doubtful | DeterministicFailure

  datatype Decision =
    | Wait(projection: Projection) | IssueMutation | Complete | AbortExternal | Fail(connectivity: Connectivity) | Stale

  const PATIENCE := 3

  datatype State = State(desired: bool, generation: nat, pending: bool, ambiguous: bool, applied: nat)

  // ---------- specification ----------

  function Fresh(desired: bool, generation: nat): State {
    State(desired, generation, false, false, 0)
  }

  predicate Broken(c: Connectivity) {
    c == ProtocolFailure || c == AuthenticationFailure || c == CommandFailure
  }

  function Target(desired: bool): Actual {
    if desired then Enabled else Disabled
  }

  function Moving(desired: bool): Projection {
    if desired then Enabling else Disabling
  }

  /** A mutation is known to have been applied and its effect is still being waited for. */
  predicate Settling(s: State) {
    s.pending && !s.ambiguous && s.applied < PATIENCE
  }

  function Decide(s: State, generation: nat, c: Connectivity, actual: Actual, external: bool): Decision {
    if generation != s.generation then Stale
    else if external || actual == External then AbortExternal
    else if Broken(c) then Fail(c)
    else if actual == Target(s.desired) then Complete
    else if c != Ready then Wait(if s.ambiguous then Recovering else WaitingForService)
    else if actual == Transitioning || actual == Unknown then
      Wait(if s.ambiguous then Recovering else Moving(s.desired))
    else if Settling(s) then Wait(Moving(s.desired))
    else IssueMutation
  }

  function Observed(s: State, generation: nat, c: Connectivity, actual: Actual, external: bool): State {
    var d := Decide(s, generation, c, actual, external);
    if d == IssueMutation then s.(pending := true, ambiguous := false, applied := 0)
    else if d.Wait? && c == Ready && actual != Transitioning && actual != Unknown then s.(applied := s.applied + 1)
    else s
  }

  function Recorded(s: State, generation: nat, outcome: Outcome): State {
    if generation != s.generation || outcome == DeterministicFailure then s
    else s.(pending := outcome != NotSent, ambiguous := outcome == Doubtful, applied := 0)
  }

  function Acknowledged(s: State, generation: nat, outcome: Outcome): Decision {
    if generation != s.generation then Stale
    else
      match outcome
      case NotSent => Wait(WaitingForService)
      case Applied => Wait(Moving(s.desired))
      case Doubtful => Wait(Recovering)
      case DeterministicFailure => Fail(CommandFailure)
  }

  /** When an observation leads to which decision. A foreign TUN comes first, then a channel that is broken for
      good, then the target; a mutation goes out only to a ready Service in the opposite state, and not while an
      applied one has been waited for less than three times. */
  lemma DecidesExactly(s: State, generation: nat, c: Connectivity, actual: Actual, external: bool)
    ensures var d := Decide(s, generation, c, actual, external);
            var current, foreign := generation == s.generation, external || actual == External;
            var broken := c == ProtocolFailure || c == AuthenticationFailure || c == CommandFailure;
            var reached := actual == if s.desired then Enabled else Disabled;
            var opposite := actual == if s.desired then Disabled else Enabled;
            && (d == Stale <==> !current)
            && (d == AbortExternal <==> current && foreign)
            && (d.Fail? <==> current && !foreign && broken) && (d.Fail? ==> d.connectivity == c)
            && (d == Complete <==> current && !foreign && !broken && reached)
            && (d == IssueMutation <==>
                  current && !foreign && c == Ready && opposite && !(s.pending && !s.ambiguous && s.applied < 3))
            && (d.Wait? ==>
                  d.projection == if (c != Ready || !opposite) && s.ambiguous then Recovering
                                  else if c != Ready then WaitingForService
                                  else if s.desired then Enabling else Disabling)
  {
  }

  /** What is remembered: an issued or applied mutation is pending and its observations count from zero, one sent in
      doubt may be sent again at once, one not sent is forgotten, and a refused one changes nothing. */
  lemma RemembersExactly(s: State, generation: nat, c: Connectivity, actual: Actual, external: bool, outcome: Outcome)
    requires generation == s.generation
    ensures var seen, d := Observed(s, generation, c, actual, external), Decide(s, generation, c, actual, external);
            var told := Recorded(s, generation, outcome);
            && (d == IssueMutation ==> seen == State(s.desired, s.generation, true, false, 0))
            && (d != IssueMutation ==> seen == s.(applied := seen.applied))
            && (seen.applied == s.applied + 1 && d != IssueMutation <==>
                  d.Wait? && c == Ready && s.pending && !s.ambiguous && s.applied < 3
                  && actual == if s.desired then Disabled else Enabled)
            && (d != IssueMutation ==> seen.applied == s.applied || seen.applied == s.applied + 1)
            && (outcome == Applied ==> told == State(s.desired, s.generation, true, false, 0))
            && (outcome == Doubtful ==> told == State(s.desired, s.generation, true, true, 0))
            && (outcome == NotSent ==> told == State(s.desired, s.generation, false, false, 0))
            && (outcome == DeterministicFailure ==> told == s)
  {
  }

  /** And what a caller is told of a mutation it reports. */
  lemma AcknowledgesExactly(s: State, generation: nat, outcome: Outcome)
    ensures var d := Acknowledged(s, generation, outcome);
            && (d == Stale <==> generation != s.generation)
            && (d.Fail? <==> generation == s.generation && outcome == DeterministicFailure)
            && (d.Fail? ==> d.connectivity == CommandFailure)
            && (d.Wait? ==> d.projection == if outcome == NotSent then WaitingForService
                                            else if outcome == Doubtful then Recovering
                                            else if s.desired then Enabling else Disabling)
            && d != Complete && d != AbortExternal && d != IssueMutation
  {
  }

  // ---------- the mutable reconciler ----------

  class TunReconciler {
    const desired: bool
    const generation: nat
    var pending: bool
    var ambiguous: bool
    var applied: nat

    function Snapshot(): State
      reads this
    {
      State(desired, generation, pending, ambiguous, applied)
    }

    constructor (desired: bool, generation: nat)
      ensures Snapshot() == Fresh(desired, generation)
    {
      this.desired, this.generation := desired, generation;
      pending, ambiguous, applied := false, false, 0;
    }

    method Observe(g: nat, c: Connectivity, actual: Actual, external: bool) returns (d: Decision)
      modifies this
      ensures d == Decide(old(Snapshot()), g, c, actual, external)
      ensures Snapshot() == Observed(old(Snapshot()), g, c, actual, external)
    {
      if g != generation {
        return Stale;
      }
      if external || actual == External {
        return AbortExternal;
      }
      if Broken(c) {
        return Fail(c);
      }
      if (desired && actual == Enabled) || (!desired && actual == Disabled) {
        return Complete;
      }
      if c != Ready {
        return Wait(if ambiguous then Recovering else WaitingForService);
      }
      if actual == Transitioning || actual == Unknown {
        return Wait(if ambiguous then Recovering else Moving(desired));
      }
      if pending && !ambiguous {
        if applied < PATIENCE {
          applied := applied + 1;
          return Wait(Moving(desired));
        }
        pending := false;
      }
      pending, ambiguous, applied := true, false, 0;
      d := IssueMutation;
    }

    method RecordMutation(g: nat, outcome: Outcome) returns (d: Decision)
      modifies this
      ensures d == Acknowledged(old(Snapshot()), g, outcome)
      ensures Snapshot() == Recorded(old(Snapshot()), g, outcome)
    {
      if g != generation {
        return Stale;
      }
      match outcome
      case NotSent =>
        pending, ambiguous, applied := false, false, 0;
        d := Wait(WaitingForService);
      case Applied =>
        pending, ambiguous, applied := true, false, 0;
        d := Wait(Moving(desired));
      case Doubtful =>
        pending, ambiguous, applied := true, true, 0;
        d := Wait(Recovering);
      case DeterministicFailure =>
        d := Fail(CommandFailure);
    }
  }

  // ---------- stale callers ----------

  datatype Call =
    | Observing(generation: nat, connectivity: Connectivity, actual: Actual, external: bool)
    | Recording(generation: nat, outcome: Outcome)

  function Called(s: State, call: Call): State {
    match call
    case Observing(g, c, actual, external) => Observed(s, g, c, actual, external)
    case Recording(g, outcome) => Recorded(s, g, outcome)
  }

  function Answer(s: State, call: Call): Decision {
    match call
    case Observing(g, c, actual, external) => Decide(s, g, c, actual, external)
    case Recording(g, outcome) => Acknowledged(s, g, outcome)
  }

  function AfterCalls(s: State, calls: seq<Call>): State
    decreases |calls|
  {
    if calls == [] then s else AfterCalls(Called(s, calls[0]), calls[1..])
  }

  function Answers(s: State, calls: seq<Call>): seq<Decision>
    decreases |calls|
  {
    if calls == [] then [] else [Answer(s, calls[0])] + Answers(Called(s, calls[0]), calls[1..])
  }

  function Current(calls: seq<Call>, generation: nat): seq<Call> {
    if calls == [] then []
    else if calls[0].generation == generation then [calls[0]] + Current(calls[1..], generation)
    else Current(calls[1..], generation)
  }

  function Fresher(answers: seq<Decision>): seq<Decision> {
    if answers == [] then []
    else if answers[0] == Stale then Fresher(answers[1..])
    else [answers[0]] + Fresher(answers[1..])
  }

  /** Calls of another generation, wherever they fall, change neither the state nor any other call's answer. */
  lemma {:induction false} StaleCallsAreInvisible(s: State, calls: seq<Call>)
    ensures AfterCalls(s, calls) == AfterCalls(s, Current(calls, s.generation))
    ensures Fresher(Answers(s, calls)) == Answers(s, Current(calls, s.generation))
    decreases |calls|
  {
    if calls != [] {
      var next := Called(s, calls[0]);
      assert next.generation == s.generation;
      StaleCallsAreInvisible(next, calls[1..]);
      assert Answers(s, calls)[1..] == Answers(next, calls[1..]);
      if calls[0].generation == s.generation {
        assert ([calls[0]] + Current(calls[1..], s.generation))[1..] == Current(calls[1..], s.generation);
      }
    }
  }

  // ---------- how often a mutation is issued ----------

  /** One observation and, should it issue a mutation, what became of that. */
  datatype Round = Round(connectivity: Connectivity, actual: Actual, external: bool, outcome: Outcome)

  predicate Issues(s: State, r: Round) {
    Decide(s, s.generation, r.connectivity, r.actual, r.external) == IssueMutation
  }

  function AfterRound(s: State, r: Round): State {
    var seen := Observed(s, s.generation, r.connectivity, r.actual, r.external);
    if Issues(s, r) then Recorded(seen, s.generation, r.outcome) else seen
  }

  function AfterRounds(s: State, rounds: seq<Round>): State
    decreases |rounds|
  {
    if rounds == [] then s else AfterRounds(AfterRound(s, rounds[0]), rounds[1..])
  }

  function Issued(s: State, rounds: seq<Round>): nat
    decreases |rounds|
  {
    if rounds == [] then 0
    else (if Issues(s, rounds[0]) then 1 else 0) + Issued(AfterRound(s, rounds[0]), rounds[1..])
  }

  /** How many of the issued mutations were not confirmed as applied. */
  function Unconfirmed(s: State, rounds: seq<Round>): nat
    decreases |rounds|
  {
    if rounds == [] then 0
    else (if Issues(s, rounds[0]) && rounds[0].outcome != Applied then 1 else 0)
         + Unconfirmed(AfterRound(s, rounds[0]), rounds[1..])
  }

  function Credit(s: State): nat {
    if s.pending && !s.ambiguous then s.applied else PATIENCE
  }

  lemma {:induction false} IssuesAreBounded(s: State, rounds: seq<Round>)
    requires s.applied <= PATIENCE
    ensures AfterRounds(s, rounds).applied <= PATIENCE
    ensures 4 * Issued(s, rounds) <= |rounds| + Credit(s) + 3 * Unconfirmed(s, rounds)
    decreases |rounds|
  {
    if rounds != [] {
      IssuesAreBounded(AfterRound(s, rounds[0]), rounds[1..]);
    }
  }

  /** A fresh reconciler whose mutations are all confirmed issues at most one for every four observations begun. */
  lemma ConfirmedRunsIssueSparsely(desired: bool, generation: nat, rounds: seq<Round>)
    requires forall r <- rounds :: r.outcome == Applied
    ensures var s := Fresh(desired, generation);
            Issued(s, rounds) <= (|rounds| + 3) / 4 && AfterRounds(s, rounds).applied <= 3
  {
    var s := Fresh(desired, generation);
    NothingUnconfirmed(s, rounds);
    IssuesAreBounded(s, rounds);
  }

  lemma {:induction false} NothingUnconfirmed(s: State, rounds: seq<Round>)
    requires forall r <- rounds :: r.outcome == Applied
    ensures Unconfirmed(s, rounds) == 0
    decreases |rounds|
  {
    if rounds != [] {
      NothingUnconfirmed(AfterRound(s, rounds[0]), rounds[1..]);
    }
  }

  // ---------- the request loop ----------

  datatype Report = Settled | Busy | Unclear

  datatype Status = Answered(report: Report) | Absent | Unreachable(connectivity: Connectivity)

  datatype Reply = Accepted | NoService | Rejected(connectivity: Connectivity, written: bool)

  /** One turn of the loop: what the Service's status shows, and how a mutation would fare if issued now. */
  datatype Poll = Poll(external: bool, status: Status, reply: Reply, effective: bool)

  datatype End = Reached | Foreign | Failed | OutOfTime

  function ConnectivityOf(p: Poll): Connectivity {
    match p.status
    case Answered(_) => Ready
    case Absent => NotInstalled
    case Unreachable(c) => c
  }

  function ActualOf(p: Poll, on: bool): Actual {
    match p.status
    case Answered(report) =>
      if p.external then External
      else (match report case Settled => Target(on) case Busy => Transitioning case Unclear => Unknown)
    case Absent => Unknown
    case Unreachable(_) => if p.external then External else Unknown
  }

  function OutcomeOf(reply: Reply): Outcome {
    match reply
    case Accepted => Applied
    case NoService => NotSent
    case Rejected(c, written) =>
      if Broken(c) then DeterministicFailure
      else if written then Doubtful
      else if c in {ScmStarting, PipeNotReady, Transient, ServiceStopped} then NotSent
      else DeterministicFailure
  }

  function RoundOf(p: Poll, on: bool): Round {
    Round(ConnectivityOf(p), ActualOf(p, on), p.external, OutcomeOf(p.reply))
  }

  predicate IssuesAt(s: State, on: bool, p: Poll) {
    Issues(s, RoundOf(p, on))
  }

  /** The Service's TUN after this turn: an issued mutation that takes effect makes it the wanted one. */
  function OnAfter(s: State, on: bool, p: Poll): bool {
    if IssuesAt(s, on, p) && p.effective then s.desired else on
  }

  function EndAt(s: State, on: bool, p: Poll): Option<End> {
    match Decide(s, s.generation, ConnectivityOf(p), ActualOf(p, on), p.external)
    case Complete => Some(Reached)
    case AbortExternal => Some(Foreign)
    case Fail(_) => Some(Failed)
    case IssueMutation => if OutcomeOf(p.reply) == DeterministicFailure then Some(Failed) else None
    case _ => None
  }

  function Run(s: State, on: bool, polls: seq<Poll>): (End, bool)
    decreases |polls|
  {
    if polls == [] then (OutOfTime, on)
    else
      var end := EndAt(s, on, polls[0]);
      if end.Some? then (end.value, OnAfter(s, on, polls[0]))
      else Run(AfterRound(s, RoundOf(polls[0], on)), OnAfter(s, on, polls[0]), polls[1..])
  }

  method RequestTun(desired: bool, generation: nat, on: bool, polls: seq<Poll>) returns (end: End, nowOn: bool)
    ensures (end, nowOn) == Run(Fresh(desired, generation), on, polls)
  {
    var reconciler := new TunReconciler(desired, generation);
    nowOn := on;
    var i := 0;
    while i < |polls|
      invariant 0 <= i <= |polls| && fresh(reconciler)
      invariant reconciler.generation == generation && reconciler.desired == desired
      invariant Run(Fresh(desired, generation), on, polls) == Run(reconciler.Snapshot(), nowOn, polls[i..])
    {
      var p := polls[i];
      ghost var before, wasOn := reconciler.Snapshot(), nowOn;
      var decision := reconciler.Observe(generation, ConnectivityOf(p), ActualOf(p, nowOn), p.external);
      match decision {
        case Complete => return Reached, nowOn;
        case AbortExternal => return Foreign, nowOn;
        case Fail(_) => return Failed, nowOn;
        case IssueMutation =>
          nowOn := if p.effective then desired else nowOn;
          var outcome := OutcomeOf(p.reply);
          var _ := reconciler.RecordMutation(generation, outcome);
          if outcome == DeterministicFailure {
            return Failed, nowOn;
          }
        case Wait(_) =>
      }
      assert polls[i..][1..] == polls[i + 1..];
      assert reconciler.Snapshot() == AfterRound(before, RoundOf(p, wasOn));
      i := i + 1;
    }
    end := OutOfTime;
  }

  /** How a turn ends the request: on a foreign TUN, on a broken channel or a refused mutation, or when the Service
      plainly reports the wanted state. */
  lemma EndsExactly(s: State, on: bool, p: Poll)
    ensures var end := EndAt(s, on, p);
            var broken := p.status.Unreachable?
                          && p.status.connectivity in {ProtocolFailure, AuthenticationFailure, CommandFailure};
            var refused := p.reply.Rejected?
                           && (p.reply.connectivity in {ProtocolFailure, AuthenticationFailure, CommandFailure}
                               || (!p.reply.written
                                   && p.reply.connectivity !in {ScmStarting, PipeNotReady, Transient, ServiceStopped}));
            && (end == Some(Foreign) <==> p.external)
            && (end == Some(Reached) <==> !p.external && p.status == Answered(Settled) && on == s.desired)
            && (end == Some(Failed) <==>
                  !p.external && (broken || (p.status == Answered(Settled) && IssuesAt(s, on, p) && refused)))
            && end != Some(OutOfTime)
  {
  }

  /** When a turn sends a mutation. */
  lemma IssuesExactly(s: State, on: bool, p: Poll)
    ensures IssuesAt(s, on, p)
            <==> !p.external && p.status == Answered(Settled) && on != s.desired
                 && !(s.pending && !s.ambiguous && s.applied < 3)
  {
  }

  /** After a mutation that had no effect, the next plain report of the opposite state sends it again unless it was
      acknowledged. */
  lemma SentAgainExactly(s: State, on: bool, p: Poll, q: Poll)
    requires IssuesAt(s, on, p) && !p.effective && OutcomeOf(p.reply) != DeterministicFailure
    requires !q.external && q.status == Answered(Settled)
    ensures IssuesAt(AfterRound(s, RoundOf(p, on)), OnAfter(s, on, p), q) <==> p.reply != Accepted
  {
  }

  /** What is made of the Service's reply to it. */
  lemma RepliesExactly(reply: Reply)
    ensures var o := OutcomeOf(reply);
            && (o == Applied <==> reply == Accepted)
            && (o == Doubtful <==>
                  reply.Rejected? && reply.written
                  && reply.connectivity !in {ProtocolFailure, AuthenticationFailure, CommandFailure})
            && (o == NotSent <==>
                  reply == NoService
                  || (reply.Rejected? && !reply.written
                      && reply.connectivity in {ScmStarting, PipeNotReady, Transient, ServiceStopped}))
  {
  }

  // ---------- convergence ----------

  /** No foreign TUN, no broken channel, and no refusal of a mutation. */
  predicate Benign(p: Poll) {
    && !p.external
    && (p.status.Unreachable? ==> !Broken(p.status.connectivity))
    && OutcomeOf(p.reply) != DeterministicFailure
  }

  /** A turn in which the Service does not say plainly whether TUN is on. */
  predicate Hidden(p: Poll) {
    p.status != Answered(Settled)
  }

  function HiddenCount(polls: seq<Poll>): nat {
    if polls == [] then 0 else (if Hidden(polls[0]) then 1 else 0) + HiddenCount(polls[1..])
  }

  /** How many mutations the run issues in vain. */
  function LostCount(s: State, on: bool, polls: seq<Poll>): nat
    decreases |polls|
  {
    if polls == [] || EndAt(s, on, polls[0]).Some? then 0
    else (if IssuesAt(s, on, polls[0]) && !polls[0].effective then 1 else 0)
         + LostCount(AfterRound(s, RoundOf(polls[0], on)), OnAfter(s, on, polls[0]), polls[1..])
  }

  /** How many mutations the run issues. */
  function IssuedCount(s: State, on: bool, polls: seq<Poll>): nat
    decreases |polls|
  {
    if polls == [] then 0
    else
      (if IssuesAt(s, on, polls[0]) then 1 else 0) +
      if EndAt(s, on, polls[0]).Some? then 0
      else IssuedCount(AfterRound(s, RoundOf(polls[0], on)), OnAfter(s, on, polls[0]), polls[1..])
  }

  /** Plain observations still needed if no further mutation is lost. */
  function Distance(s: State, on: bool): nat
    requires s.applied <= PATIENCE
  {
    if on == s.desired then 1 else if s.pending && !s.ambiguous then PATIENCE + 1 - s.applied + 1 else 2
  }

  lemma {:induction false} Converges(s: State, on: bool, polls: seq<Poll>)
    requires s.applied <= PATIENCE && forall p <- polls :: Benign(p)
    requires |polls| >= Distance(s, on) + 4 * LostCount(s, on, polls) + HiddenCount(polls)
    ensures Run(s, on, polls) == (Reached, s.desired)
    decreases |polls|
  {
    assert Benign(polls[0]);
    if EndAt(s, on, polls[0]).None? {
      Converges(AfterRound(s, RoundOf(polls[0], on)), OnAfter(s, on, polls[0]), polls[1..]);
    }
  }

  /** From any state the reconciler can be in, at most `lost` vain mutations and `hidden` unclear turns leave
      4 * (lost + 1) + hidden + 1 turns enough to reach the wanted state. */
  lemma ConvergesInTime(s: State, on: bool, polls: seq<Poll>, lost: nat, hidden: nat)
    requires s.applied <= PATIENCE && forall p <- polls :: Benign(p)
    requires LostCount(s, on, polls) <= lost && HiddenCount(polls) <= hidden
    requires |polls| >= 4 * (lost + 1) + hidden + 1
    ensures Run(s, on, polls) == (Reached, s.desired)
  {
    Converges(s, on, polls);
  }

  /** A Service that plainly reports its state and loses every mutation but the last. */
  function Obstinate(lost: nat): seq<Poll> {
    var p := Poll(false, Answered(Settled), Accepted, lost == 0);
    [p, p, p, p] + if lost == 0 then [] else Obstinate(lost - 1)
  }

  predicate Plain(p: Poll) {
    !p.external && p.status == Answered(Settled) && p.reply == Accepted
  }

  lemma WaitingTurn(s: State, on: bool, p: Poll, rest: seq<Poll>)
    requires Settling(s) && on != s.desired && Plain(p)
    ensures Run(s, on, [p] + rest) == Run(s.(applied := s.applied + 1), on, rest)
    ensures LostCount(s, on, [p] + rest) == LostCount(s.(applied := s.applied + 1), on, rest)
  {
    assert ([p] + rest)[1..] == rest;
  }

  lemma IssuingTurn(s: State, on: bool, p: Poll, rest: seq<Poll>)
    requires s.pending && !s.ambiguous && s.applied == PATIENCE && on != s.desired && Plain(p)
    ensures var nowOn := if p.effective then s.desired else on;
            && Run(s, on, [p] + rest) == Run(s.(applied := 0), nowOn, rest)
            && LostCount(s, on, [p] + rest)
               == (if p.effective then 0 else 1) + LostCount(s.(applied := 0), nowOn, rest)
  {
    assert ([p] + rest)[1..] == rest;
  }

  lemma FourTurns(s: State, on: bool, p: Poll, rest: seq<Poll>)
    requires s.pending && !s.ambiguous && s.applied == 0 && on != s.desired && Plain(p)
    ensures var polls, nowOn := [p] + ([p] + ([p] + ([p] + rest))), if p.effective then s.desired else on;
            && Run(s, on, polls) == Run(s, nowOn, rest)
            && LostCount(s, on, polls) == (if p.effective then 0 else 1) + LostCount(s, nowOn, rest)
  {
    hide Run, LostCount, Plain;
    WaitingTurn(s, on, p, [p] + ([p] + ([p] + rest)));
    WaitingTurn(s.(applied := 1), on, p, [p] + ([p] + rest));
    WaitingTurn(s.(applied := 2), on, p, [p] + rest);
    IssuingTurn(s.(applied := 3), on, p, rest);
    assert s.(applied := 3).(applied := 0) == s;
  }

  /** The bound is exact: one turn fewer may not be enough. */
  lemma {:induction false} BoundIsExact(s: State, on: bool, lost: nat)
    requires s.pending && !s.ambiguous && s.applied == 0 && on != s.desired
    ensures var polls := Obstinate(lost);
            |polls| == 4 * (lost + 1) && Run(s, on, polls) == (OutOfTime, s.desired) && LostCount(s, on, polls) == lost
  {
    var p := Poll(false, Answered(Settled), Accepted, lost == 0);
    var rest := if lost == 0 then [] else Obstinate(lost - 1);
    assert Obstinate(lost) == [p] + ([p] + ([p] + ([p] + rest)));
    FourTurns(s, on, p, rest);
    if lost > 0 {
      BoundIsExact(s, on, lost - 1);
    } else {
      assert Run(s, s.desired, rest) == (OutOfTime, s.desired) && LostCount(s, s.desired, rest) == 0;
    }
  }

  /** A run that says the state was reached is right, whatever the Service and the pipe did before. */
  lemma {:induction false} ReachedIsTrue(s: State, on: bool, polls: seq<Poll>)
    ensures Run(s, on, polls).0 == Reached ==> Run(s, on, polls).1 == s.desired
    decreases |polls|
  {
    if polls != [] && EndAt(s, on, polls[0]).None? {
      ReachedIsTrue(AfterRound(s, RoundOf(polls[0], on)), OnAfter(s, on, polls[0]), polls[1..]);
    }
  }

  /** The Service is never told anything when its TUN already is as wanted or a foreign TUN is present. */
  lemma {:induction false} ReachedIsLeftAlone(s: State, on: bool, polls: seq<Poll>)
    requires on == s.desired
    ensures Run(s, on, polls).1 == on && IssuedCount(s, on, polls) == 0
    decreases |polls|
  {
    if polls != [] && EndAt(s, on, polls[0]).None? {
      ReachedIsLeftAlone(AfterRound(s, RoundOf(polls[0], on)), OnAfter(s, on, polls[0]), polls[1..]);
    }
  }
}
