/**
 Progress of the once-initialisation in CL/cl.hpp: no deadlock, and termination under every fair schedule.
 */
module DefaultProgress {
  import opened DefaultOnce

  predicate Finished(c: Call) {
    c.ContextDone? || c.QueueDone?
  }

  /** The call has taken its first step and has not returned. */
  predicate Active(c: Call) {
    !Finished(c) && c != InContext(Cas) && c != InQueue(Cas)
  }

  /** A step of call `i` now would change the state: `i` has not returned and does not spin in vain. */
  predicate Moves(rt: Runtime, s: State, i: nat)
    requires i < |s.calls|
  {
    Step(rt, s, i) != s
  }

  /** Only a finished call and a spin whose test fails do not move. */
  lemma MovesUnlessSpinning(rt: Runtime, s: State, i: nat)
    requires i < |s.calls|
    requires !Finished(s.calls[i])
    requires (s.calls[i].InContext? || s.calls[i].QueueContext?) && s.calls[i].phase.Spin? ==> s.context.word == INITIALIZED
    requires s.calls[i].InQueue? && s.calls[i].phase.Spin? ==> s.queue.word == INITIALIZED
    ensures Moves(rt, s, i)
  {
    assert Step(rt, s, i).calls[i] != s.calls[i];
  }

  /** A call that spins on the context waits for a call that can move. */
  lemma ContextOwnerMoves(rt: Runtime, s: State, o: int) returns (i: nat)
    requires ContextInv(rt, s, o) && s.context.word == BEING_INITIALIZED
    ensures i < |s.calls| && Active(s.calls[i]) && Moves(rt, s, i)
  {
    i := o;
    assert OwnsContext(s.calls[i]);
    MovesUnlessSpinning(rt, s, i);
  }

  /** The two protocols cannot deadlock: among the calls under way, if there are any, one can move. A call waiting
      for the queue depends on the queue's initialiser, which can only be waiting for the context's initialiser. */
  lemma NoDeadlock(rt: Runtime, s: State, i: nat) returns (j: nat)
    requires Inv(rt, s) && i < |s.calls| && Active(s.calls[i])
    ensures j < |s.calls| && Active(s.calls[j]) && Moves(rt, s, j)
  {
    var oc, oq :| ContextInv(rt, s, oc) && QueueInv(rt, s, oq);
    j := i;
    assert ContextCall(rt, s, j) && QueueCall(rt, s, j);
    if s.calls[j].InQueue? && s.calls[j].phase.Spin? && s.queue.word != INITIALIZED {
      j := oq;
      assert OwnsQueue(s.calls[j]) && ContextCall(rt, s, j);
    }
    if (s.calls[j].InContext? || s.calls[j].QueueContext?) && s.calls[j].phase.Spin? && s.context.word != INITIALIZED {
      j := ContextOwnerMoves(rt, s, oc);
    } else {
      MovesUnlessSpinning(rt, s, j);
    }
  }

  /** How many steps a call in this phase still has ahead of it at most. */
  function PhaseRank(phase: Phase): nat {
    match phase
    case Cas => 7
    case Make => 6
    case StoreValue(_) => 5
    case StoreError(_) => 4
    case Publish(_) => 3
    case Spin => 3
    case ReadError => 2
    case ReadValue(_) => 1
  }

  function Rank(c: Call): nat {
    match c
    case InContext(p) => PhaseRank(p)
    case InQueue(Cas) => 15
    case InQueue(Make) => 14
    case InQueue(p) => PhaseRank(p)
    case QueueContext(p) => 6 + PhaseRank(p)
    case QueueMake(_) => 6
    case ContextDone(_) => 0
    case QueueDone(_) => 0
  }

  function Measure(calls: seq<Call>): nat {
    if calls == [] then 0 else Rank(calls[0]) + Measure(calls[1..])
  }

  lemma {:induction false} MeasureUpdate(calls: seq<Call>, i: nat, c: Call)
    requires i < |calls|
    ensures Measure(calls[i := c]) == Measure(calls) - Rank(calls[i]) + Rank(c)
  {
    if i == 0 {
      assert calls[0 := c][1..] == calls[1..];
    } else {
      assert calls[i := c][1..] == calls[1..][i - 1 := c];
      MeasureUpdate(calls[1..], i - 1, c);
    }
  }

  lemma {:induction false} MeasureBound(calls: seq<Call>)
    ensures Measure(calls) <= 15 * |calls|
  {
    if calls != [] { MeasureBound(calls[1..]); }
  }

  /** Only the call that moves changes, and it comes nearer to its end. */
  lemma MoverComesNearer(rt: Runtime, s: State, i: nat)
    requires i < |s.calls|
    ensures var t := Step(rt, s, i);
            && t.calls == s.calls[i := t.calls[i]]
            && (t != s ==> Rank(t.calls[i]) < Rank(s.calls[i]))
  {
  }

  /** Every step that changes anything lowers the measure. */
  lemma MoveLowersMeasure(rt: Runtime, s: State, i: nat)
    requires i < |s.calls|
    ensures if Moves(rt, s, i) then Measure(Step(rt, s, i).calls) < Measure(s.calls) else Step(rt, s, i) == s
  {
    MoverComesNearer(rt, s, i);
    MeasureUpdate(s.calls, i, Step(rt, s, i).calls[i]);
  }

  lemma {:induction false} MeasureRun(rt: Runtime, s: State, schedule: seq<nat>)
    requires IsSchedule(|s.calls|, schedule)
    ensures Measure(Run(rt, s, schedule).calls) <= Measure(s.calls)
    decreases schedule
  {
    if schedule != [] {
      MoveLowersMeasure(rt, s, schedule[0]);
      MeasureRun(rt, Step(rt, s, schedule[0]), schedule[1..]);
    }
  }

  /** The number of steps of a run that are neither vain spins nor steps of finished calls. */
  function MovesIn(rt: Runtime, s: State, schedule: seq<nat>): nat
    requires IsSchedule(|s.calls|, schedule)
    decreases schedule
  {
    if schedule == [] then 0
    else (if Moves(rt, s, schedule[0]) then 1 else 0) + MovesIn(rt, Step(rt, s, schedule[0]), schedule[1..])
  }

  lemma {:induction false} MovesBoundedBy(rt: Runtime, s: State, schedule: seq<nat>)
    requires IsSchedule(|s.calls|, schedule)
    ensures MovesIn(rt, s, schedule) + Measure(Run(rt, s, schedule).calls) <= Measure(s.calls)
    decreases schedule
  {
    if schedule != [] {
      MoveLowersMeasure(rt, s, schedule[0]);
      MovesBoundedBy(rt, Step(rt, s, schedule[0]), schedule[1..]);
    }
  }

  /** Whatever the interleaving, all the calls together make at most fifteen non-spinning steps each. */
  lemma MovesAreBounded(rt: Runtime, s: State, schedule: seq<nat>)
    requires IsSchedule(|s.calls|, schedule)
    ensures MovesIn(rt, s, schedule) <= 15 * |s.calls|
  {
    MovesBoundedBy(rt, s, schedule);
    MeasureBound(s.calls);
  }

  /** A stretch of the schedule in which every call gets a turn. */
  predicate Round(n: nat, round: seq<nat>) {
    IsSchedule(n, round) && forall i: nat :: i < n ==> i in round
  }

  function RunRounds(rt: Runtime, s: State, rounds: seq<seq<nat>>): (t: State)
    requires forall k :: 0 <= k < |rounds| ==> Round(|s.calls|, rounds[k])
    ensures |t.calls| == |s.calls|
    decreases rounds
  {
    if rounds == [] then s
    else
      assert Round(|s.calls|, rounds[0]);
      RunRounds(rt, Run(rt, s, rounds[0]), rounds[1..])
  }

  /** A call that can move at the start of a stretch that gives it a turn makes that stretch lower the measure. */
  lemma {:induction false} TurnLowersMeasure(rt: Runtime, s: State, i: nat, schedule: seq<nat>)
    requires IsSchedule(|s.calls|, schedule) && i < |s.calls| && i in schedule && Moves(rt, s, i)
    ensures Measure(Run(rt, s, schedule).calls) < Measure(s.calls)
    decreases schedule
  {
    MoveLowersMeasure(rt, s, schedule[0]);
    if Moves(rt, s, schedule[0]) {
      MeasureRun(rt, Step(rt, s, schedule[0]), schedule[1..]);
    } else {
      TurnLowersMeasure(rt, s, i, schedule[1..]);
    }
  }

  lemma RoundMakesProgress(rt: Runtime, s: State, round: seq<nat>, i: nat)
    requires Inv(rt, s) && Round(|s.calls|, round) && i < |s.calls| && !Finished(s.calls[i])
    ensures Measure(Run(rt, s, round).calls) < Measure(s.calls)
  {
    var j := i;
    if Active(s.calls[i]) {
      j := NoDeadlock(rt, s, i);
    } else {
      MovesUnlessSpinning(rt, s, j);
    }
    TurnLowersMeasure(rt, s, j, round);
  }

  lemma {:induction false} ZeroMeasureFinished(calls: seq<Call>)
    requires Measure(calls) == 0
    ensures forall i :: 0 <= i < |calls| ==> Finished(calls[i])
  {
    if calls != [] {
      ZeroMeasureFinished(calls[1..]);
      assert forall i :: 1 <= i < |calls| ==> calls[i] == calls[1..][i - 1];
    }
  }

  lemma {:induction false} FinishedZeroMeasure(calls: seq<Call>)
    requires forall i :: 0 <= i < |calls| ==> Finished(calls[i])
    ensures Measure(calls) == 0
  {
    if calls != [] { FinishedZeroMeasure(calls[1..]); }
  }

  lemma {:induction false} RoundsFinish(rt: Runtime, s: State, rounds: seq<seq<nat>>)
    requires Inv(rt, s) && |rounds| >= Measure(s.calls)
    requires forall k :: 0 <= k < |rounds| ==> Round(|s.calls|, rounds[k])
    ensures forall i :: 0 <= i < |s.calls| ==> Finished(RunRounds(rt, s, rounds).calls[i])
    decreases rounds
  {
    if rounds == [] {
      ZeroMeasureFinished(s.calls);
    } else {
      var t := Run(rt, s, rounds[0]);
      InvRun(rt, s, rounds[0]);
      MeasureRun(rt, s, rounds[0]);
      if i :| 0 <= i < |s.calls| && !Finished(s.calls[i]) {
        RoundMakesProgress(rt, s, rounds[0], i);
      } else {
        FinishedZeroMeasure(s.calls);
      }
      RoundsFinish(rt, t, rounds[1..]);
    }
  }

  /** Every fair schedule ends: after as many rounds as there are steps to make, every call has returned. */
  lemma EveryCallReturns(rt: Runtime, queues: seq<bool>, rounds: seq<seq<nat>>)
    requires |rounds| >= 15 * |queues|
    requires forall k :: 0 <= k < |rounds| ==> Round(|queues|, rounds[k])
    ensures var t := RunRounds(rt, Initial(NOT_INITIALIZED, queues), rounds);
            |t.calls| == |queues| && forall i :: 0 <= i < |queues| ==> t.calls[i].ContextDone? || t.calls[i].QueueDone?
  {
    var s := Initial(NOT_INITIALIZED, queues);
    InitialInv(rt, queues);
    MeasureBound(s.calls);
    RoundsFinish(rt, s, rounds);
  }
}
