/**
 The once-initialisation of CL/cl.hpp from other initial words: builds with std::atomic<int> leave the words at 0.
 */
module InitialWords {
  import opened DefaultOnce
  import opened DefaultProgress

  /** Every interleaving of these calls keeps the initialisers exclusive when the words start at `word`. */
  ghost predicate AlwaysExclusive(rt: Runtime, word: int, queues: seq<bool>) {
    forall schedule: seq<nat> | IsSchedule(|queues|, schedule) :: Exclusive(Run(rt, Initial(word, queues), schedule))
  }

  lemma {:induction false} RunAppend(rt: Runtime, s: State, a: seq<nat>, b: seq<nat>)
    requires IsSchedule(|s.calls|, a) && IsSchedule(|s.calls|, b)
    ensures IsSchedule(|s.calls|, a + b)
    ensures Run(rt, s, a + b) == Run(rt, Run(rt, s, a), b)
    decreases a
  {
    assert forall k :: 0 <= k < |a + b| ==> (a + b)[k] == (if k < |a| then a[k] else b[k - |a|]);
    if a == [] {
      assert a + b == b;
    } else {
      assert (a + b)[1..] == a[1..] + b;
      RunAppend(rt, Step(rt, s, a[0]), a[1..], b);
    }
  }

  /** Neither the compare-and-swap nor the two tests of the old word keep a caller out of the initialiser. */
  predicate LetsEveryoneIn(word: int) {
    word != NOT_INITIALIZED && !HasBit(word, INITIALIZED) && !HasBit(word, BEING_INITIALIZED)
  }

  function EntrySchedule(queue: bool, i: nat): seq<nat> {
    if queue then [i, i, i] else [i]
  }

  lemma WalksIn(rt: Runtime, s: State, i: nat)
    requires i < |s.calls| && LetsEveryoneIn(s.context.word) && LetsEveryoneIn(s.queue.word)
    requires s.calls[i] == InContext(Cas) || s.calls[i] == InQueue(Cas)
    ensures var t := Run(rt, s, EntrySchedule(s.calls[i].InQueue?, i));
            && OwnsContext(t.calls[i])
            && t == s.(calls := s.calls[i := t.calls[i]])
  {
    var t := Step(rt, s, i);
    if s.calls[i].InQueue? {
      var u := Step(rt, t, i);
      var v := Step(rt, u, i);
      assert v == s.(calls := s.calls[i := QueueContext(Make)]);
      assert [i, i, i][1..] == [i, i];
      assert [i, i][1..] == [i];
      assert Run(rt, v, []) == v;
      assert Run(rt, u, [i]) == v;
      assert Run(rt, t, [i, i]) == v;
    } else {
      assert t == s.(calls := s.calls[i := InContext(Make)]);
      assert Run(rt, t, []) == t;
    }
  }

  lemma TwoWalkIn(rt: Runtime, word: int, queues: seq<bool>)
    requires LetsEveryoneIn(word) && |queues| >= 2
    ensures !AlwaysExclusive(rt, word, queues)
  {
    var s := Initial(word, queues);
    var a, b := EntrySchedule(queues[0], 0), EntrySchedule(queues[1], 1);
    WalksIn(rt, s, 0);
    var t := Run(rt, s, a);
    WalksIn(rt, t, 1);
    var u := Run(rt, t, b);
    RunAppend(rt, s, a, b);
    assert OwnsContext(u.calls[0]) && OwnsContext(u.calls[1]);
    assert IsSchedule(|queues|, a + b) && !Exclusive(Run(rt, s, a + b));
  }

  /** The words of a build with std::atomic<int>. */
  lemma TwoWalkInFromZero(rt: Runtime, queues: seq<bool>)
    requires |queues| >= 2
    ensures !AlwaysExclusive(rt, 0, queues)
  {
    TwoWalkIn(rt, 0, queues);
  }

  /** The words hold a value that lets nobody in, and nobody is in. */
  predicate Inert(s: State, word: int) {
    && s.context.word == s.queue.word == word
    && forall j :: 0 <= j < |s.calls| ==> !OwnsContext(s.calls[j]) && !OwnsQueue(s.calls[j])
  }

  lemma {:induction false} InertRun(rt: Runtime, s: State, word: int, schedule: seq<nat>)
    requires IsSchedule(|s.calls|, schedule) && Inert(s, word) && word != NOT_INITIALIZED && !LetsEveryoneIn(word)
    ensures Inert(Run(rt, s, schedule), word)
    decreases schedule
  {
    if schedule != [] {
      assert Inert(Step(rt, s, schedule[0]), word);
      InertRun(rt, Step(rt, s, schedule[0]), word, schedule[1..]);
    }
  }

  /** The initialisers are exclusive in every interleaving exactly when the words start at 1, or start with bit 2 or bit 4,
      which keep everybody out, or there is at most one call. */
  lemma ExclusiveExactlyWhen(rt: Runtime, word: int, queues: seq<bool>)
    ensures AlwaysExclusive(rt, word, queues) <==> word == 1 || word % 8 >= 2 || |queues| <= 1
  {
    assert LetsEveryoneIn(word) <==> word != 1 && word % 8 < 2;
    if LetsEveryoneIn(word) && |queues| >= 2 {
      TwoWalkIn(rt, word, queues);
    } else {
      forall schedule: seq<nat> | IsSchedule(|queues|, schedule)
        ensures Exclusive(Run(rt, Initial(word, queues), schedule))
      {
        if word == NOT_INITIALIZED {
          MutualExclusion(rt, Run(rt, Initial(word, queues), schedule));
        } else if !LetsEveryoneIn(word) {
          InertRun(rt, Initial(word, queues), word, schedule);
        }
      }
    }
  }

  /** Nobody but `i` is between its first step and its return. */
  predicate Alone(s: State, i: nat) {
    forall j :: 0 <= j < |s.calls| && j != i ==> !Active(s.calls[j])
  }

  /** Each call runs to its end before another one starts. */
  predicate OneAtATime(rt: Runtime, s: State, schedule: seq<nat>)
    requires IsSchedule(|s.calls|, schedule)
    decreases schedule
  {
    schedule == [] || (Alone(s, schedule[0]) && OneAtATime(rt, Step(rt, s, schedule[0]), schedule[1..]))
  }

  /** What a call knows of a cell whose word started at 0. */
  predicate ZeroPhase(cell: Cell, phase: Phase) {
    && (cell.word == 0 || cell.word == INITIALIZED)
    && !phase.Spin?
    && (Owns(phase) ==> cell.word == 0)
    && (phase.StoreError? ==> cell.value == phase.made.value)
    && (phase.Publish? ==> cell.value == phase.made.value && cell.error == phase.made.error)
    && (phase.ReadError? ==> cell.word == INITIALIZED)
    && (phase.ReadValue? ==> cell.word == INITIALIZED && phase.error == cell.error)
  }

  predicate ZeroCall(s: State, c: Call) {
    match c
    case InContext(p) => ZeroPhase(s.context, p)
    case InQueue(p) => ZeroPhase(s.queue, p)
    case QueueContext(p) => ZeroPhase(s.context, p) && s.queue.word == 0
    case QueueMake(_) => s.queue.word == 0
    case ContextDone(r) => s.context == Cell(INITIALIZED, r.value, r.error)
    case QueueDone(r) => s.queue == Cell(INITIALIZED, r.value, r.error)
  }

  predicate ZeroInv(s: State) {
    && (s.context.word == 0 || s.context.word == INITIALIZED)
    && (s.queue.word == 0 || s.queue.word == INITIALIZED)
    && forall j :: 0 <= j < |s.calls| ==> ZeroCall(s, s.calls[j])
  }

  lemma ZeroStep(rt: Runtime, s: State, i: nat)
    requires i < |s.calls| && ZeroInv(s) && Alone(s, i)
    ensures ZeroInv(Step(rt, s, i))
  {
    var t := Step(rt, s, i);
    assert ZeroCall(s, s.calls[i]);
    forall j | 0 <= j < |t.calls|
      ensures ZeroCall(t, t.calls[j])
    {
      if j != i { assert t.calls[j] == s.calls[j] && ZeroCall(s, s.calls[j]); }
    }
  }

  /** How many entries into the context's initialiser are still possible. */
  function ContextEntriesLeft(s: State): nat {
    if s.context.word == 0 && forall j :: 0 <= j < |s.calls| ==> !OwnsContext(s.calls[j]) then 1 else 0
  }

  function QueueEntriesLeft(s: State): nat {
    if s.queue.word == 0 && forall j :: 0 <= j < |s.calls| ==> !OwnsQueue(s.calls[j]) then 1 else 0
  }

  lemma EntersOnlyFree(rt: Runtime, s: State, i: nat)
    requires i < |s.calls| && ZeroInv(s) && Alone(s, i)
    ensures var t := Step(rt, s, i);
            && ContextEntriesLeft(t) + (if !OwnsContext(s.calls[i]) && OwnsContext(t.calls[i]) then 1 else 0)
               <= ContextEntriesLeft(s)
            && QueueEntriesLeft(t) + (if !OwnsQueue(s.calls[i]) && OwnsQueue(t.calls[i]) then 1 else 0)
               <= QueueEntriesLeft(s)
  {
    var t := Step(rt, s, i);
    assert ZeroCall(s, s.calls[i]);
    assert forall j :: 0 <= j < |t.calls| && j != i ==> t.calls[j] == s.calls[j] && !Active(s.calls[j]);
    assert t.calls[i] == Step(rt, s, i).calls[i];
  }

  lemma {:induction false} ZeroRun(rt: Runtime, s: State, schedule: seq<nat>)
    requires IsSchedule(|s.calls|, schedule) && ZeroInv(s) && OneAtATime(rt, s, schedule)
    ensures ZeroInv(Run(rt, s, schedule))
    ensures ContextEntries(rt, s, schedule) <= ContextEntriesLeft(s)
    ensures QueueEntries(rt, s, schedule) <= QueueEntriesLeft(s)
    decreases schedule
  {
    if schedule != [] {
      ZeroStep(rt, s, schedule[0]);
      EntersOnlyFree(rt, s, schedule[0]);
      ZeroRun(rt, Step(rt, s, schedule[0]), schedule[1..]);
    }
  }

  /** With the words at 0, calls that never overlap still initialise once and all return the same. */
  lemma OneAtATimeFromZero(rt: Runtime, queues: seq<bool>, schedule: seq<nat>)
    requires IsSchedule(|queues|, schedule) && OneAtATime(rt, Initial(0, queues), schedule)
    ensures ContextEntries(rt, Initial(0, queues), schedule) <= 1
    ensures QueueEntries(rt, Initial(0, queues), schedule) <= 1
    ensures var t := Run(rt, Initial(0, queues), schedule);
            forall i :: 0 <= i < |queues| ==>
              && (t.calls[i].ContextDone? ==> t.context == Cell(INITIALIZED, t.calls[i].result.value, t.calls[i].result.error))
              && (t.calls[i].QueueDone? ==> t.queue == Cell(INITIALIZED, t.calls[i].result.value, t.calls[i].result.error))
  {
    var s := Initial(0, queues);
    ZeroRun(rt, s, schedule);
    var t := Run(rt, s, schedule);
    assert forall i :: 0 <= i < |queues| ==> ZeroCall(t, t.calls[i]);
  }

  /** `n` steps of call `i` in a row. */
  function Turns(i: nat, n: nat): seq<nat> {
    if n == 0 then [] else [i] + Turns(i, n - 1)
  }

  lemma {:induction false} TurnsFinish(rt: Runtime, s: State, i: nat, n: nat)
    requires i < |s.calls| && ZeroInv(s) && Alone(s, i) && Rank(s.calls[i]) <= n
    ensures IsSchedule(|s.calls|, Turns(i, n)) && Finished(Run(rt, s, Turns(i, n)).calls[i])
    decreases n
  {
    assert ZeroCall(s, s.calls[i]);
    if n > 0 {
      var t := Step(rt, s, i);
      ZeroStep(rt, s, i);
      MoverComesNearer(rt, s, i);
      if !Finished(s.calls[i]) { MovesUnlessSpinning(rt, s, i); }
      TurnsFinish(rt, t, i, n - 1);
      assert Turns(i, n)[1..] == Turns(i, n - 1);
    }
  }

  /** With the words at 0, a call that runs while no other is under way returns after fifteen steps at most. */
  lemma AloneReturns(rt: Runtime, queues: seq<bool>, schedule: seq<nat>, i: nat)
    requires IsSchedule(|queues|, schedule) && OneAtATime(rt, Initial(0, queues), schedule) && i < |queues|
    requires Alone(Run(rt, Initial(0, queues), schedule), i)
    ensures IsSchedule(|queues|, Turns(i, 15))
    ensures var t := Run(rt, Run(rt, Initial(0, queues), schedule), Turns(i, 15)); t.calls[i].ContextDone? || t.calls[i].QueueDone?
  {
    ZeroRun(rt, Initial(0, queues), schedule);
    TurnsFinish(rt, Run(rt, Initial(0, queues), schedule), i, 15);
  }
}
