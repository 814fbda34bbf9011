/**
 The once-initialisation of `Context::default_` and `CommandQueue::default_` in CL/cl.hpp.

 Each class has a state word that moves from 1 (not initialised) through 2 (being initialised) to
 4 (initialised) under compare-and-swap. The caller whose compare-and-swap wins builds the default and
 publishes it; the others spin on the word. The queue's initialiser runs the whole context protocol inside
 its own. The model has any number of calls, one shared-memory access per step, and sequential consistency.
 A step of a given call is a function of the state, so an interleaving is a schedule: a sequence of call numbers.
 */
module DefaultOnce {

  type Handle = nat

  const NULL: Handle := 0
  const SUCCESS := 0

  const NOT_INITIALIZED := 1
  const BEING_INITIALIZED := 2
  const INITIALIZED := 4

  /** What a constructor of the OpenCL runtime gives back: a handle and an error code. */
  datatype Outcome = Outcome(value: Handle, error: int)

  /** The three statics of a class: `default_initialized_`, `default_` and `default_error_`. */
  datatype Cell = Cell(word: int, value: Handle, error: int)

  /** Where a call stands in `getDefault` of one class. */
  datatype Phase =
    | Cas                                   // about to compare-and-swap the word
    | Spin                                  // lost: testing the word in the while loop
    | Make                                  // won: about to build the object
    | StoreValue(made: Outcome)             // about to assign default_
    | StoreError(made: Outcome)             // about to assign default_error_
    | Publish(made: Outcome)                // about to assign the word
    | ReadError                             // about to copy default_error_ to the caller
    | ReadValue(error: int)                 // about to copy default_ to the caller

  /** A call of `Context::getDefault` or `CommandQueue::getDefault`. */
  datatype Call =
    | InContext(phase: Phase)               // called directly
    | InQueue(phase: Phase)                 // outside the queue's initialiser, or past its nested part
    | QueueContext(phase: Phase)            // in the queue's initialiser, inside Context::getDefault
    | QueueMake(context: Handle)            // in the queue's initialiser, about to build the queue
    | ContextDone(result: Outcome)
    | QueueDone(result: Outcome)

  datatype State = State(context: Cell, queue: Cell, calls: seq<Call>)

  /** The runtime's answers: call `i` would get `context(i)` from the context constructor, and `queue(i, c)` from
      building a queue on the first device of context `c`. Each is asked for at most once by a call. */
  datatype Runtime = Runtime(context: nat -> Outcome, queue: (nat, Handle) -> Outcome)

  /** `word & mask` for a power of two `mask`. */
  predicate HasBit(word: int, mask: int)
    requires mask > 0
  {
    word / mask % 2 == 1
  }

  /** `compare_exchange(&word, BEING_INITIALIZED, NOT_INITIALIZED)` as it leaves the word; it returns the old one. */
  function Exchanged(word: int): int {
    if word == NOT_INITIALIZED then BEING_INITIALIZED else word
  }

  /** Where the old word sends the caller. */
  function AfterCas(state: int): Phase {
    if HasBit(state, INITIALIZED) then ReadError
    else if HasBit(state, BEING_INITIALIZED) then Spin
    else Make
  }

  /** One step of `getDefault` on its own cell, for every phase but Make and ReadValue. */
  function CellStep(cell: Cell, phase: Phase): (Cell, Phase)
    requires !phase.Make? && !phase.ReadValue?
  {
    match phase
    case Cas => (cell.(word := Exchanged(cell.word)), AfterCas(cell.word))
    case Spin => (cell, if cell.word == INITIALIZED then ReadError else Spin)
    case StoreValue(made) => (cell.(value := made.value), StoreError(made))
    case StoreError(made) => (cell.(error := made.error), Publish(made))
    case Publish(_) => (cell.(word := INITIALIZED), ReadError)
    case ReadError => (cell, ReadValue(cell.error))
  }

  /** One step of call `i`. A finished call and a caller whose spin test fails leave the state as it is. */
  function Step(rt: Runtime, s: State, i: nat): State
    requires i < |s.calls|
  {
    match s.calls[i]
    case InContext(Make) => s.(calls := s.calls[i := InContext(StoreValue(rt.context(i)))])
    case InContext(ReadValue(e)) => s.(calls := s.calls[i := ContextDone(Outcome(s.context.value, e))])
    case InContext(phase) =>
      var (cell, next) := CellStep(s.context, phase);
      s.(context := cell, calls := s.calls[i := InContext(next)])

    case QueueContext(Make) => s.(calls := s.calls[i := QueueContext(StoreValue(rt.context(i)))])
    case QueueContext(ReadValue(e)) =>
      // Context::getDefault returns to the queue's initialiser, which skips the queue if the context failed.
      if e != SUCCESS then s.(calls := s.calls[i := InQueue(StoreError(Outcome(s.queue.value, e)))])
      else s.(calls := s.calls[i := QueueMake(s.context.value)])
    case QueueContext(phase) =>
      var (cell, next) := CellStep(s.context, phase);
      s.(context := cell, calls := s.calls[i := QueueContext(next)])

    case QueueMake(c) => s.(calls := s.calls[i := InQueue(StoreValue(rt.queue(i, c)))])

    case InQueue(Make) => s.(calls := s.calls[i := QueueContext(Cas)])
    case InQueue(ReadValue(e)) => s.(calls := s.calls[i := QueueDone(Outcome(s.queue.value, e))])
    case InQueue(phase) =>
      var (cell, next) := CellStep(s.queue, phase);
      s.(queue := cell, calls := s.calls[i := InQueue(next)])

    case ContextDone(_) => s
    case QueueDone(_) => s
  }

  predicate IsSchedule(n: nat, schedule: seq<nat>) {
    forall k :: 0 <= k < |schedule| ==> schedule[k] < n
  }

  /** The state after the calls have taken their steps in the order of `schedule`. */
  function Run(rt: Runtime, s: State, schedule: seq<nat>): (t: State)
    requires IsSchedule(|s.calls|, schedule)
    ensures |t.calls| == |s.calls|
    decreases schedule
  {
    if schedule == [] then s
    else
      assert forall k :: 0 <= k < |schedule[1..]| ==> schedule[1..][k] == schedule[k + 1];
      Run(rt, Step(rt, s, schedule[0]), schedule[1..])
  }

  /** Nothing has been called yet: call `i` is about to enter the queue's `getDefault` if `queues[i]`,
      and the context's otherwise. Both words start at `word`. */
  function Initial(word: int, queues: seq<bool>): (s: State)
    ensures |s.calls| == |queues|
  {
    State(Cell(word, NULL, SUCCESS), Cell(word, NULL, SUCCESS),
          seq(|queues|, i requires 0 <= i < |queues| => if queues[i] then InQueue(Cas) else InContext(Cas)))
  }

  // ---------------------------------------------------------------------------------------------------------
  // The invariant
  // ---------------------------------------------------------------------------------------------------------

  /** The phases of the initialiser. */
  predicate Owns(phase: Phase) {
    phase.Make? || phase.StoreValue? || phase.StoreError? || phase.Publish?
  }

  /** The call is inside the context's initialiser. */
  predicate OwnsContext(c: Call) {
    (c.InContext? || c.QueueContext?) && Owns(c.phase)
  }

  /** The call is inside the queue's initialiser. */
  predicate OwnsQueue(c: Call) {
    c.QueueContext? || c.QueueMake? || (c.InQueue? && Owns(c.phase))
  }

  /** What the owner's phase says about its cell. */
  predicate OwnerCell(cell: Cell, phase: Phase) {
    && cell.word == BEING_INITIALIZED
    && match phase
       case StoreError(made) => cell.value == made.value && cell.error == SUCCESS
       case Publish(made) => cell.value == made.value && cell.error == made.error
       case _ => cell.value == NULL && cell.error == SUCCESS
  }

  /** What a caller that is no owner knows about the cell. */
  predicate ReaderCell(cell: Cell, phase: Phase) {
    match phase
    case Spin => cell.word != NOT_INITIALIZED
    case ReadError => cell.word == INITIALIZED
    case ReadValue(e) => cell.word == INITIALIZED && e == cell.error
    case _ => true
  }

  predicate IdleCell(cell: Cell) {
    cell == Cell(NOT_INITIALIZED, NULL, SUCCESS) || cell.word == INITIALIZED
  }

  /** The object in hand while it is being stored. */
  predicate Holding(phase: Phase, made: Outcome) {
    (phase.StoreValue? || phase.StoreError? || phase.Publish?) ==> phase.made == made
  }

  predicate ContextCall(rt: Runtime, s: State, i: nat)
    requires i < |s.calls|
  {
    match s.calls[i]
    case InContext(p) => ReaderCell(s.context, p) && Holding(p, rt.context(i))
    case QueueContext(p) => ReaderCell(s.context, p) && Holding(p, rt.context(i))
    case ContextDone(r) => s.context == Cell(INITIALIZED, r.value, r.error)
    case _ => true
  }

  /** The context protocol with owner `o`; -1 when no call owns it. */
  predicate ContextInv(rt: Runtime, s: State, o: int) {
    && -1 <= o < |s.calls|
    && (forall j :: 0 <= j < |s.calls| ==> (OwnsContext(s.calls[j]) <==> j == o))
    && (if o == -1 then IdleCell(s.context) else OwnerCell(s.context, s.calls[o].phase))
    && (forall j :: 0 <= j < |s.calls| ==> ContextCall(rt, s, j))
    && (s.context.word == INITIALIZED ==>
          exists j: nat :: j < |s.calls| && rt.context(j) == Outcome(s.context.value, s.context.error))
  }

  /** `made` is what the queue's initialiser, run by call `i`, must store given the published context. */
  predicate FromContext(rt: Runtime, context: Cell, i: nat, made: Outcome) {
    && context.word == INITIALIZED
    && made == if context.error != SUCCESS then Outcome(NULL, context.error) else rt.queue(i, context.value)
  }

  predicate QueueCall(rt: Runtime, s: State, i: nat)
    requires i < |s.calls|
  {
    match s.calls[i]
    case InQueue(p) =>
      && ReaderCell(s.queue, p)
      && (p.StoreValue? || p.StoreError? || p.Publish? ==> FromContext(rt, s.context, i, p.made))
    case QueueMake(c) => s.context == Cell(INITIALIZED, c, SUCCESS)
    case QueueDone(r) => s.queue == Cell(INITIALIZED, r.value, r.error)
    case _ => true
  }

  /** What the queue's owner says about the queue's cell. */
  predicate QueueOwnerCell(cell: Cell, c: Call) {
    OwnerCell(cell, if c.InQueue? then c.phase else Make)
  }

  predicate QueueInv(rt: Runtime, s: State, o: int) {
    && -1 <= o < |s.calls|
    && (forall j :: 0 <= j < |s.calls| ==> (OwnsQueue(s.calls[j]) <==> j == o))
    && (if o == -1 then IdleCell(s.queue) else QueueOwnerCell(s.queue, s.calls[o]))
    && (forall j :: 0 <= j < |s.calls| ==> QueueCall(rt, s, j))
    && (s.queue.word == INITIALIZED ==>
          exists j: nat :: j < |s.calls| && FromContext(rt, s.context, j, Outcome(s.queue.value, s.queue.error)))
  }

  /** Who owns the context's cell after call `i` moves. */
  function NextContextOwner(s: State, o: int, i: nat): int
    requires i < |s.calls|
  {
    var c := s.calls[i];
    if (c.InContext? || c.QueueContext?) && c.phase.Cas? && s.context.word == NOT_INITIALIZED then i
    else if (c.InContext? || c.QueueContext?) && c.phase.Publish? then -1
    else o
  }

  function NextQueueOwner(s: State, o: int, i: nat): int
    requires i < |s.calls|
  {
    var c := s.calls[i];
    if c.InQueue? && c.phase.Cas? && s.queue.word == NOT_INITIALIZED then i
    else if c.InQueue? && c.phase.Publish? then -1
    else o
  }

  lemma ContextInvStep(rt: Runtime, s: State, o: int, i: nat)
    requires i < |s.calls| && ContextInv(rt, s, o)
    ensures ContextInv(rt, Step(rt, s, i), NextContextOwner(s, o, i))
  {
    var t := Step(rt, s, i);
    var o' := NextContextOwner(s, o, i);
    assert ContextCall(rt, s, i);
    assert OwnsContext(s.calls[i]) <==> i == o;
    assert forall j :: 0 <= j < |t.calls| && j != i ==> t.calls[j] == s.calls[j] && ContextCall(rt, s, j);
    if t.context.word == INITIALIZED && s.context.word != INITIALIZED {
      assert rt.context(i) == Outcome(t.context.value, t.context.error);
    }
  }

  /** A published context is never written again. */
  lemma ContextFrozenStep(rt: Runtime, s: State, o: int, i: nat)
    requires i < |s.calls| && ContextInv(rt, s, o) && s.context.word == INITIALIZED
    ensures Step(rt, s, i).context == s.context
  {
    assert OwnsContext(s.calls[i]) <==> i == o;
  }

  /** A published queue is never written again. */
  lemma QueueFrozenStep(rt: Runtime, s: State, o: int, i: nat)
    requires i < |s.calls| && QueueInv(rt, s, o) && s.queue.word == INITIALIZED
    ensures Step(rt, s, i).queue == s.queue
  {
    assert OwnsQueue(s.calls[i]) <==> i == o;
  }

  /** The call that moves keeps its part of the queue protocol. */
  lemma QueueMoverStep(rt: Runtime, s: State, oc: int, o: int, i: nat)
    requires i < |s.calls| && ContextInv(rt, s, oc) && QueueInv(rt, s, o)
    ensures QueueCall(rt, Step(rt, s, i), i)
    ensures OwnsQueue(Step(rt, s, i).calls[i]) <==> i == NextQueueOwner(s, o, i)
    ensures i == NextQueueOwner(s, o, i) ==> QueueOwnerCell(Step(rt, s, i).queue, Step(rt, s, i).calls[i])
    ensures i != NextQueueOwner(s, o, i) && i == o ==> Step(rt, s, i).queue.word == INITIALIZED
    ensures i != o ==> Step(rt, s, i).queue == s.queue || i == NextQueueOwner(s, o, i)
  {
    assert ContextCall(rt, s, i) && QueueCall(rt, s, i);
    assert OwnsQueue(s.calls[i]) <==> i == o;
  }

  /** The calls that do not move keep their part of the queue protocol. */
  lemma QueueOtherStep(rt: Runtime, s: State, oc: int, o: int, i: nat, j: nat)
    requires i < |s.calls| && j < |s.calls| && i != j && ContextInv(rt, s, oc) && QueueInv(rt, s, o)
    ensures QueueCall(rt, Step(rt, s, i), j)
  {
    var t := Step(rt, s, i);
    assert t.calls[j] == s.calls[j] && QueueCall(rt, s, j);
    if s.context.word == INITIALIZED { ContextFrozenStep(rt, s, oc, i); }
    if s.queue.word == INITIALIZED { QueueFrozenStep(rt, s, o, i); }
    assert OwnsQueue(s.calls[j]) <==> j == o;
    assert OwnsQueue(s.calls[i]) <==> i == o;
  }

  lemma QueuePublishedStep(rt: Runtime, s: State, oc: int, o: int, i: nat)
    requires i < |s.calls| && ContextInv(rt, s, oc) && QueueInv(rt, s, o)
    ensures var t := Step(rt, s, i);
            t.queue.word == INITIALIZED ==>
              exists j: nat :: j < |t.calls| && FromContext(rt, t.context, j, Outcome(t.queue.value, t.queue.error))
  {
    var t := Step(rt, s, i);
    if s.queue.word == INITIALIZED {
      QueueFrozenStep(rt, s, o, i);
      ContextFrozenStep(rt, s, oc, i);
    } else if t.queue.word == INITIALIZED {
      assert QueueCall(rt, s, i) && (OwnsQueue(s.calls[i]) <==> i == o);
      assert FromContext(rt, t.context, i, Outcome(t.queue.value, t.queue.error));
    }
  }

  lemma QueueInvStep(rt: Runtime, s: State, oc: int, o: int, i: nat)
    requires i < |s.calls| && ContextInv(rt, s, oc) && QueueInv(rt, s, o)
    ensures QueueInv(rt, Step(rt, s, i), NextQueueOwner(s, o, i))
  {
    var t := Step(rt, s, i);
    QueueMoverStep(rt, s, oc, o, i);
    QueuePublishedStep(rt, s, oc, o, i);
    forall j | 0 <= j < |t.calls| && j != i
      ensures QueueCall(rt, t, j) && t.calls[j] == s.calls[j]
    {
      QueueOtherStep(rt, s, oc, o, i, j);
    }
  }

  // ---------------------------------------------------------------------------------------------------------
  // Safety of every run that starts with the words at 1
  // ---------------------------------------------------------------------------------------------------------

  ghost predicate Inv(rt: Runtime, s: State) {
    exists oc, oq :: ContextInv(rt, s, oc) && QueueInv(rt, s, oq)
  }

  /** Some schedule leads from the start of some set of calls to `s`. */
  ghost predicate Reachable(rt: Runtime, s: State) {
    exists queues: seq<bool>, schedule: seq<nat> ::
      IsSchedule(|queues|, schedule) && s == Run(rt, Initial(NOT_INITIALIZED, queues), schedule)
  }

  lemma InvStep(rt: Runtime, s: State, i: nat)
    requires i < |s.calls| && Inv(rt, s)
    ensures Inv(rt, Step(rt, s, i))
  {
    var oc, oq :| ContextInv(rt, s, oc) && QueueInv(rt, s, oq);
    ContextInvStep(rt, s, oc, i);
    QueueInvStep(rt, s, oc, oq, i);
  }

  lemma {:induction false} InvRun(rt: Runtime, s: State, schedule: seq<nat>)
    requires IsSchedule(|s.calls|, schedule) && Inv(rt, s)
    ensures Inv(rt, Run(rt, s, schedule))
    decreases schedule
  {
    if schedule != [] {
      InvStep(rt, s, schedule[0]);
      InvRun(rt, Step(rt, s, schedule[0]), schedule[1..]);
    }
  }

  lemma InitialInv(rt: Runtime, queues: seq<bool>)
    ensures ContextInv(rt, Initial(NOT_INITIALIZED, queues), -1)
    ensures QueueInv(rt, Initial(NOT_INITIALIZED, queues), -1)
    ensures Inv(rt, Initial(NOT_INITIALIZED, queues))
  {
    var s := Initial(NOT_INITIALIZED, queues);
    assert ContextInv(rt, s, -1) && QueueInv(rt, s, -1);
  }

  lemma InvReachable(rt: Runtime, s: State)
    requires Reachable(rt, s)
    ensures Inv(rt, s)
  {
    var queues, schedule :| IsSchedule(|queues|, schedule) && s == Run(rt, Initial(NOT_INITIALIZED, queues), schedule);
    InitialInv(rt, queues);
    InvRun(rt, Initial(NOT_INITIALIZED, queues), schedule);
  }

  /** Two different calls are never inside the same initialiser. */
  predicate Exclusive(s: State) {
    forall i, j :: 0 <= i < j < |s.calls| ==>
      && !(OwnsContext(s.calls[i]) && OwnsContext(s.calls[j]))
      && !(OwnsQueue(s.calls[i]) && OwnsQueue(s.calls[j]))
  }

  lemma MutualExclusion(rt: Runtime, s: State)
    requires Reachable(rt, s)
    ensures Exclusive(s)
  {
    InvReachable(rt, s);
  }

  predicate Advances(before: int, after: int) {
    || (before == after && before in {NOT_INITIALIZED, BEING_INITIALIZED, INITIALIZED})
    || (before == NOT_INITIALIZED && after == BEING_INITIALIZED)
    || (before == BEING_INITIALIZED && after == INITIALIZED)
  }

  lemma ContextWordStep(rt: Runtime, s: State, o: int, i: nat)
    requires ContextInv(rt, s, o) && i < |s.calls|
    ensures Advances(s.context.word, Step(rt, s, i).context.word)
  {
    assert OwnsContext(s.calls[i]) <==> i == o;
  }

  lemma QueueWordStep(rt: Runtime, s: State, o: int, i: nat)
    requires QueueInv(rt, s, o) && i < |s.calls|
    ensures Advances(s.queue.word, Step(rt, s, i).queue.word)
  {
    assert OwnsQueue(s.calls[i]) <==> i == o;
  }

  /** In every run both words only move from 1 to 2 and from 2 to 4. */
  lemma WordsAdvance(rt: Runtime, s: State, i: nat)
    requires Reachable(rt, s) && i < |s.calls|
    ensures Advances(s.context.word, Step(rt, s, i).context.word)
    ensures Advances(s.queue.word, Step(rt, s, i).queue.word)
  {
    InvReachable(rt, s);
    var oc, oq :| ContextInv(rt, s, oc) && QueueInv(rt, s, oq);
    ContextWordStep(rt, s, oc, i);
    QueueWordStep(rt, s, oq, i);
  }

  /** No call returns before publication, and every call returns what the class holds: the context is the one some
      call's constructor built, and the queue was built on that context, or reports that context's error. */
  lemma ReturnsAgree(rt: Runtime, s: State)
    requires Reachable(rt, s)
    ensures forall i :: 0 <= i < |s.calls| && s.calls[i].ContextDone? ==>
              s.context == Cell(INITIALIZED, s.calls[i].result.value, s.calls[i].result.error)
    ensures forall i :: 0 <= i < |s.calls| && s.calls[i].QueueDone? ==>
              s.queue == Cell(INITIALIZED, s.calls[i].result.value, s.calls[i].result.error)
    ensures s.context.word == INITIALIZED ==>
              exists j: nat :: j < |s.calls| && rt.context(j) == Outcome(s.context.value, s.context.error)
    ensures s.queue.word == INITIALIZED ==>
              && s.context.word == INITIALIZED
              && (s.context.error != SUCCESS ==> s.queue.value == NULL && s.queue.error == s.context.error)
              && (s.context.error == SUCCESS ==>
                    exists j: nat :: j < |s.calls| && rt.queue(j, s.context.value) == Outcome(s.queue.value, s.queue.error))
  {
    InvReachable(rt, s);
    var oc, oq :| ContextInv(rt, s, oc) && QueueInv(rt, s, oq);
    forall i | 0 <= i < |s.calls| && s.calls[i].ContextDone?
      ensures s.context == Cell(INITIALIZED, s.calls[i].result.value, s.calls[i].result.error)
    {
      assert ContextCall(rt, s, i);
    }
    forall i | 0 <= i < |s.calls| && s.calls[i].QueueDone?
      ensures s.queue == Cell(INITIALIZED, s.calls[i].result.value, s.calls[i].result.error)
    {
      assert QueueCall(rt, s, i);
    }
  }

  lemma {:induction false} FrozenRun(rt: Runtime, s: State, schedule: seq<nat>)
    requires IsSchedule(|s.calls|, schedule) && Inv(rt, s)
    ensures s.context.word == INITIALIZED ==> Run(rt, s, schedule).context == s.context
    ensures s.queue.word == INITIALIZED ==> Run(rt, s, schedule).queue == s.queue
    decreases schedule
  {
    if schedule != [] {
      var i := schedule[0];
      var oc, oq :| ContextInv(rt, s, oc) && QueueInv(rt, s, oq);
      if s.context.word == INITIALIZED { ContextFrozenStep(rt, s, oc, i); }
      if s.queue.word == INITIALIZED { QueueFrozenStep(rt, s, oq, i); }
      InvStep(rt, s, i);
      FrozenRun(rt, Step(rt, s, i), schedule[1..]);
    }
  }

  /** Once published, `default_` and `default_error_` never change again, whatever runs afterwards. */
  lemma PublishedIsForever(rt: Runtime, s: State, schedule: seq<nat>)
    requires Reachable(rt, s) && IsSchedule(|s.calls|, schedule)
    ensures s.context.word == INITIALIZED ==> Run(rt, s, schedule).context == s.context
    ensures s.queue.word == INITIALIZED ==> Run(rt, s, schedule).queue == s.queue
  {
    InvReachable(rt, s);
    FrozenRun(rt, s, schedule);
  }

  /** How often a call enters the context's initialiser during a run. */
  function ContextEntries(rt: Runtime, s: State, schedule: seq<nat>): nat
    requires IsSchedule(|s.calls|, schedule)
    decreases schedule
  {
    if schedule == [] then 0
    else
      var t := Step(rt, s, schedule[0]);
      (if !OwnsContext(s.calls[schedule[0]]) && OwnsContext(t.calls[schedule[0]]) then 1 else 0)
      + ContextEntries(rt, t, schedule[1..])
  }

  /** How often a call enters the queue's initialiser during a run. */
  function QueueEntries(rt: Runtime, s: State, schedule: seq<nat>): nat
    requires IsSchedule(|s.calls|, schedule)
    decreases schedule
  {
    if schedule == [] then 0
    else
      var t := Step(rt, s, schedule[0]);
      (if !OwnsQueue(s.calls[schedule[0]]) && OwnsQueue(t.calls[schedule[0]]) then 1 else 0)
      + QueueEntries(rt, t, schedule[1..])
  }

  function EntriesBy(word: int): nat {
    if word == NOT_INITIALIZED then 0 else 1
  }

  /** A step enters the context's initialiser exactly when it moves the context's word away from 1. */
  lemma ContextEntryStep(rt: Runtime, s: State, o: int, i: nat)
    requires ContextInv(rt, s, o) && i < |s.calls|
    ensures var t := Step(rt, s, i);
            EntriesBy(s.context.word) + (if !OwnsContext(s.calls[i]) && OwnsContext(t.calls[i]) then 1 else 0)
            == EntriesBy(t.context.word)
  {
    assert OwnsContext(s.calls[i]) <==> i == o;
    assert ContextCall(rt, s, i);
  }

  lemma QueueEntryStep(rt: Runtime, s: State, oc: int, o: int, i: nat)
    requires ContextInv(rt, s, oc) && QueueInv(rt, s, o) && i < |s.calls|
    ensures var t := Step(rt, s, i);
            EntriesBy(s.queue.word) + (if !OwnsQueue(s.calls[i]) && OwnsQueue(t.calls[i]) then 1 else 0)
            == EntriesBy(t.queue.word)
  {
    assert OwnsQueue(s.calls[i]) <==> i == o;
    assert QueueCall(rt, s, i);
  }

  lemma {:induction false} EntriesRun(rt: Runtime, s: State, schedule: seq<nat>)
    requires IsSchedule(|s.calls|, schedule) && Inv(rt, s)
    ensures EntriesBy(s.context.word) + ContextEntries(rt, s, schedule) == EntriesBy(Run(rt, s, schedule).context.word)
    ensures EntriesBy(s.queue.word) + QueueEntries(rt, s, schedule) == EntriesBy(Run(rt, s, schedule).queue.word)
    decreases schedule
  {
    if schedule != [] {
      var i := schedule[0];
      var oc, oq :| ContextInv(rt, s, oc) && QueueInv(rt, s, oq);
      ContextEntryStep(rt, s, oc, i);
      QueueEntryStep(rt, s, oc, oq, i);
      InvStep(rt, s, i);
      EntriesRun(rt, Step(rt, s, i), schedule[1..]);
    }
  }

  /** In every run each initialiser is entered at most once, and exactly once if anything was published. */
  lemma InitialisedOnce(rt: Runtime, queues: seq<bool>, schedule: seq<nat>)
    requires IsSchedule(|queues|, schedule)
    ensures var s := Initial(NOT_INITIALIZED, queues);
            var t := Run(rt, s, schedule);
            && ContextEntries(rt, s, schedule) == (if t.context.word == NOT_INITIALIZED then 0 else 1)
            && QueueEntries(rt, s, schedule) == (if t.queue.word == NOT_INITIALIZED then 0 else 1)
  {
    var s := Initial(NOT_INITIALIZED, queues);
    InitialInv(rt, queues);
    EntriesRun(rt, s, schedule);
  }
}
