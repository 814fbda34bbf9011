/**
 The defaults of CL/cl2.hpp: `Platform`, `Context`, `Device` and `CommandQueue` each have a default that is made once,
 under `std::call_once`, either by `getDefault`, which builds it on the defaults of other classes, or by `setDefault`,
 which takes a given one. The model has any number of calls of any of the eight functions in any interleaving, with
 exceptions off. A call that finds the once-flag taken waits until the initialiser is done; `call_once` protects what the
 initialiser writes, so that it is one step.
 */
module DefaultChain {
  import opened DefaultOnce
  import opened DefaultProgress

  datatype Class = Platform | Context | Device | Queue

  function Level(c: Class): nat {
    match c
    case Platform => 0
    case Context => 1
    case Device => 2
    case Queue => 3
  }

  datatype Once = Unset | Running(call: nat) | Set

  /** The statics of a class: the once-flag, `default_` and `default_error_`. */
  datatype Static = Static(once: Once, value: Handle, error: int)

  const FRESH := Static(Unset, NULL, SUCCESS)

  datatype Statics = Statics(platform: Static, context: Static, device: Static, queue: Static)
  {
    function At(c: Class): Static {
      match c
      case Platform => platform
      case Context => context
      case Device => device
      case Queue => queue
    }

    function Put(c: Class, s: Static): Statics {
      match c
      case Platform => this.(platform := s)
      case Context => this.(context := s)
      case Device => this.(device := s)
      case Queue => this.(queue := s)
    }
  }

  /** The runtime: what call `i` would get for a platform, for a context on a platform, and for a queue on a context and a
      device; and the first device of a context. */
  datatype OpenCL = OpenCL(platform: nat -> Outcome, context: (nat, Handle) -> Outcome, firstDevice: Handle -> Handle,
                           queue: (nat, Handle, Handle) -> Outcome)

  /** `getDefault` of a class, or `setDefault` with a given object. */
  datatype Op = GetDefault(cls: Class) | SetDefault(cls: Class, given: Handle)

  /** Where a call stands in a function of one class, and, while that waits for another default, where it stands there. */
  datatype Frame =
    | Enter(op: Op)                                     // about to enter call_once
    | Start(op: Op)                                     // first in the initialiser
    | AwaitPlatform(inner: Frame)                       // Context's initialiser inside Platform::getDefault
    | AwaitContext(cls: Class, inner: Frame)            // Device's or Queue's inside Context::getDefault
    | AwaitDevice(context: Handle, inner: Frame)        // Queue's inside Device::getDefault
    | Store(cls: Class, made: Outcome)                  // about to write default_ and default_error_
    | Leave(cls: Class)                                 // about to leave call_once
    | Read(cls: Class)                                  // about to read the statics and return

  datatype Call = Busy(frame: Frame) | Done(cls: Class, result: Outcome)

  datatype World = World(statics: Statics, calls: seq<Call>)

  // ---------------------------------------------------------------------------------------------------------
  // Steps
  // ---------------------------------------------------------------------------------------------------------

  datatype Stepped = Goes(frame: Frame) | Returns(cls: Class, result: Outcome)

  function FrameClass(f: Frame): Class {
    match f
    case Enter(op) => op.cls
    case Start(op) => op.cls
    case AwaitPlatform(_) => Context
    case AwaitContext(c, _) => c
    case AwaitDevice(_, _) => Queue
    case Store(c, _) => c
    case Leave(c) => c
    case Read(c) => c
  }

  /** How an initialiser begins. */
  function Begin(cl: OpenCL, i: nat, op: Op): Frame {
    match op
    case SetDefault(c, given) => Store(c, Outcome(given, SUCCESS))
    case GetDefault(Platform) =>
      var found := cl.platform(i);
      Store(Platform, if found.error != SUCCESS then Outcome(NULL, found.error) else found)
    case GetDefault(Context) => AwaitPlatform(Enter(GetDefault(Platform)))
    case GetDefault(c) => AwaitContext(c, Enter(GetDefault(Context)))
  }

  /** How the initialiser of Device or Queue goes on with the default context. */
  function WithContext(cl: OpenCL, c: Class, context: Outcome): Frame {
    if context.error != SUCCESS then Store(c, Outcome(NULL, context.error))
    else if c == Device then Store(Device, Outcome(cl.firstDevice(context.value), SUCCESS))
    else AwaitDevice(context.value, Enter(GetDefault(Device)))
  }

  /** One step of call `i` in frame `f`. */
  function FrameStep(cl: OpenCL, s: Statics, i: nat, f: Frame): (Statics, Stepped) {
    match f
    case Enter(op) =>
      var cell := s.At(op.cls);
      if cell.once.Unset? then (s.Put(op.cls, cell.(once := Running(i))), Goes(Start(op)))
      else if cell.once.Running? then (s, Goes(f))
      else (s, Goes(Read(op.cls)))
    case Start(op) => (s, Goes(Begin(cl, i, op)))
    case Store(c, made) => (s.Put(c, s.At(c).(value := made.value, error := made.error)), Goes(Leave(c)))
    case Leave(c) => (s.Put(c, s.At(c).(once := Set)), Goes(Read(c)))
    case Read(c) => (s, Returns(c, Outcome(s.At(c).value, s.At(c).error)))
    case AwaitPlatform(inner) =>
      var (t, g) := FrameStep(cl, s, i, inner);
      (t, Goes(match g
               case Goes(h) => AwaitPlatform(h)
               case Returns(_, o) => Store(Context, cl.context(i, o.value))))
    case AwaitContext(c, inner) =>
      var (t, g) := FrameStep(cl, s, i, inner);
      (t, Goes(match g
               case Goes(h) => AwaitContext(c, h)
               case Returns(_, o) => WithContext(cl, c, o)))
    case AwaitDevice(context, inner) =>
      var (t, g) := FrameStep(cl, s, i, inner);
      (t, Goes(match g
               case Goes(h) => AwaitDevice(context, h)
               case Returns(_, o) => Store(Queue, cl.queue(i, context, o.value))))
  }

  function CallStep(cl: OpenCL, w: World, i: nat): World
    requires i < |w.calls|
  {
    match w.calls[i]
    case Done(_, _) => w
    case Busy(f) =>
      var (s, g) := FrameStep(cl, w.statics, i, f);
      World(s, w.calls[i := match g
                            case Goes(h) => Busy(h)
                            case Returns(c, o) => Done(c, o)])
  }

  function RunCalls(cl: OpenCL, w: World, schedule: seq<nat>): (v: World)
    requires IsSchedule(|w.calls|, schedule)
    ensures |v.calls| == |w.calls|
    decreases schedule
  {
    if schedule == [] then w
    else
      assert forall k :: 0 <= k < |schedule[1..]| ==> schedule[1..][k] == schedule[k + 1];
      RunCalls(cl, CallStep(cl, w, schedule[0]), schedule[1..])
  }

  function Begun(ops: seq<Op>): (w: World)
    ensures |w.calls| == |ops|
  {
    World(Statics(FRESH, FRESH, FRESH, FRESH), seq(|ops|, i requires 0 <= i < |ops| => Busy(Enter(ops[i]))))
  }

  ghost predicate Reached(cl: OpenCL, ops: seq<Op>, w: World) {
    exists schedule: seq<nat> :: IsSchedule(|ops|, schedule) && w == RunCalls(cl, Begun(ops), schedule)
  }

  // ---------------------------------------------------------------------------------------------------------
  // The invariant
  // ---------------------------------------------------------------------------------------------------------

  /** The call is inside the initialiser of class `c`. */
  predicate Inside(f: Frame, c: Class) {
    match f
    case Enter(_) => false
    case Start(op) => op.cls == c
    case Store(d, _) => d == c
    case Leave(d) => d == c
    case Read(_) => false
    case AwaitPlatform(inner) => c == Context || Inside(inner, c)
    case AwaitContext(d, inner) => d == c || Inside(inner, c)
    case AwaitDevice(_, inner) => c == Queue || Inside(inner, c)
  }

  /** Each initialiser waits for a default of a lower class: Queue > Device > Context > Platform. */
  predicate Descends(f: Frame) {
    match f
    case AwaitPlatform(inner) => FrameClass(inner) == Platform && Descends(inner)
    case AwaitContext(c, inner) => c in {Device, Queue} && FrameClass(inner) == Context && Descends(inner)
    case AwaitDevice(_, inner) => FrameClass(inner) == Device && Descends(inner)
    case _ => true
  }

  /** `made` is what call `i` rightly makes the default of class `c`: the object it was given, or the one built on the
      defaults of the lower classes, or their error. */
  predicate Rightly(cl: OpenCL, ops: seq<Op>, s: Statics, i: nat, c: Class, made: Outcome) {
    if Gives(ops, i) then ops[i].cls == c && made == Outcome(ops[i].given, SUCCESS) else Built(cl, s, i, c, made)
  }

  /** Call `i` is one of `setDefault`. */
  predicate Gives(ops: seq<Op>, i: nat) {
    i < |ops| && ops[i].SetDefault?
  }

  /** Only a call of `setDefault` comes with an object, for its own class; it needs no other default. */
  predicate OpOk(ops: seq<Op>, i: nat, op: Op) {
    if Gives(ops, i) then op == ops[i] else op.GetDefault?
  }

  predicate Built(cl: OpenCL, s: Statics, i: nat, c: Class, made: Outcome) {
    match c
    case Platform =>
      made == if cl.platform(i).error != SUCCESS then Outcome(NULL, cl.platform(i).error) else cl.platform(i)
    case Context => s.platform.once == Set && made == cl.context(i, s.platform.value)
    case Device =>
      && s.context.once == Set
      && made == if s.context.error != SUCCESS then Outcome(NULL, s.context.error)
                 else Outcome(cl.firstDevice(s.context.value), SUCCESS)
    case Queue =>
      && s.context.once == Set
      && if s.context.error != SUCCESS then made == Outcome(NULL, s.context.error)
         else s.device.once == Set && made == cl.queue(i, s.context.value, s.device.value)
  }

  /** What call `i` knows in frame `f`. */
  predicate FrameOk(cl: OpenCL, ops: seq<Op>, s: Statics, i: nat, f: Frame) {
    match f
    case Enter(op) => OpOk(ops, i, op)
    case Start(op) => s.At(op.cls) == Static(Running(i), NULL, SUCCESS) && OpOk(ops, i, op)
    case Store(c, made) => s.At(c) == Static(Running(i), NULL, SUCCESS) && Rightly(cl, ops, s, i, c, made)
    case Leave(c) => s.At(c).once == Running(i) && Rightly(cl, ops, s, i, c, Outcome(s.At(c).value, s.At(c).error))
    case Read(c) => s.At(c).once == Set
    case AwaitPlatform(inner) =>
      !Gives(ops, i) && s.context == Static(Running(i), NULL, SUCCESS) && FrameOk(cl, ops, s, i, inner)
    case AwaitContext(c, inner) =>
      !Gives(ops, i) && s.At(c) == Static(Running(i), NULL, SUCCESS) && FrameOk(cl, ops, s, i, inner)
    case AwaitDevice(context, inner) =>
      && !Gives(ops, i)
      && s.queue == Static(Running(i), NULL, SUCCESS)
      && s.context == Static(Set, context, SUCCESS)
      && FrameOk(cl, ops, s, i, inner)
  }

  predicate CallOk(cl: OpenCL, ops: seq<Op>, s: Statics, i: nat, call: Call)
    requires i < |ops|
  {
    match call
    case Busy(f) =>
      && Descends(f) && FrameOk(cl, ops, s, i, f) && FrameClass(f) == ops[i].cls
      && forall c :: s.At(c).once == Running(i) <==> Inside(f, c)
    case Done(c, o) =>
      && c == ops[i].cls && s.At(c) == Static(Set, o.value, o.error)
      && forall d :: s.At(d).once != Running(i)
  }

  /** What is settled was settled rightly by some call; what is not begun is untouched. */
  ghost predicate StaticOk(cl: OpenCL, ops: seq<Op>, s: Statics, c: Class) {
    match s.At(c).once
    case Unset => s.At(c) == FRESH
    case Running(i) => i < |ops|
    case Set => exists i: nat :: i < |ops| && Rightly(cl, ops, s, i, c, Outcome(s.At(c).value, s.At(c).error))
  }

  ghost predicate ChainInv(cl: OpenCL, ops: seq<Op>, w: World) {
    && |w.calls| == |ops|
    && (forall i {:trigger w.calls[i]} | 0 <= i < |ops| :: CallOk(cl, ops, w.statics, i, w.calls[i]))
    && (forall c {:trigger StaticOk(cl, ops, w.statics, c)} :: StaticOk(cl, ops, w.statics, c))
  }

  /** The statics went on from `s` to `t` by a step of call `i`: a free flag may be taken by `i`, and what `i` has taken
      may be written and released; everything else stays. */
  predicate Advanced(s: Statics, t: Statics, i: nat) {
    forall c {:trigger s.At(c)} {:trigger t.At(c)} ::
      || t.At(c) == s.At(c)
      || (s.At(c).once.Unset? && t.At(c) == s.At(c).(once := Running(i)))
      || (s.At(c).once == Running(i) && t.At(c).once in {Running(i), Set})
  }

  lemma {:induction false} StepAdvances(cl: OpenCL, ops: seq<Op>, s: Statics, i: nat, f: Frame)
    requires FrameOk(cl, ops, s, i, f)
    ensures Advanced(s, FrameStep(cl, s, i, f).0, i)
  {
    match f
    case AwaitPlatform(inner) => StepAdvances(cl, ops, s, i, inner);
    case AwaitContext(_, inner) => StepAdvances(cl, ops, s, i, inner);
    case AwaitDevice(_, inner) => StepAdvances(cl, ops, s, i, inner);
    case _ =>
  }

  /** What was rightly made stays so. */
  lemma RightlyStays(cl: OpenCL, ops: seq<Op>, s: Statics, t: Statics, i: nat, j: nat, c: Class, made: Outcome)
    requires Advanced(s, t, i) && Rightly(cl, ops, s, j, c, made)
    ensures Rightly(cl, ops, t, j, c, made)
  {
    assert s.At(Platform) == s.platform && s.At(Context) == s.context && s.At(Device) == s.device;
  }

  lemma {:induction false} InsideBelow(f: Frame, c: Class)
    requires Descends(f) && Inside(f, c)
    ensures Level(c) <= Level(FrameClass(f))
  {
    match f
    case AwaitPlatform(inner) => if Inside(inner, c) { InsideBelow(inner, c); }
    case AwaitContext(_, inner) => if Inside(inner, c) { InsideBelow(inner, c); }
    case AwaitDevice(_, inner) => if Inside(inner, c) { InsideBelow(inner, c); }
    case _ =>
  }

  /** A step writes nothing above the class of its frame. */
  lemma {:induction false} WritesBelow(cl: OpenCL, s: Statics, i: nat, f: Frame, c: Class)
    requires Descends(f) && Level(c) > Level(FrameClass(f))
    ensures FrameStep(cl, s, i, f).0.At(c) == s.At(c)
  {
    match f
    case AwaitPlatform(inner) => WritesBelow(cl, s, i, inner, c);
    case AwaitContext(_, inner) => WritesBelow(cl, s, i, inner, c);
    case _ =>
  }

  lemma WithContextInside(cl: OpenCL, c: Class, context: Outcome, d: Class)
    requires c in {Device, Queue}
    ensures Inside(WithContext(cl, c, context), d) <==> d == c
  {
  }

  predicate InsideStepped(g: Stepped, c: Class) {
    g.Goes? && Inside(g.frame, c)
  }

  /** A call holds a flag after a step if it is inside then, or held it all along for an outer frame. */
  lemma {:induction false} HoldsWhatItIsInside(cl: OpenCL, ops: seq<Op>, s: Statics, i: nat, f: Frame, c: Class)
    requires Descends(f) && FrameOk(cl, ops, s, i, f)
    ensures var (t, g) := FrameStep(cl, s, i, f);
            t.At(c).once == Running(i) <==> InsideStepped(g, c) || (s.At(c).once == Running(i) && !Inside(f, c))
  {
    match f
    case AwaitPlatform(inner) =>
      HoldsWhatItIsInside(cl, ops, s, i, inner, c);
      if Inside(inner, c) { InsideBelow(inner, c); }
      if c == Context { WritesBelow(cl, s, i, inner, c); }
    case AwaitContext(d, inner) =>
      HoldsWhatItIsInside(cl, ops, s, i, inner, c);
      if Inside(inner, c) { InsideBelow(inner, c); }
      if c == d { WritesBelow(cl, s, i, inner, c); }
      var g := FrameStep(cl, s, i, inner).1;
      if g.Returns? { WithContextInside(cl, d, g.result, c); }
    case AwaitDevice(_, inner) =>
      HoldsWhatItIsInside(cl, ops, s, i, inner, c);
      if Inside(inner, c) { InsideBelow(inner, c); }
      if c == Queue { WritesBelow(cl, s, i, inner, c); }
    case _ =>
  }

  predicate SteppedOk(cl: OpenCL, ops: seq<Op>, t: Statics, i: nat, f: Frame, g: Stepped) {
    match g
    case Goes(h) => FrameOk(cl, ops, t, i, h) && Descends(h) && FrameClass(h) == FrameClass(f)
    case Returns(c, o) => c == FrameClass(f) && t.At(c) == Static(Set, o.value, o.error)
  }

  ghost predicate FreshIfUnset(s: Statics) {
    forall c :: s.At(c).once.Unset? ==> s.At(c) == FRESH
  }

  lemma {:induction false} StepKeepsFrame(cl: OpenCL, ops: seq<Op>, s: Statics, i: nat, f: Frame)
    requires Descends(f) && FrameOk(cl, ops, s, i, f) && FreshIfUnset(s)
    ensures var (t, g) := FrameStep(cl, s, i, f); SteppedOk(cl, ops, t, i, f, g)
  {
    match f
    case AwaitPlatform(inner) =>
      StepKeepsFrame(cl, ops, s, i, inner);
      WritesBelow(cl, s, i, inner, Context);
    case AwaitContext(c, inner) =>
      StepKeepsFrame(cl, ops, s, i, inner);
      WritesBelow(cl, s, i, inner, c);
    case AwaitDevice(_, inner) =>
      StepKeepsFrame(cl, ops, s, i, inner);
      WritesBelow(cl, s, i, inner, Queue);
      StepAdvances(cl, ops, s, i, inner);
      assert s.At(Context) == s.context;
    case Leave(c) =>
    case Store(c, made) =>
      StepAdvances(cl, ops, s, i, f);
      RightlyStays(cl, ops, s, FrameStep(cl, s, i, f).0, i, i, c, made);
    case Enter(op) => assert s.At(op.cls).once.Unset? ==> s.At(op.cls) == FRESH;
    case _ =>
  }

  /** What a step settles was rightly made by the call. */
  lemma {:induction false} SettlesRightly(cl: OpenCL, ops: seq<Op>, s: Statics, i: nat, f: Frame, c: Class)
    requires FrameOk(cl, ops, s, i, f)
    requires var t := FrameStep(cl, s, i, f).0; s.At(c).once != Set && t.At(c).once == Set
    ensures var t := FrameStep(cl, s, i, f).0; Rightly(cl, ops, t, i, c, Outcome(t.At(c).value, t.At(c).error))
  {
    match f
    case AwaitPlatform(inner) => SettlesRightly(cl, ops, s, i, inner, c);
    case AwaitContext(_, inner) => SettlesRightly(cl, ops, s, i, inner, c);
    case AwaitDevice(_, inner) => SettlesRightly(cl, ops, s, i, inner, c);
    case Leave(d) =>
      StepAdvances(cl, ops, s, i, f);
      RightlyStays(cl, ops, s, FrameStep(cl, s, i, f).0, i, i, d, Outcome(s.At(d).value, s.At(d).error));
    case _ =>
  }

  /** A step of call `i` leaves what the others know. */
  lemma {:induction false} OthersKeepFrame(cl: OpenCL, ops: seq<Op>, s: Statics, t: Statics, i: nat, j: nat, f: Frame)
    requires Advanced(s, t, i) && i != j && FrameOk(cl, ops, s, j, f)
    ensures FrameOk(cl, ops, t, j, f)
  {
    match f
    case AwaitPlatform(inner) =>
      assert s.At(Context) == s.context;
      OthersKeepFrame(cl, ops, s, t, i, j, inner);
    case AwaitContext(c, inner) =>
      assert s.At(c).once == Running(j);
      OthersKeepFrame(cl, ops, s, t, i, j, inner);
    case AwaitDevice(_, inner) =>
      assert s.At(Context) == s.context && s.At(Queue) == s.queue;
      OthersKeepFrame(cl, ops, s, t, i, j, inner);
    case Store(c, made) =>
      assert s.At(c).once == Running(j);
      RightlyStays(cl, ops, s, t, i, j, c, made);
    case Leave(c) =>
      assert s.At(c).once == Running(j);
      RightlyStays(cl, ops, s, t, i, j, c, Outcome(s.At(c).value, s.At(c).error));
    case Start(op) => assert s.At(op.cls).once == Running(j);
    case Read(c) => assert s.At(c).once == Set;
    case Enter(_) =>
  }

  lemma OthersKeepCall(cl: OpenCL, ops: seq<Op>, s: Statics, t: Statics, i: nat, j: nat, call: Call)
    requires Advanced(s, t, i) && i != j && j < |ops| && CallOk(cl, ops, s, j, call)
    ensures CallOk(cl, ops, t, j, call)
  {
    if call.Busy? { OthersKeepFrame(cl, ops, s, t, i, j, call.frame); }
    forall c
      ensures t.At(c).once == Running(j) <==> s.At(c).once == Running(j)
    {
    }
  }

  lemma MoverKeepsCall(cl: OpenCL, ops: seq<Op>, w: World, i: nat)
    requires i < |ops| && ChainInv(cl, ops, w) && w.calls[i].Busy?
    ensures CallOk(cl, ops, CallStep(cl, w, i).statics, i, CallStep(cl, w, i).calls[i])
  {
    var f := w.calls[i].frame;
    var (t, g) := FrameStep(cl, w.statics, i, f);
    assert CallOk(cl, ops, w.statics, i, w.calls[i]);
    forall c
      ensures w.statics.At(c).once.Unset? ==> w.statics.At(c) == FRESH
    {
      assert StaticOk(cl, ops, w.statics, c);
    }
    StepKeepsFrame(cl, ops, w.statics, i, f);
    forall c
      ensures t.At(c).once == Running(i) <==> InsideStepped(g, c)
    {
      HoldsWhatItIsInside(cl, ops, w.statics, i, f, c);
    }
  }

  lemma StaticsStayOk(cl: OpenCL, ops: seq<Op>, s: Statics, i: nat, f: Frame, c: Class)
    requires i < |ops| && FrameOk(cl, ops, s, i, f) && StaticOk(cl, ops, s, c)
    ensures StaticOk(cl, ops, FrameStep(cl, s, i, f).0, c)
  {
    var t := FrameStep(cl, s, i, f).0;
    StepAdvances(cl, ops, s, i, f);
    assert t.At(c) == s.At(c) || t.At(c).once in {Running(i), Set};
    if s.At(c).once == Set {
      var j: nat :| j < |ops| && Rightly(cl, ops, s, j, c, Outcome(s.At(c).value, s.At(c).error));
      RightlyStays(cl, ops, s, t, i, j, c, Outcome(s.At(c).value, s.At(c).error));
    } else if t.At(c).once == Set {
      SettlesRightly(cl, ops, s, i, f, c);
    }
  }

  lemma ChainInvStep(cl: OpenCL, ops: seq<Op>, w: World, i: nat)
    requires i < |ops| && ChainInv(cl, ops, w)
    ensures ChainInv(cl, ops, CallStep(cl, w, i))
  {
    var v := CallStep(cl, w, i);
    assert CallOk(cl, ops, w.statics, i, w.calls[i]);
    if w.calls[i].Busy? {
      var f := w.calls[i].frame;
      MoverKeepsCall(cl, ops, w, i);
      StepAdvances(cl, ops, w.statics, i, f);
      forall j | 0 <= j < |ops|
        ensures CallOk(cl, ops, v.statics, j, v.calls[j])
      {
        if j != i { OthersKeepCall(cl, ops, w.statics, v.statics, i, j, w.calls[j]); }
      }
      forall c
        ensures StaticOk(cl, ops, v.statics, c)
      {
        assert StaticOk(cl, ops, w.statics, c);
        StaticsStayOk(cl, ops, w.statics, i, f, c);
      }
    }
  }

  lemma {:induction false} ChainInvRun(cl: OpenCL, ops: seq<Op>, w: World, schedule: seq<nat>)
    requires ChainInv(cl, ops, w) && IsSchedule(|w.calls|, schedule)
    ensures ChainInv(cl, ops, RunCalls(cl, w, schedule))
    decreases schedule
  {
    if schedule != [] {
      ChainInvStep(cl, ops, w, schedule[0]);
      ChainInvRun(cl, ops, CallStep(cl, w, schedule[0]), schedule[1..]);
    }
  }

  lemma ChainInvReached(cl: OpenCL, ops: seq<Op>, w: World)
    requires Reached(cl, ops, w)
    ensures ChainInv(cl, ops, w)
  {
    var schedule :| IsSchedule(|ops|, schedule) && w == RunCalls(cl, Begun(ops), schedule);
    forall c
      ensures StaticOk(cl, ops, Begun(ops).statics, c)
    {
    }
    ChainInvRun(cl, ops, Begun(ops), schedule);
  }

  // ---------------------------------------------------------------------------------------------------------
  // Safety
  // ---------------------------------------------------------------------------------------------------------

  /** Every call, of `getDefault` or of `setDefault`, returns what the class holds from then on, and some call rightly made
      it: the one that was given, or the one built on the lower defaults. */
  lemma CallsAgree(cl: OpenCL, ops: seq<Op>, w: World, i: nat)
    requires Reached(cl, ops, w) && i < |w.calls| && w.calls[i].Done?
    ensures i < |ops| && w.calls[i].cls == ops[i].cls
    ensures w.statics.At(ops[i].cls) == Static(Set, w.calls[i].result.value, w.calls[i].result.error)
    ensures exists j: nat :: j < |ops| && Rightly(cl, ops, w.statics, j, ops[i].cls, w.calls[i].result)
  {
    ChainInvReached(cl, ops, w);
    assert CallOk(cl, ops, w.statics, i, w.calls[i]);
    assert StaticOk(cl, ops, w.statics, ops[i].cls);
  }

  /** Class `c` is being made by call `i`, or has been, rightly. */
  ghost predicate TakenBy(cl: OpenCL, ops: seq<Op>, s: Statics, i: nat, c: Class) {
    || s.At(c).once == Running(i)
    || (s.At(c).once == Set && Rightly(cl, ops, s, i, c, Outcome(s.At(c).value, s.At(c).error)))
  }

  lemma TakenStep(cl: OpenCL, ops: seq<Op>, w: World, i: nat, j: nat, c: Class)
    requires ChainInv(cl, ops, w) && i < |ops| && TakenBy(cl, ops, w.statics, j, c)
    ensures TakenBy(cl, ops, CallStep(cl, w, i).statics, j, c)
    ensures w.statics.At(c).once == Set ==> CallStep(cl, w, i).statics.At(c) == w.statics.At(c)
  {
    assert CallOk(cl, ops, w.statics, i, w.calls[i]);
    if w.calls[i].Busy? {
      var f := w.calls[i].frame;
      var s, t := w.statics, FrameStep(cl, w.statics, i, f).0;
      StepAdvances(cl, ops, s, i, f);
      assert t.At(c) == s.At(c) || (s.At(c).once == Running(i) && t.At(c).once in {Running(i), Set});
      if s.At(c).once == Set {
        RightlyStays(cl, ops, s, t, i, j, c, Outcome(s.At(c).value, s.At(c).error));
      } else if t.At(c).once == Set {
        SettlesRightly(cl, ops, s, i, f, c);
      }
    }
  }

  lemma {:induction false} TakenRun(cl: OpenCL, ops: seq<Op>, w: World, j: nat, c: Class, schedule: seq<nat>)
    requires ChainInv(cl, ops, w) && TakenBy(cl, ops, w.statics, j, c) && IsSchedule(|w.calls|, schedule)
    ensures TakenBy(cl, ops, RunCalls(cl, w, schedule).statics, j, c)
    ensures w.statics.At(c).once == Set ==> RunCalls(cl, w, schedule).statics.At(c) == w.statics.At(c)
    decreases schedule
  {
    if schedule != [] {
      TakenStep(cl, ops, w, schedule[0], j, c);
      ChainInvStep(cl, ops, w, schedule[0]);
      TakenRun(cl, ops, CallStep(cl, w, schedule[0]), j, c, schedule[1..]);
    }
  }

  /** The first call that enters decides: whatever runs afterwards, the default of the class is the object that this call
      was given, or the one it builds, and once it is settled it never changes. */
  lemma FirstCallDecides(cl: OpenCL, ops: seq<Op>, w: World, i: nat, c: Class, schedule: seq<nat>)
    requires Reached(cl, ops, w) && w.statics.At(c).once == Running(i) && IsSchedule(|w.calls|, schedule)
    ensures var s := RunCalls(cl, w, schedule).statics;
            s.At(c).once == Set ==>
              && Rightly(cl, ops, s, i, c, Outcome(s.At(c).value, s.At(c).error))
              && (Gives(ops, i) ==> s.At(c) == Static(Set, ops[i].given, SUCCESS))
  {
    ChainInvReached(cl, ops, w);
    TakenRun(cl, ops, w, i, c, schedule);
  }

  /** What the first call to enter makes, class by class: the object it was given, or the answer of the runtime to that call
      about the defaults that are settled by then, or the context's error. */
  lemma FirstCallMakes(cl: OpenCL, ops: seq<Op>, w: World, i: nat, c: Class, schedule: seq<nat>)
    requires Reached(cl, ops, w) && w.statics.At(c).once == Running(i) && IsSchedule(|w.calls|, schedule)
    requires RunCalls(cl, w, schedule).statics.At(c).once == Set
    ensures i < |ops|
    ensures var s := RunCalls(cl, w, schedule).statics;
            && (ops[i].SetDefault? ==> c == ops[i].cls && s.At(c) == Static(Set, ops[i].given, SUCCESS))
            && (ops[i].GetDefault? && c == Platform ==>
                  && s.platform.error == cl.platform(i).error
                  && s.platform.value == (if cl.platform(i).error != SUCCESS then NULL else cl.platform(i).value))
            && (ops[i].GetDefault? && c == Context ==>
                  && s.platform.once == Set
                  && cl.context(i, s.platform.value) == Outcome(s.context.value, s.context.error))
            && (ops[i].GetDefault? && c == Device ==>
                  && s.context.once == Set
                  && s.device.error == s.context.error
                  && s.device.value == (if s.context.error != SUCCESS then NULL else cl.firstDevice(s.context.value)))
            && (ops[i].GetDefault? && c == Queue ==>
                  && s.context.once == Set
                  && (s.context.error != SUCCESS ==> s.queue.value == NULL && s.queue.error == s.context.error)
                  && (s.context.error == SUCCESS ==>
                        && s.device.once == Set
                        && cl.queue(i, s.context.value, s.device.value) == Outcome(s.queue.value, s.queue.error)))
  {
    ChainInvReached(cl, ops, w);
    assert StaticOk(cl, ops, w.statics, c);
    TakenRun(cl, ops, w, i, c, schedule);
  }

  /** A context that `getDefault` makes after `setDefault` came first at Platform is built on the given platform. */
  lemma ContextOnGivenPlatform(cl: OpenCL, ops: seq<Op>, w: World, i: nat, schedule: seq<nat>)
    requires Reached(cl, ops, w) && i < |ops| && ops[i].SetDefault? && w.statics.platform.once == Running(i)
    requires IsSchedule(|w.calls|, schedule) && RunCalls(cl, w, schedule).statics.context.once == Set
    requires forall j | 0 <= j < |ops| :: ops[j].SetDefault? ==> ops[j].cls != Context
    ensures var s := RunCalls(cl, w, schedule).statics;
            exists j: nat :: j < |ops| && ops[j].GetDefault? &&
              cl.context(j, ops[i].given) == Outcome(s.context.value, s.context.error)
  {
    FirstCallDecides(cl, ops, w, i, Platform, schedule);
    ChainInvReached(cl, ops, w);
    ChainInvRun(cl, ops, w, schedule);
    var s := RunCalls(cl, w, schedule).statics;
    assert StaticOk(cl, ops, s, Context);
    var j: nat :| j < |ops| && Rightly(cl, ops, s, j, Context, Outcome(s.context.value, s.context.error));
    assert ops[j].GetDefault?;
  }

  lemma SettledIsForever(cl: OpenCL, ops: seq<Op>, w: World, c: Class, schedule: seq<nat>)
    requires Reached(cl, ops, w) && w.statics.At(c).once == Set && IsSchedule(|w.calls|, schedule)
    ensures RunCalls(cl, w, schedule).statics.At(c) == w.statics.At(c)
  {
    ChainInvReached(cl, ops, w);
    assert StaticOk(cl, ops, w.statics, c);
    var j: nat :| j < |ops| && Rightly(cl, ops, w.statics, j, c, Outcome(w.statics.At(c).value, w.statics.At(c).error));
    TakenRun(cl, ops, w, j, c, schedule);
  }

  /** Without `setDefault`, the platform is one that the runtime found, the context was built on it, and a failed context
      makes the default device and queue report the same error; otherwise the device is the first one of the default context, and the queue was built on the default context and that device. */
  lemma ErrorsPropagate(cl: OpenCL, ops: seq<Op>, w: World)
    requires Reached(cl, ops, w) && (forall i | 0 <= i < |ops| :: ops[i].GetDefault?)
    ensures var s := w.statics;
            && (s.platform.once == Set ==> exists j: nat ::
                  && j < |ops|
                  && s.platform.error == cl.platform(j).error
                  && s.platform.value == (if cl.platform(j).error != SUCCESS then NULL else cl.platform(j).value))
            && (s.context.once == Set ==>
                  && s.platform.once == Set
                  && exists j: nat :: j < |ops| &&
                       cl.context(j, s.platform.value) == Outcome(s.context.value, s.context.error))
            && (s.device.once == Set ==>
                  && s.context.once == Set
                  && (if s.context.error != SUCCESS then s.device.value == NULL && s.device.error == s.context.error
                      else s.device.value == cl.firstDevice(s.context.value) && s.device.error == SUCCESS))
            && (s.queue.once == Set ==>
                  && s.context.once == Set
                  && (if s.context.error != SUCCESS then s.queue.value == NULL && s.queue.error == s.context.error
                      else exists j: nat :: j < |ops| &&
                             cl.queue(j, s.context.value, cl.firstDevice(s.context.value)) == Outcome(s.queue.value, s.queue.error)))
  {
    ChainInvReached(cl, ops, w);
    assert StaticOk(cl, ops, w.statics, Device) && StaticOk(cl, ops, w.statics, Queue);
    assert forall i: nat :: !Gives(ops, i);
    var s := w.statics;
    assert StaticOk(cl, ops, s, Platform) && StaticOk(cl, ops, s, Context);
    if s.platform.once == Set {
      var j: nat :| j < |ops| && Rightly(cl, ops, s, j, Platform, Outcome(s.platform.value, s.platform.error));
      assert s.platform.error == cl.platform(j).error;
    }
    if s.context.once == Set {
      var j: nat :| j < |ops| && Rightly(cl, ops, s, j, Context, Outcome(s.context.value, s.context.error));
      assert cl.context(j, s.platform.value) == Outcome(s.context.value, s.context.error);
    }
    if s.queue.once == Set && s.context.error == SUCCESS {
      var j: nat :| j < |ops| && Rightly(cl, ops, s, j, Queue, Outcome(s.queue.value, s.queue.error));
      assert cl.queue(j, s.context.value, cl.firstDevice(s.context.value)) == Outcome(s.queue.value, s.queue.error);
    }
  }

  // ---------------------------------------------------------------------------------------------------------
  // Progress
  // ---------------------------------------------------------------------------------------------------------

  /** The innermost frame, in which the call takes its next step. */
  function Innermost(f: Frame): (g: Frame)
    ensures !g.AwaitPlatform? && !g.AwaitContext? && !g.AwaitDevice?
  {
    match f
    case AwaitPlatform(inner) => Innermost(inner)
    case AwaitContext(_, inner) => Innermost(inner)
    case AwaitDevice(_, inner) => Innermost(inner)
    case _ => f
  }

  /** A call waits at a flag only below everything that it is making itself. */
  lemma {:induction false} WaitsBelow(f: Frame, c: Class)
    requires Descends(f) && Innermost(f).Enter? && Inside(f, c)
    ensures Level(FrameClass(Innermost(f))) < Level(c)
  {
    match f
    case AwaitPlatform(inner) =>
      if Inside(inner, c) { WaitsBelow(inner, c); } else { InnermostBelow(inner); }
    case AwaitContext(_, inner) =>
      if Inside(inner, c) { WaitsBelow(inner, c); } else { InnermostBelow(inner); }
    case AwaitDevice(_, inner) =>
      if Inside(inner, c) { WaitsBelow(inner, c); } else { InnermostBelow(inner); }
  }

  lemma {:induction false} InnermostBelow(f: Frame)
    requires Descends(f)
    ensures Level(FrameClass(Innermost(f))) <= Level(FrameClass(f))
  {
    match f
    case AwaitPlatform(inner) => InnermostBelow(inner);
    case AwaitContext(_, inner) => InnermostBelow(inner);
    case AwaitDevice(_, inner) => InnermostBelow(inner);
    case _ =>
  }

  /** No call ever comes to a once-flag that it holds itself. */
  lemma NoReentry(cl: OpenCL, ops: seq<Op>, w: World, i: nat)
    requires Reached(cl, ops, w) && i < |w.calls| && w.calls[i].Busy? && Innermost(w.calls[i].frame).Enter?
    ensures w.statics.At(FrameClass(Innermost(w.calls[i].frame))).once != Running(i)
  {
    ChainInvReached(cl, ops, w);
    var f := w.calls[i].frame;
    assert CallOk(cl, ops, w.statics, i, w.calls[i]);
    var c := FrameClass(Innermost(f));
    if Inside(f, c) { WaitsBelow(f, c); }
  }

  /** The call waits for another one at the flag of a class. */
  predicate Waits(w: World, i: nat)
    requires i < |w.calls|
  {
    && w.calls[i].Busy?
    && Innermost(w.calls[i].frame).Enter?
    && w.statics.At(FrameClass(Innermost(w.calls[i].frame))).once.Running?
  }

  /** Waiting always ends at a call that can go on: among the calls under way, if there are any, one does not wait. */
  lemma {:induction false} SomeCallGoesOn(cl: OpenCL, ops: seq<Op>, w: World, i: nat) returns (j: nat)
    requires ChainInv(cl, ops, w) && i < |w.calls| && w.calls[i].Busy?
    ensures j < |w.calls| && w.calls[j].Busy? && !Waits(w, j)
    decreases Level(FrameClass(Innermost(w.calls[i].frame)))
  {
    if Waits(w, i) {
      var c := FrameClass(Innermost(w.calls[i].frame));
      var k := w.statics.At(c).once.call;
      assert StaticOk(cl, ops, w.statics, c);
      assert CallOk(cl, ops, w.statics, k, w.calls[k]);
      if Waits(w, k) {
        WaitsBelow(w.calls[k].frame, c);
        j := SomeCallGoesOn(cl, ops, w, k);
      } else {
        j := k;
      }
    } else {
      j := i;
    }
  }

  /** How many steps a call in frame `f` has ahead of it at most. */
  function FrameRank(f: Frame): nat {
    match f
    case Read(_) => 1
    case Leave(_) => 2
    case Store(_, _) => 3
    case Start(op) => EnterRank(op.cls) - 1
    case Enter(op) => EnterRank(op.cls)
    case AwaitPlatform(inner) => 3 + FrameRank(inner)
    case AwaitContext(c, inner) => (if c == Queue then 4 + EnterRank(Device) else 3) + FrameRank(inner)
    case AwaitDevice(_, inner) => 3 + FrameRank(inner)
  }

  function EnterRank(c: Class): nat
    ensures EnterRank(c) >= 5
  {
    match c
    case Platform => 5
    case Context => 10
    case Device => 15
    case Queue => 31
  }

  function CallRank(call: Call): nat {
    match call
    case Busy(f) => FrameRank(f)
    case Done(_, _) => 0
  }

  function SteppedRank(g: Stepped): nat {
    if g.Goes? then FrameRank(g.frame) else 0
  }

  lemma WithContextRank(cl: OpenCL, c: Class, context: Outcome)
    ensures FrameRank(WithContext(cl, c, context)) <= if c == Device then 3 else 3 + EnterRank(Device)
  {
  }

  lemma {:induction false} FrameRankDrops(cl: OpenCL, s: Statics, i: nat, f: Frame)
    requires Descends(f)
    requires !(Innermost(f).Enter? && s.At(FrameClass(Innermost(f))).once.Running?)
    ensures SteppedRank(FrameStep(cl, s, i, f).1) < FrameRank(f)
    ensures FrameStep(cl, s, i, f).1.Returns? ==> f.Read?
  {
    match f
    case AwaitPlatform(inner) => FrameRankDrops(cl, s, i, inner);
    case AwaitContext(c, inner) =>
      FrameRankDrops(cl, s, i, inner);
      var g := FrameStep(cl, s, i, inner).1;
      if g.Returns? { WithContextRank(cl, c, g.result); }
    case AwaitDevice(_, inner) => FrameRankDrops(cl, s, i, inner);
    case _ =>
  }

  lemma {:induction false} WaitingStays(cl: OpenCL, s: Statics, i: nat, f: Frame)
    requires Innermost(f).Enter? && s.At(FrameClass(Innermost(f))).once.Running?
    ensures FrameStep(cl, s, i, f) == (s, Goes(f))
  {
    match f
    case AwaitPlatform(inner) => WaitingStays(cl, s, i, inner);
    case AwaitContext(_, inner) => WaitingStays(cl, s, i, inner);
    case AwaitDevice(_, inner) => WaitingStays(cl, s, i, inner);
    case _ =>
  }

  function TotalRank(calls: seq<Call>): nat {
    if calls == [] then 0 else CallRank(calls[0]) + TotalRank(calls[1..])
  }

  lemma {:induction false} TotalRankUpdate(calls: seq<Call>, i: nat, call: Call)
    requires i < |calls|
    ensures TotalRank(calls[i := call]) == TotalRank(calls) - CallRank(calls[i]) + CallRank(call)
  {
    if i == 0 {
      assert calls[0 := call][1..] == calls[1..];
    } else {
      assert calls[i := call][1..] == calls[1..][i - 1 := call];
      TotalRankUpdate(calls[1..], i - 1, call);
    }
  }

  /** A step of a waiting or finished call changes nothing; every other step brings the end nearer. */
  lemma StepLowersRank(cl: OpenCL, ops: seq<Op>, w: World, i: nat)
    requires ChainInv(cl, ops, w) && i < |w.calls|
    ensures if w.calls[i].Busy? && !Waits(w, i) then TotalRank(CallStep(cl, w, i).calls) < TotalRank(w.calls)
            else CallStep(cl, w, i) == w
  {
    assert CallOk(cl, ops, w.statics, i, w.calls[i]);
    if w.calls[i].Busy? {
      if Waits(w, i) {
        WaitingStays(cl, w.statics, i, w.calls[i].frame);
      } else {
        FrameRankDrops(cl, w.statics, i, w.calls[i].frame);
        TotalRankUpdate(w.calls, i, CallStep(cl, w, i).calls[i]);
      }
    }
  }

  lemma {:induction false} RankRun(cl: OpenCL, ops: seq<Op>, w: World, schedule: seq<nat>)
    requires ChainInv(cl, ops, w) && IsSchedule(|w.calls|, schedule)
    ensures TotalRank(RunCalls(cl, w, schedule).calls) <= TotalRank(w.calls)
    ensures forall i: nat | i in schedule && i < |w.calls| && w.calls[i].Busy? && !Waits(w, i) ::
              TotalRank(RunCalls(cl, w, schedule).calls) < TotalRank(w.calls)
    decreases schedule
  {
    if schedule != [] {
      StepLowersRank(cl, ops, w, schedule[0]);
      ChainInvStep(cl, ops, w, schedule[0]);
      RankRun(cl, ops, CallStep(cl, w, schedule[0]), schedule[1..]);
    }
  }

  function RunCallRounds(cl: OpenCL, w: World, rounds: seq<seq<nat>>): (v: World)
    requires forall k :: 0 <= k < |rounds| ==> Round(|w.calls|, rounds[k])
    ensures |v.calls| == |w.calls|
    decreases rounds
  {
    if rounds == [] then w
    else
      assert Round(|w.calls|, rounds[0]);
      RunCallRounds(cl, RunCalls(cl, w, rounds[0]), rounds[1..])
  }

  lemma {:induction false} NoRankNoWork(calls: seq<Call>)
    ensures TotalRank(calls) == 0 <==> forall i :: 0 <= i < |calls| ==> calls[i].Done?
  {
    if calls != [] {
      NoRankNoWork(calls[1..]);
      assert forall i :: 1 <= i < |calls| ==> calls[i] == calls[1..][i - 1];
      assert calls[0].Busy? ==> FrameRank(calls[0].frame) > 0;
      if forall i :: 0 <= i < |calls| ==> calls[i].Done? {
        assert forall i :: 0 <= i < |calls[1..]| ==> calls[1..][i].Done?;
      }
    }
  }

  lemma {:induction false} CallRoundsFinish(cl: OpenCL, ops: seq<Op>, w: World, rounds: seq<seq<nat>>)
    requires ChainInv(cl, ops, w) && |rounds| >= TotalRank(w.calls)
    requires forall k :: 0 <= k < |rounds| ==> Round(|w.calls|, rounds[k])
    ensures forall i :: 0 <= i < |w.calls| ==> RunCallRounds(cl, w, rounds).calls[i].Done?
    decreases rounds
  {
    NoRankNoWork(w.calls);
    if rounds != [] {
      RankRun(cl, ops, w, rounds[0]);
      ChainInvRun(cl, ops, w, rounds[0]);
      if i :| 0 <= i < |w.calls| && w.calls[i].Busy? {
        var j := SomeCallGoesOn(cl, ops, w, i);
        assert j in rounds[0];
      }
      CallRoundsFinish(cl, ops, RunCalls(cl, w, rounds[0]), rounds[1..]);
    }
  }

  lemma {:induction false} BegunRank(calls: seq<Call>)
    requires forall i | 0 <= i < |calls| :: calls[i].Busy? && calls[i].frame.Enter?
    ensures TotalRank(calls) <= 31 * |calls|
  {
    if calls != [] { BegunRank(calls[1..]); }
  }

  /** No deadlock: under every fair schedule all calls return, whatever mix of `getDefault` and `setDefault` they are. */
  lemma EveryDefaultCallReturns(cl: OpenCL, ops: seq<Op>, rounds: seq<seq<nat>>)
    requires |rounds| >= 31 * |ops|
    requires forall k :: 0 <= k < |rounds| ==> Round(|ops|, rounds[k])
    ensures forall i :: 0 <= i < |ops| ==> RunCallRounds(cl, Begun(ops), rounds).calls[i].Done?
  {
    assert Reached(cl, ops, Begun(ops)) by {
      assert IsSchedule(|ops|, []) && Begun(ops) == RunCalls(cl, Begun(ops), []);
    }
    ChainInvReached(cl, ops, Begun(ops));
    BegunRank(Begun(ops).calls);
    CallRoundsFinish(cl, ops, Begun(ops), rounds);
  }
}
