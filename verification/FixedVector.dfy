/**
 cl::vector of CL/cl.hpp for plain element types and a build without exceptions: a fixed array of N elements of which the
 first `size` count. A vector refines a sequence of at most N elements.
 */
module FixedVector {

  function Take<T>(n: nat, s: seq<T>): seq<T> {
    if |s| <= n then s else s[..n]
  }

  function Repeat<T>(n: nat, x: T): seq<T> {
    seq(n, _ => x)
  }

  function Resized<T>(capacity: nat, s: seq<T>, n: nat, fill: T): seq<T> {
    if n > capacity then s
    else if n <= |s| then s[..n]
    else s + Repeat(n - |s|, fill)
  }

  function Popped<T>(s: seq<T>): seq<T> {
    if s == [] then [] else s[..|s| - 1]
  }

  /** The elements from `i` to `j`; none for the iterators of an empty vector, which stand at -1. */
  function Slice<T>(s: seq<T>, i: int, j: int): seq<T> {
    if 0 <= i <= j <= |s| then s[i..j] else []
  }

  lemma SliceMore<T>(s: seq<T>, i: int, j: int)
    requires 0 <= i <= j < |s|
    ensures Slice(s, i, j + 1) == Slice(s, i, j) + [s[j]]
  {}

  datatype Iterator<T(0)> = Iterator(vec: Vector<T>, index: int)

  class Vector<T(0)> {
    const data: array<T>
    var size: nat

    ghost predicate Valid()
      reads this
    {
      size <= data.Length
    }

    ghost function View(): seq<T>
      requires Valid()
      reads this, data
    {
      data[..size]
    }

    constructor (capacity: nat)
      ensures Valid() && data.Length == capacity && fresh(data)
      ensures View() == []
    {
      data := new T[capacity];
      size := 0;
    }

    /** Past the capacity nothing happens. */
    method PushBack(x: T)
      requires Valid()
      modifies this`size, data
      ensures Valid() && View() == Take(data.Length, old(View()) + [x])
      ensures View() == if old(size) < data.Length then old(View()) + [x] else old(View())
      ensures forall i | size <= i < data.Length :: data[i] == old(data[i])
    {
      if size < data.Length {
        data[size] := x;
        size := size + 1;
      }
    }

    /** On an empty vector nothing happens. */
    method PopBack()
      requires Valid()
      modifies this`size
      ensures Valid() && View() == Popped(old(View()))
      ensures if old(View()) == [] then View() == [] else |View()| + 1 == |old(View())| && View() < old(View())
    {
      if size != 0 {
        size := size - 1;
      }
    }

    method Clear()
      requires Valid()
      modifies this`size
      ensures Valid() && View() == []
    {
      while size != 0
        invariant Valid()
        decreases size
      {
        PopBack();
      }
    }

    constructor Fill(capacity: nat, n: nat, value: T)
      ensures Valid() && data.Length == capacity && fresh(data)
      ensures View() == Take(capacity, Repeat(n, value))
      ensures |View()| == (if n <= capacity then n else capacity) && forall i | 0 <= i < |View()| :: View()[i] == value
    {
      data := new T[capacity];
      size := 0;
      new;
      for i := 0 to n
        invariant Valid() && View() == Take(capacity, Repeat(i, value))
      {
        PushBack(value);
      }
    }

    method Resize(n: nat, fill: T)
      requires Valid()
      modifies this`size, data
      ensures Valid() && View() == Resized(data.Length, old(View()), n, fill)
      ensures n > data.Length ==> View() == old(View())
      ensures n <= data.Length ==>
                && |View()| == n
                && (forall i | 0 <= i < n && i < |old(View())| :: View()[i] == old(View())[i])
                && (forall i | |old(View())| <= i < n :: View()[i] == fill)
    {
      if n <= data.Length {
        ghost var was := View();
        while size < n
          invariant |was| <= size && (size <= n || size == |was|) && Valid()
          invariant View() == was + Repeat(size - |was|, fill)
        {
          data[size] := fill;
          size := size + 1;
        }
        ghost var grown := View();
        while size > n
          invariant n <= size <= |grown| && Valid()
          invariant View() == grown[..size]
        {
          size := size - 1;
        }
      }
    }

    /** The range may come from anywhere outside this vector; what does not fit is dropped. */
    method Assign(xs: seq<T>)
      requires Valid()
      modifies this`size, data
      ensures Valid() && View() == Take(data.Length, xs)
      ensures View() <= xs && |View()| == if |xs| <= data.Length then |xs| else data.Length
    {
      Clear();
      for i := 0 to |xs|
        invariant Valid() && View() == Take(data.Length, xs[..i])
      {
        PushBack(xs[i]);
        assert xs[..i + 1] == xs[..i] + [xs[i]];
      }
      assert xs[..|xs|] == xs;
    }

    function Begin(): Iterator<T>
      reads this
    {
      Iterator(this, if size == 0 then -1 else 0)
    }

    function End(): Iterator<T>
      reads this
    {
      Iterator(this, if size == 0 then -1 else size)
    }

    /** The iterators delimit a part of this vector. */
    ghost predicate Delimits(start: Iterator<T>, end: Iterator<T>)
      reads this
    {
      && start.vec == end.vec == this
      && if size == 0 then start.index == end.index == -1 else 0 <= start.index <= end.index <= size
    }

    ghost function Part(start: Iterator<T>, end: Iterator<T>): seq<T>
      requires Valid() && Delimits(start, end)
      reads this, data
    {
      Slice(data[..], start.index, end.index)
    }

    /** The source may be this vector itself: although it is emptied first, and read while it is being filled, each
        element is read before its place is written. */
    method AssignRange(source: Vector<T>, start: Iterator<T>, end: Iterator<T>)
      requires Valid() && source.Valid() && source.Delimits(start, end)
      requires source != this ==> source.data != data
      modifies this`size, data
      ensures Valid() && View() == Take(data.Length, old(source.Part(start, end)))
      ensures size == if end.index - start.index <= data.Length then end.index - start.index else data.Length
      ensures forall i | 0 <= i < size :: View()[i] == old(source.data[..])[start.index + i]
    {
      ghost var was := source.data[..];
      Clear();
      var at := start;
      while at != end
        invariant at.vec == source && start.index <= at.index <= end.index && Valid()
        invariant View() == Take(data.Length, Slice(was, start.index, at.index))
        invariant size <= at.index - start.index
        invariant forall i | start.index <= at.index <= i < end.index :: source.data[i] == was[i]
        decreases end.index - at.index
      {
        SliceMore(was, start.index, at.index);
        PushBack(source.data[at.index]);
        at := Iterator(at.vec, at.index + 1);
      }
    }

    method CopyAssign(rhs: Vector<T>)
      requires Valid() && rhs.Valid() && rhs.data.Length == data.Length
      requires rhs != this ==> rhs.data != data
      modifies this`size, data
      ensures Valid() && View() == old(rhs.View())
    {
      if this == rhs { return; }
      if rhs.size != 0 {
        AssignRange(rhs, rhs.Begin(), rhs.End());
      } else {
        Clear();
      }
    }

    /** The size is copied before the elements are, over elements that nobody has written. */
    constructor Copy(vec: Vector<T>)
      requires vec.Valid()
      ensures Valid() && data.Length == vec.data.Length && fresh(data)
      ensures View() == vec.View()
    {
      data := new T[vec.data.Length];
      size := vec.size;
      new;
      if size != 0 {
        AssignRange(vec, vec.Begin(), vec.End());
      }
    }
  }

  method Equals<T(0,==)>(a: Vector<T>, b: Vector<T>) returns (equal: bool)
    requires a.Valid() && b.Valid()
    ensures equal <==> a.View() == b.View()
  {
    if a.size != b.size { return false; }
    for i := 0 to a.size
      invariant a.data[..i] == b.data[..i]
    {
      if a.data[i] != b.data[i] {
        assert a.View()[i] != b.View()[i];
        return false;
      }
    }
    return true;
  }

  // ---------------------------------------------------------------------------------------------------------
  // Programs over several vectors
  // ---------------------------------------------------------------------------------------------------------

  datatype Op<T> =
    | NewFill(n: nat, value: T)
    | NewCopy(of: nat)
    | Push(at: nat, x: T)
    | Pop(at: nat)
    | Empty(at: nat)
    | Size(at: nat, n: nat, value: T)
    | Put(at: nat, xs: seq<T>)
    | PutPart(at: nat, of: nat, lo: nat, hi: nat)
    | PutAll(at: nat, of: nat)

  predicate Enabled<T>(op: Op<T>, vs: seq<seq<T>>) {
    match op
    case NewFill(_, _) => true
    case NewCopy(of) => of < |vs|
    case PutPart(at, of, lo, hi) => at < |vs| && of < |vs| && lo <= hi <= |vs[of]|
    case PutAll(at, of) => at < |vs| && of < |vs|
    case _ => op.at < |vs|
  }

  /** What an operation means for the sequences that the vectors stand for. */
  function Effect<T>(capacity: nat, vs: seq<seq<T>>, op: Op<T>): seq<seq<T>>
    requires Enabled(op, vs)
  {
    match op
    case NewFill(n, value) => vs + [Take(capacity, Repeat(n, value))]
    case NewCopy(of) => vs + [vs[of]]
    case Push(at, x) => vs[at := Take(capacity, vs[at] + [x])]
    case Pop(at) => vs[at := Popped(vs[at])]
    case Empty(at) => vs[at := []]
    case Size(at, n, value) => vs[at := Resized(capacity, vs[at], n, value)]
    case Put(at, xs) => vs[at := Take(capacity, xs)]
    case PutPart(at, of, lo, hi) => vs[at := vs[of][lo..hi]]
    case PutAll(at, of) => vs[at := vs[of]]
  }

  /** Live vectors of one type: each has its own array. */
  ghost predicate Pool<T(0)>(capacity: nat, pool: seq<Vector<T>>)
    reads pool
  {
    && (forall i | 0 <= i < |pool| :: pool[i].Valid() && pool[i].data.Length == capacity)
    && (forall i, j | 0 <= i < |pool| && 0 <= j < |pool| && i != j ::
          pool[i] != pool[j] && pool[i].data != pool[j].data)
  }

  ghost function Arrays<T(0)>(pool: seq<Vector<T>>): set<array<T>> {
    set i | 0 <= i < |pool| :: pool[i].data
  }

  ghost predicate Shows<T(0)>(pool: seq<Vector<T>>, vs: seq<seq<T>>)
    requires forall i | 0 <= i < |pool| :: pool[i].Valid()
    reads pool, Arrays(pool)
  {
    |pool| == |vs| && forall i | 0 <= i < |pool| :: pool[i].View() == vs[i]
  }

  method NewVector<T(0)>(capacity: nat, pool: seq<Vector<T>>, ghost vs: seq<seq<T>>, op: Op<T>)
    returns (after: seq<Vector<T>>)
    requires Pool(capacity, pool) && Shows(pool, vs) && Enabled(op, vs)
    requires op.NewFill? || op.NewCopy?
    ensures |after| == |pool| + 1 && after[..|pool|] == pool && fresh(after[|pool|]) && fresh(after[|pool|].data)
    ensures Pool(capacity, after) && Shows(after, Effect(capacity, vs, op))
  {
    var made: Vector<T>;
    if op.NewFill? {
      made := new Vector<T>.Fill(capacity, op.n, op.value);
    } else {
      made := new Vector<T>.Copy(pool[op.of]);
    }
    after := pool + [made];
  }

  method Change<T(0)>(capacity: nat, pool: seq<Vector<T>>, ghost vs: seq<seq<T>>, op: Op<T>)
    requires Pool(capacity, pool) && Shows(pool, vs) && Enabled(op, vs)
    requires !op.NewFill? && !op.NewCopy?
    modifies pool[op.at], pool[op.at].data
    ensures Pool(capacity, pool) && Shows(pool, Effect(capacity, vs, op))
  {
    var v := pool[op.at];
    match op
    case Push(_, x) => v.PushBack(x);
    case Pop(_) => v.PopBack();
    case Empty(_) => v.Clear();
    case Size(_, n, value) => v.Resize(n, value);
    case Put(_, xs) => v.Assign(xs);
    case PutPart(_, of, lo, hi) => AssignPart(v, pool[of], lo, hi);
    case PutAll(_, of) => v.CopyAssign(pool[of]);
  }

  lemma PartOfPart<T>(s: seq<T>, n: nat, lo: nat, hi: nat)
    requires lo <= hi <= n <= |s|
    ensures s[..n][lo..hi] == s[lo..hi]
  {}

  /** `assign` from the iterators that `lo` and `hi` increments after `begin` give. */
  method AssignPart<T(0)>(v: Vector<T>, source: Vector<T>, lo: nat, hi: nat)
    requires v.Valid() && source.Valid() && lo <= hi <= source.size && source.data.Length == v.data.Length
    requires source != v ==> source.data != v.data
    modifies v`size, v.data
    ensures v.Valid() && v.View() == old(source.View()[lo..hi])
  {
    PartOfPart(source.data[..], source.size, lo, hi);
    var base := source.Begin();
    var start, end := Iterator(source, base.index + lo), Iterator(source, base.index + hi);
    v.AssignRange(source, start, end);
  }

  function Meaning<T>(capacity: nat, vs: seq<seq<T>>, ops: seq<Op<T>>): seq<seq<T>>
    decreases |ops|
  {
    if ops == [] then vs
    else if Enabled(ops[0], vs) then Meaning(capacity, Effect(capacity, vs, ops[0]), ops[1..])
    else Meaning(capacity, vs, ops[1..])
  }

  /** What `Enabled` asks for, asked of the vectors. */
  predicate Possible<T(0)>(op: Op<T>, pool: seq<Vector<T>>)
    reads pool
  {
    match op
    case NewFill(_, _) => true
    case NewCopy(of) => of < |pool|
    case PutPart(at, of, lo, hi) => at < |pool| && of < |pool| && lo <= hi <= pool[of].size
    case PutAll(at, of) => at < |pool| && of < |pool|
    case _ => op.at < |pool|
  }

  lemma PossibleIsEnabled<T(0)>(op: Op<T>, pool: seq<Vector<T>>, vs: seq<seq<T>>)
    requires (forall i | 0 <= i < |pool| :: pool[i].Valid()) && Shows(pool, vs)
    ensures Possible(op, pool) <==> Enabled(op, vs)
  {
    if op.PutPart? && op.of < |pool| { assert |pool[op.of].View()| == |vs[op.of]|; }
  }

  /** Every program over vectors does to them what it means for their sequences. */
  method Perform<T(0)>(capacity: nat, pool: seq<Vector<T>>, ghost vs: seq<seq<T>>, ops: seq<Op<T>>)
    returns (after: seq<Vector<T>>)
    requires Pool(capacity, pool) && Shows(pool, vs)
    modifies pool, Arrays(pool)
    ensures Pool(capacity, after) && Shows(after, Meaning(capacity, vs, ops))
    decreases |ops|
  {
    if ops == [] { return pool; }
    var op := ops[0];
    PossibleIsEnabled(op, pool, vs);
    if !Possible(op, pool) {
      after := Perform(capacity, pool, vs, ops[1..]);
    } else if op.NewFill? || op.NewCopy? {
      var more := NewVector(capacity, pool, vs, op);
      OneMoreArray(pool, more);
      after := Perform(capacity, more, Effect(capacity, vs, op), ops[1..]);
    } else {
      Change(capacity, pool, vs, op);
      after := Perform(capacity, pool, Effect(capacity, vs, op), ops[1..]);
    }
  }

  lemma OneMoreArray<T(0)>(pool: seq<Vector<T>>, more: seq<Vector<T>>)
    requires |more| == |pool| + 1 && more[..|pool|] == pool
    ensures Arrays(more) == Arrays(pool) + {more[|pool|].data}
    ensures forall v | v in more :: v in pool || v == more[|pool|]
  {
    assert forall i | 0 <= i < |pool| :: more[i] == pool[i];
  }

  /** No program makes a vector longer than its capacity. */
  lemma {:induction false} NeverLonger<T>(capacity: nat, vs: seq<seq<T>>, ops: seq<Op<T>>)
    requires forall i | 0 <= i < |vs| :: |vs[i]| <= capacity
    ensures forall i | 0 <= i < |Meaning(capacity, vs, ops)| :: |Meaning(capacity, vs, ops)[i]| <= capacity
    decreases |ops|
  {
    if ops == [] {
    } else if Enabled(ops[0], vs) {
      var next := Effect(capacity, vs, ops[0]);
      assert forall i | 0 <= i < |next| :: |next[i]| <= capacity;
      NeverLonger(capacity, next, ops[1..]);
    } else {
      NeverLonger(capacity, vs, ops[1..]);
    }
  }

  /** What each operation means, said of the elements. */
  lemma EffectsSpelledOut<T>(capacity: nat, vs: seq<seq<T>>, op: Op<T>)
    requires Enabled(op, vs) && forall i | 0 <= i < |vs| :: |vs[i]| <= capacity
    ensures var ws := Meaning(capacity, vs, [op]);
            && (op.NewFill? || op.NewCopy? ==> |ws| == |vs| + 1 && ws[..|vs|] == vs)
            && (!op.NewFill? && !op.NewCopy? ==>
                  |ws| == |vs| && forall i | 0 <= i < |vs| && i != op.at :: ws[i] == vs[i])
            && match op
               case NewFill(n, value) =>
                 && |ws[|vs|]| == (if n <= capacity then n else capacity)
                 && forall i | 0 <= i < |ws[|vs|]| :: ws[|vs|][i] == value
               case NewCopy(of) => ws[|vs|] == vs[of]
               case Push(at, x) => ws[at] == if |vs[at]| < capacity then vs[at] + [x] else vs[at]
               case Pop(at) => if vs[at] == [] then ws[at] == [] else ws[at] < vs[at] && |ws[at]| + 1 == |vs[at]|
               case Empty(at) => ws[at] == []
               case Size(at, n, value) =>
                 if n > capacity then ws[at] == vs[at]
                 else && |ws[at]| == n
                      && (forall i | 0 <= i < n && i < |vs[at]| :: ws[at][i] == vs[at][i])
                      && (forall i | |vs[at]| <= i < n :: ws[at][i] == value)
               case Put(at, xs) => ws[at] <= xs && |ws[at]| == if |xs| <= capacity then |xs| else capacity
               case PutPart(at, of, lo, hi) => |ws[at]| == hi - lo && forall i | 0 <= i < hi - lo :: ws[at][i] == vs[of][lo + i]
               case PutAll(at, of) => ws[at] == vs[of]
  {
    assert [op][1..] == [];
    assert Meaning(capacity, vs, [op]) == Effect(capacity, vs, op);
  }

  function Pushes<T>(at: nat, xs: seq<T>): seq<Op<T>> {
    if xs == [] then [] else [Push(at, xs[0])] + Pushes(at, xs[1..])
  }

  /** Overfilling keeps the first elements in order. */
  lemma {:induction false} OverfillKeepsFirst<T>(capacity: nat, vs: seq<seq<T>>, at: nat, xs: seq<T>)
    requires at < |vs| && |vs[at]| <= capacity
    ensures Meaning(capacity, vs, Pushes(at, xs)) == vs[at := Take(capacity, vs[at] + xs)]
    decreases |xs|
  {
    if xs == [] {
      assert vs[at] + xs == vs[at];
    } else {
      var op := Push(at, xs[0]);
      var next := Effect(capacity, vs, op);
      OverfillKeepsFirst(capacity, next, at, xs[1..]);
      var ops := Pushes(at, xs);
      assert ops[0] == op && ops[1..] == Pushes(at, xs[1..]);
      TakeTwice(capacity, vs[at] + [xs[0]], xs[1..]);
      assert vs[at] + [xs[0]] + xs[1..] == vs[at] + xs;
    }
  }

  lemma TakeTwice<T>(n: nat, s: seq<T>, t: seq<T>)
    ensures Take(n, Take(n, s) + t) == Take(n, s + t)
  {}

  /** Popping takes back the last push exactly when there was room for it, or there is never any. */
  lemma PopUndoesPush<T>(capacity: nat, vs: seq<seq<T>>, at: nat, x: T)
    requires at < |vs| && |vs[at]| <= capacity
    ensures Meaning(capacity, vs, [Push(at, x), Pop(at)]) == vs <==> |vs[at]| < capacity || capacity == 0
  {
    var pop: Op<T> := Pop(at);
    var ops := [Push(at, x), pop];
    var next := Effect(capacity, vs, ops[0]);
    assert ops[1..] == [pop];
    assert Enabled(pop, next) && Meaning(capacity, next, [pop]) == Effect(capacity, next, pop);
    assert |vs[at]| < capacity ==> Popped(vs[at] + [x]) == vs[at];
    assert next[at := vs[at]] == vs;
  }

  /** The vectors themselves, after a list has been pushed onto one of them. */
  method PushAll<T(0)>(capacity: nat, pool: seq<Vector<T>>, ghost vs: seq<seq<T>>, at: nat, xs: seq<T>)
    returns (after: seq<Vector<T>>)
    requires Pool(capacity, pool) && Shows(pool, vs) && at < |pool|
    modifies pool, Arrays(pool)
    ensures Pool(capacity, after) && Shows(after, vs[at := Take(capacity, vs[at] + xs)])
  {
    assert |pool[at].View()| == |vs[at]|;
    OverfillKeepsFirst(capacity, vs, at, xs);
    after := Perform(capacity, pool, vs, Pushes(at, xs));
  }

  /** The vectors themselves, after a push and a pop on one of them. */
  method PushAndPop<T(0)>(capacity: nat, pool: seq<Vector<T>>, ghost vs: seq<seq<T>>, at: nat, x: T)
    returns (after: seq<Vector<T>>)
    requires Pool(capacity, pool) && Shows(pool, vs) && at < |pool|
    modifies pool, Arrays(pool)
    ensures Pool(capacity, after)
    ensures Shows(after, vs) <==> |vs[at]| < capacity || capacity == 0
  {
    assert |pool[at].View()| == |vs[at]|;
    PopUndoesPush(capacity, vs, at, x);
    after := Perform(capacity, pool, vs, [Push(at, x), Pop(at)]);
    ShowsOne(after, vs, Meaning(capacity, vs, [Push(at, x), Pop(at)]));
  }

  lemma ShowsOne<T(0)>(pool: seq<Vector<T>>, vs: seq<seq<T>>, ws: seq<seq<T>>)
    requires (forall i | 0 <= i < |pool| :: pool[i].Valid()) && Shows(pool, ws)
    ensures Shows(pool, vs) <==> vs == ws
  {
    if Shows(pool, vs) {
      assert forall i | 0 <= i < |vs| :: vs[i] == pool[i].View() == ws[i];
    }
  }
}
