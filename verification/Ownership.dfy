/**
 Reference-count ownership in `detail::Wrapper<T>` and its device specialisation, CL/cl.hpp and CL/cl2.hpp.

 A wrapper holds a handle and owns one reference to it. The runtime keeps a count per live object and frees the object
 when the count drops to zero. Wrappers live at addresses, so that `this != &rhs` compares addresses. A device wrapper
 also carries a flag that says whether its handle is counted at all; for the other wrappers every handle is.
 Retain and Release require the object to be alive, so each method below also proves that the wrapper never touches a
 freed object.
 */
module Ownership {
  import opened Sums

  type Handle = nat
  type Address = nat

  const NULL: Handle := 0

  /** The fields `object_` and `referenceCountable_`. */
  datatype Wrapper = Wrapper(handle: Handle, referenceCountable: bool)
  {
    /** The wrapper's retain and release reach the runtime. */
    predicate Counts() { handle != NULL && referenceCountable }
  }

  const EMPTY := Wrapper(NULL, false)

  /** 1 for a wrapper that owns a reference to `h`. */
  function Holds(h: Handle): Wrapper -> nat {
    (w: Wrapper) => if w.Counts() && w.handle == h then 1 else 0
  }

  function CountOf(counts: map<Handle, nat>, h: Handle): nat {
    if h in counts then counts[h] else 0
  }

  /** How many references to `h` are owned: by wrappers, and outside of them. */
  ghost function Owned(wrappers: map<Address, Wrapper>, external: map<Handle, nat>, h: Handle): nat {
    Sum(wrappers, Holds(h)) + CountOf(external, h)
  }

  /** Every live object's count is the number of references owned, and nothing is owned of other objects. */
  ghost predicate Balanced(wrappers: map<Address, Wrapper>, counts: map<Handle, nat>, external: map<Handle, nat>) {
    && (forall h :: CountOf(counts, h) == Owned(wrappers, external, h))
    && (forall h | h in counts :: counts[h] > 0)
  }

  /** The same while one more reference to `h` is owned than wrappers and others account for. */
  ghost predicate BalancedExcept(wrappers: map<Address, Wrapper>, counts: map<Handle, nat>, external: map<Handle, nat>,
                                 extra: Wrapper)
  {
    && (forall h :: CountOf(counts, h) == Owned(wrappers, external, h) + Holds(h)(extra))
    && (forall h | h in counts :: counts[h] > 0)
  }

  /** Every flag is right. */
  ghost predicate Flagged(wrappers: map<Address, Wrapper>, isReferenceCountable: Handle -> bool) {
    forall a | a in wrappers ::
      wrappers[a].handle != NULL ==> wrappers[a].referenceCountable == isReferenceCountable(wrappers[a].handle)
  }

  /** Each object ever made is either alive or has been freed, once. */
  ghost predicate FreedOnce(counts: map<Handle, nat>, freed: seq<Handle>, made: set<Handle>) {
    && counts.Keys !! (set h | h in freed)
    && counts.Keys + (set h | h in freed) == made
    && (forall i, j | 0 <= i < j < |freed| :: freed[i] != freed[j])
  }

  /** The wrapper at `a` gives up its reference to whoever comes next. */
  lemma TakeOut(wrappers: map<Address, Wrapper>, counts: map<Handle, nat>, external: map<Handle, nat>, a: Address, w: Wrapper)
    requires Balanced(wrappers, counts, external) && a in wrappers && !w.Counts()
    ensures BalancedExcept(wrappers[a := w], counts, external, wrappers[a])
    ensures BalancedExcept(wrappers - {a}, counts, external, wrappers[a])
  {
    forall h
      ensures Owned(wrappers, external, h) == Owned(wrappers[a := w], external, h) + Holds(h)(wrappers[a])
      ensures Owned(wrappers, external, h) == Owned(wrappers - {a}, external, h) + Holds(h)(wrappers[a])
    {
      SumPut(wrappers, Holds(h), a, w);
      SumWithout(wrappers, Holds(h), a);
    }
  }

  /** A reference that nobody accounts for yet goes to the wrapper at `a`, which owns nothing so far. */
  lemma PutIn(wrappers: map<Address, Wrapper>, counts: map<Handle, nat>, external: map<Handle, nat>, a: Address, w: Wrapper)
    requires BalancedExcept(wrappers, counts, external, w) && (a in wrappers ==> !wrappers[a].Counts())
    ensures Balanced(wrappers[a := w], counts, external)
  {
    forall h
      ensures Owned(wrappers[a := w], external, h) == Owned(wrappers, external, h) + Holds(h)(w)
    {
      SumPut(wrappers, Holds(h), a, w);
    }
  }

  /** The object of a wrapper that owns a reference is alive. */
  lemma OwnerKeepsAlive(wrappers: map<Address, Wrapper>, counts: map<Handle, nat>, external: map<Handle, nat>, a: Address)
    requires Balanced(wrappers, counts, external) && a in wrappers && wrappers[a].Counts()
    ensures wrappers[a].handle in counts
  {
    var h := wrappers[a].handle;
    SumWithout(wrappers, Holds(h), a);
    assert CountOf(counts, h) == Owned(wrappers, external, h);
  }

  /** Assignment releases first, but no object that another wrapper holds can die of it: whatever the two hold, even the
      same object, the count of the right-hand side's object is at least one after the release. */
  lemma SurvivesRelease(wrappers: map<Address, Wrapper>, counts: map<Handle, nat>, external: map<Handle, nat>,
                        target: Address, source: Address)
    requires Balanced(wrappers, counts, external) && target in wrappers && source in wrappers && target != source
    requires wrappers[source].Counts()
    ensures wrappers[source].handle in counts
    ensures counts[wrappers[source].handle] > Holds(wrappers[source].handle)(wrappers[target])
  {
    var h := wrappers[source].handle;
    SumWithout(wrappers, Holds(h), source);
    SumWithout(wrappers - {source}, Holds(h), target);
    assert CountOf(counts, h) == Owned(wrappers, external, h);
  }

  /** Once the reference in hand has been released, nothing is left over. */
  lemma AfterRelease(wrappers: map<Address, Wrapper>, counts: map<Handle, nat>, counts': map<Handle, nat>,
                     external: map<Handle, nat>, w: Wrapper)
    requires BalancedExcept(wrappers, counts, external, w)
    requires forall h :: CountOf(counts', h) + Holds(h)(w) == CountOf(counts, h)
    requires forall h | h in counts' :: counts'[h] > 0
    ensures Balanced(wrappers, counts', external)
  {
    forall h
      ensures CountOf(counts', h) == Owned(wrappers, external, h)
    {
      assert CountOf(counts', h) + Holds(h)(w) == CountOf(counts, h);
    }
  }

  /** A retained reference is there for a wrapper to take. */
  lemma AfterRetain(wrappers: map<Address, Wrapper>, counts: map<Handle, nat>, external: map<Handle, nat>, w: Wrapper)
    requires Balanced(wrappers, counts, external) && (w.Counts() ==> w.handle in counts)
    ensures BalancedExcept(wrappers, if w.Counts() then counts[w.handle := counts[w.handle] + 1] else counts, external, w)
  {
    var counts' := if w.Counts() then counts[w.handle := counts[w.handle] + 1] else counts;
    forall h
      ensures CountOf(counts', h) == Owned(wrappers, external, h) + Holds(h)(w)
    {
      assert CountOf(counts, h) == Owned(wrappers, external, h);
    }
  }

  /** An object dies exactly when its last owner lets go: it is alive as long as some wrapper or somebody else owns it. */
  lemma AliveExactlyWhileOwned(wrappers: map<Address, Wrapper>, counts: map<Handle, nat>, external: map<Handle, nat>,
                               freed: seq<Handle>, made: set<Handle>, h: Handle)
    requires Balanced(wrappers, counts, external) && FreedOnce(counts, freed, made) && h in made
    ensures h !in freed <==>
              CountOf(external, h) > 0 || exists a :: a in wrappers && wrappers[a].Counts() && wrappers[a].handle == h
  {
    assert CountOf(counts, h) == Owned(wrappers, external, h);
    if h in counts && CountOf(external, h) == 0 {
      var a := SomeHolder(wrappers, h);
    }
    if a :| a in wrappers && wrappers[a].Counts() && wrappers[a].handle == h {
      OwnerKeepsAlive(wrappers, counts, external, a);
    }
  }

  lemma {:induction false} SomeHolder(wrappers: map<Address, Wrapper>, h: Handle) returns (a: Address)
    requires Sum(wrappers, Holds(h)) > 0
    ensures a in wrappers && wrappers[a].Counts() && wrappers[a].handle == h
    decreases |wrappers|
  {
    a :| a in wrappers;
    SumWithout(wrappers, Holds(h), a);
    if Holds(h)(wrappers[a]) == 0 {
      a := SomeHolder(wrappers - {a}, h);
    }
  }

  /** The addresses of the wrappers with handle `h`. */
  ghost function HoldersOf(wrappers: map<Address, Wrapper>, h: Handle): set<Address> {
    set a | a in wrappers && wrappers[a].handle == h
  }

  lemma HoldersWithout(wrappers: map<Address, Wrapper>, h: Handle, a: Address)
    requires a in wrappers
    ensures |HoldersOf(wrappers, h)| == |HoldersOf(wrappers - {a}, h)| + if wrappers[a].handle == h then 1 else 0
  {
    var all, rest := HoldersOf(wrappers, h), HoldersOf(wrappers - {a}, h);
    if wrappers[a].handle == h {
      assert all == rest + {a} && a !in rest;
    } else {
      assert all == rest;
    }
  }

  lemma {:induction false} HoldersCounted(wrappers: map<Address, Wrapper>, isReferenceCountable: Handle -> bool, h: Handle)
    requires Flagged(wrappers, isReferenceCountable)
    ensures Sum(wrappers, Holds(h)) == if h != NULL && isReferenceCountable(h) then |HoldersOf(wrappers, h)| else 0
    decreases |wrappers|
  {
    if wrappers == map[] {
      assert HoldersOf(wrappers, h) == {};
    } else {
      var a :| a in wrappers;
      SumWithout(wrappers, Holds(h), a);
      HoldersWithout(wrappers, h, a);
      HoldersCounted(wrappers - {a}, isReferenceCountable, h);
    }
  }

  /** What the counts are: an object that is not counted has the references from outside only; every other one has these and
      one for each wrapper that holds its handle. */
  lemma CountsExactly(wrappers: map<Address, Wrapper>, counts: map<Handle, nat>, external: map<Handle, nat>,
                      isReferenceCountable: Handle -> bool, h: Handle)
    requires Balanced(wrappers, counts, external) && Flagged(wrappers, isReferenceCountable)
    ensures h == 0 || !isReferenceCountable(h) ==> CountOf(counts, h) == CountOf(external, h)
    ensures h != 0 && isReferenceCountable(h) ==>
              CountOf(counts, h) == CountOf(external, h) + |HoldersOf(wrappers, h)|
  {
    HoldersCounted(wrappers, isReferenceCountable, h);
    assert CountOf(counts, h) == Owned(wrappers, external, h);
  }

  /** All wrappers of one type, and the runtime that counts their objects. */
  class Program {
    const isReferenceCountable: Handle -> bool
    var wrappers: map<Address, Wrapper>
    var counts: map<Handle, nat>
    ghost var freed: seq<Handle>
    ghost var made: set<Handle>
    ghost var external: map<Handle, nat>

    ghost predicate Valid()
      reads this
    {
      Balanced(wrappers, counts, external) && Flagged(wrappers, isReferenceCountable) && FreedOnce(counts, freed, made)
    }

    constructor (isReferenceCountable: Handle -> bool)
      ensures Valid() && wrappers == map[] && freed == [] && made == {} && external == map[]
      ensures this.isReferenceCountable == isReferenceCountable
    {
      this.isReferenceCountable := isReferenceCountable;
      wrappers, counts, freed, made, external := map[], map[], [], {}, map[];
    }

    // -------------------------------------------------------------------------------------------------------
    // The runtime
    // -------------------------------------------------------------------------------------------------------

    /** clRetain on the wrapper's object, if it is counted. */
    method Retain(w: Wrapper)
      requires w.Counts() ==> w.handle in counts
      modifies this`counts
      ensures counts == if w.Counts() then old(counts)[w.handle := old(counts)[w.handle] + 1] else old(counts)
      ensures counts.Keys == old(counts).Keys
    {
      if w.Counts() {
        counts := counts[w.handle := counts[w.handle] + 1];
      }
    }

    /** clRelease on the wrapper's object, if it is counted; the last release frees it. */
    method Release(w: Wrapper)
      requires w.Counts() ==> w.handle in counts && counts[w.handle] > 0
      requires FreedOnce(counts, freed, made)
      modifies this`counts, this`freed
      ensures FreedOnce(counts, freed, made)
      ensures old(freed) <= freed
      ensures !w.Counts() ==> counts == old(counts)
      ensures forall h :: CountOf(counts, h) + Holds(h)(w) == CountOf(old(counts), h)
      ensures (forall h | h in old(counts) :: old(counts)[h] > 0) ==> forall h | h in counts :: counts[h] > 0
    {
      if w.Counts() {
        if counts[w.handle] == 1 {
          counts := counts - {w.handle};
          freed := freed + [w.handle];
        } else {
          counts := counts[w.handle := counts[w.handle] - 1];
        }
      }
    }

    /** The runtime makes an object and hands out one reference to it. */
    method Create(h: Handle)
      requires Valid() && h != NULL && h !in made
      modifies this`counts, this`made, this`external
      ensures Valid() && made == old(made) + {h} && external == old(external)[h := 1]
    {
      assert CountOf(counts, h) == Owned(wrappers, external, h);
      counts := counts[h := 1];
      made := made + {h};
      external := external[h := 1];
      forall k
        ensures CountOf(counts, k) == Owned(wrappers, external, k)
      {
        assert k != h ==> CountOf(old(counts), k) == Owned(wrappers, old(external), k);
      }
    }

    // -------------------------------------------------------------------------------------------------------
    // Wrappers
    // -------------------------------------------------------------------------------------------------------

    /** `Wrapper()`. */
    method Default(a: Address)
      requires Valid() && a !in wrappers
      modifies this`wrappers
      ensures Valid() && wrappers == old(wrappers)[a := EMPTY]
    {
      wrappers := wrappers[a := EMPTY];
      forall h
        ensures Owned(wrappers, external, h) == Owned(old(wrappers), external, h)
      {
        SumPut(old(wrappers), Holds(h), a, EMPTY);
      }
    }

    /** What a wrapper around `h` looks like. */
    function Around(h: Handle): Wrapper { Wrapper(h, h != NULL && isReferenceCountable(h)) }

    /** `Wrapper(obj, retainObject)`: takes over a reference from outside, or adds one of its own. */
    method Wrap(a: Address, h: Handle, retainObject: bool)
      requires Valid() && a !in wrappers
      requires h != NULL && isReferenceCountable(h) ==> CountOf(external, h) > 0
      modifies this`wrappers, this`counts, this`external
      ensures Valid() && wrappers == old(wrappers)[a := Wrapper(h, h != NULL && isReferenceCountable(h))]
      ensures external == if h != NULL && isReferenceCountable(h) && !retainObject then old(external)[h := old(external)[h] - 1]
                          else old(external)
    {
      assert CountOf(counts, h) == Owned(wrappers, external, h);
      var w := Around(h);
      if retainObject {
        AfterRetain(wrappers, counts, external, w);
        Retain(w);
      } else {
        HandOver(wrappers, counts, external, w);
        if w.Counts() {
          external := external[h := external[h] - 1];
        }
      }
      PutIn(wrappers, counts, external, a, w);
      wrappers := wrappers[a := w];
    }

    /** `~Wrapper()`. */
    method Destroy(a: Address)
      requires Valid() && a in wrappers
      modifies this`wrappers, this`counts, this`freed
      ensures Valid() && wrappers == old(wrappers) - {a} && old(freed) <= freed
      ensures var h := old(wrappers)[a].handle; h == 0 || !isReferenceCountable(h) ==> counts == old(counts)
    {
      var w := wrappers[a];
      if w.Counts() { OwnerKeepsAlive(wrappers, counts, external, a); }
      TakeOut(wrappers, counts, external, a, EMPTY);
      Release(w);
      AfterRelease(wrappers - {a}, old(counts), counts, external, w);
      wrappers := wrappers - {a};
    }

    /** `Wrapper(const Wrapper& rhs)`: recomputes the flag. The copy adds exactly one reference. */
    method Copy(a: Address, source: Address)
      requires Valid() && a !in wrappers && source in wrappers
      modifies this`wrappers, this`counts
      ensures Valid() && a in wrappers && wrappers[a].handle == old(wrappers)[source].handle
      ensures wrappers == old(wrappers)[a := wrappers[a]]
      ensures var h := old(wrappers)[source].handle;
              if h == 0 || !isReferenceCountable(h) then counts == old(counts)
              else h in old(counts) && counts == old(counts)[h := old(counts)[h] + 1]
    {
      var handle := wrappers[source].handle;
      var w := Around(handle);
      if w.Counts() { OwnerKeepsAlive(wrappers, counts, external, source); }
      AfterRetain(wrappers, counts, external, w);
      Retain(w);
      PutIn(wrappers, counts, external, a, w);
      wrappers := wrappers[a := w];
    }

    /** `Wrapper(Wrapper&& rhs)`. */
    method Move(a: Address, source: Address)
      requires Valid() && a !in wrappers && source in wrappers
      modifies this`wrappers
      ensures Valid() && wrappers == old(wrappers)[source := EMPTY][a := old(wrappers)[source]]
    {
      var w := wrappers[source];
      TakeOut(wrappers, counts, external, source, EMPTY);
      wrappers := wrappers[source := EMPTY];
      PutIn(wrappers, counts, external, a, w);
      wrappers := wrappers[a := w];
    }

    /** The wrapper at `a` releases its object and is about to be overwritten. */
    method LetGo(a: Address)
      requires Valid() && a in wrappers
      modifies this`counts, this`freed
      ensures Balanced(wrappers[a := EMPTY], counts, external) && FreedOnce(counts, freed, made) && old(freed) <= freed
      ensures forall h :: CountOf(counts, h) + Holds(h)(wrappers[a]) == CountOf(old(counts), h)
    {
      var w := wrappers[a];
      if w.Counts() { OwnerKeepsAlive(wrappers, counts, external, a); }
      TakeOut(wrappers, counts, external, a, EMPTY);
      Release(w);
      AfterRelease(wrappers[a := EMPTY], old(counts), counts, external, w);
    }

    /** `operator=(const Wrapper& rhs)`: releases, copies object and flag, retains. */
    method CopyAssign(a: Address, source: Address)
      requires Valid() && a in wrappers && source in wrappers
      modifies this`wrappers, this`counts, this`freed
      ensures Valid() && wrappers == old(wrappers)[a := old(wrappers)[source]] && old(freed) <= freed
    {
      if a != source {
        var from := wrappers[source];
        ghost var without: map<Address, Wrapper> := wrappers[a := EMPTY];
        if from.Counts() { SurvivesRelease(wrappers, counts, external, a, source); }
        LetGo(a);
        assert from.Counts() ==> CountOf(counts, from.handle) > 0;
        wrappers := wrappers[a := from];
        AfterRetain(without, counts, external, from);
        Retain(from);
        PutIn(without, counts, external, a, from);
        assert without[a := from] == wrappers;
      }
    }

    /** `operator=(Wrapper&& rhs)`. */
    method MoveAssign(a: Address, source: Address)
      requires Valid() && a in wrappers && source in wrappers
      modifies this`wrappers, this`counts, this`freed
      ensures Valid() && old(freed) <= freed
      ensures wrappers == if a == source then old(wrappers) else old(wrappers)[a := old(wrappers)[source]][source := EMPTY]
    {
      if a != source {
        var from := wrappers[source];
        ghost var without: map<Address, Wrapper> := wrappers[a := EMPTY];
        LetGo(a);
        wrappers := wrappers[a := from];
        wrappers := wrappers[source := EMPTY];
        TakeOut(without, counts, external, source, EMPTY);
        PutIn(without[source := EMPTY], counts, external, a, from);
        assert without[source := EMPTY][a := from] == wrappers;
      }
    }

    /** `operator=(const cl_type& rhs)`: takes over a reference from outside. */
    method RawAssign(a: Address, h: Handle)
      requires Valid() && a in wrappers
      requires h != NULL && isReferenceCountable(h) ==> CountOf(external, h) > 0
      modifies this`wrappers, this`counts, this`freed, this`external
      ensures Valid() && wrappers == old(wrappers)[a := Wrapper(h, h != NULL && isReferenceCountable(h))]
      ensures old(freed) <= freed
      ensures external == if h != NULL && isReferenceCountable(h) then old(external)[h := old(external)[h] - 1] else old(external)
    {
      ghost var without: map<Address, Wrapper> := wrappers[a := EMPTY];
      LetGo(a);
      var from := Around(h);
      wrappers := wrappers[a := from];
      HandOver(without, counts, external, from);
      if from.Counts() {
        external := external[h := external[h] - 1];
      }
      PutIn(without, counts, external, a, from);
      assert without[a := from] == wrappers;
    }

    /** `getInfoHelper` for one wrapper: assigns the raw handle that the runtime returned, then retains it. The runtime
        keeps its own reference, so that the raw assignment takes over one that is given back by the retain. */
    method Query(a: Address, h: Handle)
      requires Valid() && a in wrappers
      requires h != NULL && isReferenceCountable(h) ==> CountOf(external, h) > 0
      modifies this`wrappers, this`counts, this`freed, this`external
      ensures Valid() && wrappers == old(wrappers)[a := Wrapper(h, h != NULL && isReferenceCountable(h))]
      ensures old(freed) <= freed && external == old(external)
    {
      RawAssign(a, h);
      if Around(h).Counts() {
        OwnerKeepsAlive(wrappers, counts, external, a);
        ghost var before := counts;
        Retain(wrappers[a]);
        external := external[h := external[h] + 1];
        forall k
          ensures CountOf(counts, k) == Owned(wrappers, external, k)
        {
          assert CountOf(before, k) == Owned(wrappers, old(external)[h := old(external)[h] - 1], k);
        }
        assert external == old(external);
      }
    }
  }

  /** Somebody outside gives up a reference to the object of `w`, for a wrapper to take. */
  lemma HandOver(wrappers: map<Address, Wrapper>, counts: map<Handle, nat>, external: map<Handle, nat>, w: Wrapper)
    requires Balanced(wrappers, counts, external) && (w.Counts() ==> w.handle in external && external[w.handle] > 0)
    ensures BalancedExcept(wrappers, counts, if w.Counts() then external[w.handle := external[w.handle] - 1] else external, w)
  {
    var external' := if w.Counts() then external[w.handle := external[w.handle] - 1] else external;
    forall h
      ensures CountOf(counts, h) == Owned(wrappers, external', h) + Holds(h)(w)
    {
      assert CountOf(counts, h) == Owned(wrappers, external, h);
    }
  }
}
