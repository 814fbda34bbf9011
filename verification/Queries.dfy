/**
 `getInfoHelper` for a vector of reference-counted wrappers: CL/cl.hpp assigns the raw handles to the vector and then
 retains them one by one; CL/cl2.hpp resizes the vector and moves retaining temporaries into it. Both are proved to end
 with the same contents and counts. Retaining and releasing require the object to be alive.
 */
module Queries {
  import opened Ownership

  const SUCCESS := 0

  /** The error code of a query that asks the runtime first for the size of the list and then for the list. */
  function FirstError(sizeError: int, listError: int): int {
    if sizeError != SUCCESS then sizeError else listError
  }

  /** How many references to `h` the wrappers own. */
  function References(ws: seq<Wrapper>, h: Handle): nat {
    if ws == [] then 0 else Holds(h)(ws[0]) + References(ws[1..], h)
  }

  lemma {:induction false} ReferencesConcat(a: seq<Wrapper>, b: seq<Wrapper>, h: Handle)
    ensures References(a + b, h) == References(a, h) + References(b, h)
  {
    if a == [] {
      assert a + b == b;
    } else {
      assert (a + b)[1..] == a[1..] + b;
      ReferencesConcat(a[1..], b, h);
    }
  }

  lemma ReferencesMiddle(a: seq<Wrapper>, w: Wrapper, b: seq<Wrapper>, h: Handle)
    ensures References(a + [w] + b, h) == References(a + b, h) + Holds(h)(w)
  {
    ReferencesConcat(a + [w], b, h);
    ReferencesConcat(a, [w], h);
    ReferencesConcat(a, b, h);
  }

  /** The wrapper that the raw handle `h` makes. */
  function Around(isReferenceCountable: Handle -> bool, h: Handle): Wrapper {
    Wrapper(h, h != NULL && isReferenceCountable(h))
  }

  function Wrapped(isReferenceCountable: Handle -> bool, values: seq<Handle>): (ws: seq<Wrapper>)
    ensures |ws| == |values|
  {
    seq(|values|, i requires 0 <= i < |values| => Around(isReferenceCountable, values[i]))
  }

  /** Of a counted object the wrappers of a list own as many references as it occurs in the list, and of others none. */
  lemma {:induction false} ReferencesWrapped(isReferenceCountable: Handle -> bool, values: seq<Handle>, h: Handle)
    ensures References(Wrapped(isReferenceCountable, values), h) ==
              if h != 0 && isReferenceCountable(h) then multiset(values)[h] else 0
    decreases |values|
  {
    var ws := Wrapped(isReferenceCountable, values);
    if values == [] {
      assert ws == [];
    } else {
      assert ws[1..] == Wrapped(isReferenceCountable, values[1..]);
      assert values == [values[0]] + values[1..];
      ReferencesWrapped(isReferenceCountable, values[1..], h);
    }
  }

  /** What a query leaves: the wrappers have the handles of the list and the right flags, and every count is what the rest
      holds and, for counted objects, the occurrences in the list. */
  ghost predicate Answered(isReferenceCountable: Handle -> bool, values: seq<Handle>, param: seq<Wrapper>,
                           after: map<Handle, nat>, rest: map<Handle, nat>)
  {
    && |param| == |values|
    && (forall i | 0 <= i < |values| ::
          param[i].handle == values[i] && (param[i].referenceCountable <==> values[i] != 0 && isReferenceCountable(values[i])))
    && (forall h {:trigger CountOf(after, h)} ::
          CountOf(after, h) == CountOf(rest, h) + if h != 0 && isReferenceCountable(h) then multiset(values)[h] else 0)
  }

  lemma WrappedIsAnswered(isReferenceCountable: Handle -> bool, values: seq<Handle>, after: map<Handle, nat>,
                          rest: map<Handle, nat>)
    requires Counted(after, rest, Wrapped(isReferenceCountable, values))
    ensures Answered(isReferenceCountable, values, Wrapped(isReferenceCountable, values), after, rest)
  {
    forall h
      ensures CountOf(after, h) == CountOf(rest, h) + if h != 0 && isReferenceCountable(h) then multiset(values)[h] else 0
    {
      ReferencesWrapped(isReferenceCountable, values, h);
    }
  }

  /** Every count is made up of the references of `ws` and those of the `rest`. */
  ghost predicate Counted(counts: map<Handle, nat>, rest: map<Handle, nat>, ws: seq<Wrapper>) {
    forall h {:trigger CountOf(counts, h)} :: CountOf(counts, h) == CountOf(rest, h) + References(ws, h)
  }

  /** The rest holds a reference to each object that the query returns. */
  ghost predicate OwnedElsewhere(isReferenceCountable: Handle -> bool, values: seq<Handle>, rest: map<Handle, nat>) {
    forall i | 0 <= i < |values| :: Around(isReferenceCountable, values[i]).Counts() ==> CountOf(rest, values[i]) > 0
  }

  method Retain(counts: map<Handle, nat>, w: Wrapper, ghost rest: map<Handle, nat>, ghost a: seq<Wrapper>, ghost b: seq<Wrapper>)
    returns (r: map<Handle, nat>)
    requires Counted(counts, rest, a + b) && (w.Counts() ==> CountOf(rest, w.handle) > 0)
    ensures Counted(r, rest, a + [w] + b)
  {
    r := counts;
    if w.Counts() {
      assert CountOf(counts, w.handle) > 0;
      r := counts[w.handle := counts[w.handle] + 1];
    }
    forall h
      ensures CountOf(r, h) == CountOf(rest, h) + References(a + [w] + b, h)
    {
      ReferencesMiddle(a, w, b, h);
      assert CountOf(counts, h) == CountOf(rest, h) + References(a + b, h);
    }
  }

  method Release(counts: map<Handle, nat>, w: Wrapper, ghost rest: map<Handle, nat>, ghost a: seq<Wrapper>, ghost b: seq<Wrapper>)
    returns (r: map<Handle, nat>)
    requires Counted(counts, rest, a + [w] + b)
    ensures Counted(r, rest, a + b)
  {
    r := counts;
    if w.Counts() {
      ReferencesMiddle(a, w, b, w.handle);
      assert CountOf(counts, w.handle) > 0;
      r := if counts[w.handle] == 1 then counts - {w.handle} else counts[w.handle := counts[w.handle] - 1];
    }
    forall h
      ensures CountOf(r, h) == CountOf(rest, h) + References(a + b, h)
    {
      ReferencesMiddle(a, w, b, h);
      assert CountOf(counts, h) == CountOf(rest, h) + References(a + [w] + b, h);
    }
  }

  /** The elements from `from` on are destroyed. */
  method DestroyFrom(elements: seq<Wrapper>, from: nat, counts: map<Handle, nat>, ghost rest: map<Handle, nat>)
    returns (r: map<Handle, nat>)
    requires from <= |elements| && Counted(counts, rest, elements)
    ensures Counted(r, rest, elements[..from])
  {
    r := counts;
    assert elements[..from] + elements[from..] == elements;
    for i := from to |elements|
      invariant Counted(r, rest, elements[..from] + elements[i..])
    {
      assert elements[..from] + elements[i..] == elements[..from] + [elements[i]] + elements[i + 1..];
      r := Release(r, elements[i], rest, elements[..from], elements[i + 1..]);
    }
    assert elements[..from] + elements[|elements|..] == elements[..from];
  }

  /** The query of CL/cl.hpp. `vector::assign` assigns raw handles over the elements there are, constructs what is
      missing and destroys what is too much, all without retaining; the loop retains afterwards. */
  method QueryByAssign(isReferenceCountable: Handle -> bool, elements: seq<Wrapper>, counts: map<Handle, nat>,
                       sizeError: int, listError: int, values: seq<Handle>, ghost rest: map<Handle, nat>)
    returns (param: seq<Wrapper>, after: map<Handle, nat>, err: int)
    requires Counted(counts, rest, elements)
    requires FirstError(sizeError, listError) == SUCCESS ==> OwnedElsewhere(isReferenceCountable, values, rest)
    ensures err == FirstError(sizeError, listError)
    ensures err != SUCCESS ==> param == elements && after == counts
    ensures err == SUCCESS ==> Answered(isReferenceCountable, values, param, after, rest)
  {
    if sizeError != SUCCESS { return elements, counts, sizeError; }
    if listError != SUCCESS { return elements, counts, listError; }
    err := SUCCESS;
    param, after := AssignRaw(isReferenceCountable, elements, counts, values, rest);
    for i := 0 to |values|
      invariant param == Wrapped(isReferenceCountable, values)
      invariant Counted(after, rest, param[..i])
    {
      assert param[..i + 1] == param[..i] + [param[i]] + [];
      assert param[..i] + [] == param[..i];
      if values[i] != NULL {
        after := Retain(after, param[i], rest, param[..i], []);
      } else {
        Uncounted(after, rest, param[..i], param[i]);
        assert param[..i + 1] == param[..i] + [param[i]];
      }
    }
    assert param[..|values|] == param;
    WrappedIsAnswered(isReferenceCountable, values, after, rest);
  }

  lemma Uncounted(counts: map<Handle, nat>, rest: map<Handle, nat>, ws: seq<Wrapper>, w: Wrapper)
    requires Counted(counts, rest, ws) && !w.Counts()
    ensures Counted(counts, rest, ws + [w])
  {
    forall h
      ensures References(ws + [w], h) == References(ws, h)
    {
      ReferencesConcat(ws, [w], h);
    }
  }

  method AssignRaw(isReferenceCountable: Handle -> bool, elements: seq<Wrapper>, counts: map<Handle, nat>,
                   values: seq<Handle>, ghost rest: map<Handle, nat>)
    returns (param: seq<Wrapper>, after: map<Handle, nat>)
    requires Counted(counts, rest, elements)
    ensures param == Wrapped(isReferenceCountable, values)
    ensures Counted(after, rest, [])
  {
    after := counts;
    param := [];
    var n := if |values| < |elements| then |values| else |elements|;
    assert elements[0..] == elements;
    for i := 0 to n
      invariant param == Wrapped(isReferenceCountable, values)[..i]
      invariant Counted(after, rest, elements[i..])
    {
      assert elements[i..] == [] + [elements[i]] + elements[i + 1..];
      assert [] + elements[i + 1..] == elements[i + 1..];
      after := Release(after, elements[i], rest, [], elements[i + 1..]);
      param := param + [Around(isReferenceCountable, values[i])];
    }
    after := DestroyFrom(elements[n..], 0, after, rest);
    for i := n to |values|
      invariant param == Wrapped(isReferenceCountable, values)[..i]
    {
      param := param + [Around(isReferenceCountable, values[i])];
    }
  }

  /** The query of CL/cl2.hpp: `resize`, then each element is overwritten by moving in a temporary that has retained. */
  method QueryByMove(isReferenceCountable: Handle -> bool, elements: seq<Wrapper>, counts: map<Handle, nat>,
                     sizeError: int, listError: int, values: seq<Handle>, ghost rest: map<Handle, nat>)
    returns (param: seq<Wrapper>, after: map<Handle, nat>, err: int)
    requires Counted(counts, rest, elements)
    requires FirstError(sizeError, listError) == SUCCESS ==> OwnedElsewhere(isReferenceCountable, values, rest)
    ensures err == FirstError(sizeError, listError)
    ensures err != SUCCESS ==> param == elements && after == counts
    ensures err == SUCCESS ==> Answered(isReferenceCountable, values, param, after, rest)
  {
    if sizeError != SUCCESS { return elements, counts, sizeError; }
    if listError != SUCCESS { return elements, counts, listError; }
    err := SUCCESS;
    param, after := Resize(elements, counts, |values|, rest);
    for i := 0 to |values|
      invariant |param| == |values| && param[..i] == Wrapped(isReferenceCountable, values)[..i]
      invariant Counted(after, rest, param)
    {
      var temporary := Around(isReferenceCountable, values[i]);
      after := MoveIn(after, param, i, temporary, rest);
      param := param[i := temporary];
    }
    assert param == param[..|values|] == Wrapped(isReferenceCountable, values);
    WrappedIsAnswered(isReferenceCountable, values, after, rest);
  }

  /** `(*param)[i] = T(value, true)`: the temporary retains, the move assignment releases what the element held. */
  method MoveIn(counts: map<Handle, nat>, param: seq<Wrapper>, i: nat, temporary: Wrapper, ghost rest: map<Handle, nat>)
    returns (after: map<Handle, nat>)
    requires i < |param| && Counted(counts, rest, param)
    requires temporary.Counts() ==> CountOf(rest, temporary.handle) > 0
    ensures Counted(after, rest, param[i := temporary])
  {
    assert param == param[..i] + param[i..];
    after := Retain(counts, temporary, rest, param[..i], param[i..]);
    assert param[..i] + [temporary] + param[i..] == (param[..i] + [temporary]) + [param[i]] + param[i + 1..];
    after := Release(after, param[i], rest, param[..i] + [temporary], param[i + 1..]);
    assert param[i := temporary] == param[..i] + [temporary] + param[i + 1..];
  }

  /** `vector::resize`: the elements that stay are untouched, the others are destroyed or default-constructed. */
  method Resize(elements: seq<Wrapper>, counts: map<Handle, nat>, n: nat, ghost rest: map<Handle, nat>)
    returns (param: seq<Wrapper>, after: map<Handle, nat>)
    requires Counted(counts, rest, elements)
    ensures |param| == n
    ensures Counted(after, rest, param)
  {
    after := counts;
    if n < |elements| {
      after := DestroyFrom(elements, n, after, rest);
      param := elements[..n];
    } else {
      param := elements;
      for i := |elements| to n
        invariant |param| == i && Counted(after, rest, param)
      {
        Uncounted(after, rest, param, EMPTY);
        param := param + [EMPTY];
      }
    }
  }
}
