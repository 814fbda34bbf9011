/**
 cl::string of CL/cl.hpp: a size and a buffer of size + 1 characters that ends in NUL, or no buffer at all. The heap keeps
 the set of buffers that were allocated and not yet freed, so that a double free, a use after free or a leak would show.
 */
module HeapString {

  const NUL := '\0'

  // ---------------------------------------------------------------------------------------------------------
  // Memory
  // ---------------------------------------------------------------------------------------------------------

  class Heap {
    var live: set<array<char>>

    constructor ()
      ensures live == {}
    {
      live := {};
    }

    method New(n: nat) returns (a: array<char>)
      modifies this
      ensures fresh(a) && a.Length == n && live == old(live) + {a}
    {
      a := new char[n];
      live := live + {a};
    }

    /** Only what is live can be freed; freeing NULL does nothing. */
    method Delete(a: array?<char>)
      requires a == null || a in live
      modifies this
      ensures live == old(live) - Owned(a)
    {
      if a != null { live := live - {a}; }
    }

    /** Copies characters that are not on this heap. */
    method Load(to: array<char>, source: seq<char>)
      requires to in live && |source| <= to.Length
      modifies to
      ensures to[..|source|] == source
      ensures forall k | |source| <= k < to.Length :: to[k] == old(to[k])
    {
      for i := 0 to |source|
        invariant forall k | 0 <= k < i :: to[k] == source[k]
        invariant forall k | i <= k < to.Length :: to[k] == old(to[k])
      {
        to[i] := source[i];
      }
    }

    method Memcpy(to: array<char>, from: array<char>, n: nat)
      requires to in live && from in live && to != from && n <= to.Length && n <= from.Length
      modifies to
      ensures to[..n] == from[..n]
      ensures forall k | n <= k < to.Length :: to[k] == old(to[k])
    {
      Load(to, from[..n]);
    }
  }

  ghost function Owned(a: array?<char>): set<array<char>> {
    if a == null then {} else {a}
  }

  // ---------------------------------------------------------------------------------------------------------
  // Strings
  // ---------------------------------------------------------------------------------------------------------

  function Zeros(n: nat): seq<char> { seq(n, _ => NUL) }

  function Resized(s: seq<char>, n: nat): seq<char> {
    if n <= |s| then s[..n] else s + Zeros(n - |s|)
  }

  /** strlen: the place of the first NUL. */
  function StrLen(s: seq<char>): (n: nat)
    requires NUL in s
    ensures n < |s| && s[n] == NUL && NUL !in s[..n]
  {
    if s[0] == NUL then 0
    else
      var n := 1 + StrLen(s[1..]);
      assert s[..n] == [s[0]] + s[1..][..n - 1];
      n
  }

  datatype Pointer = Null | To(chars: seq<char>)

  ghost predicate Terminated(p: Pointer) { p.To? ==> NUL in p.chars }

  ghost function CValue(p: Pointer): seq<char>
    requires Terminated(p)
  {
    if p.Null? then [] else p.chars[..StrLen(p.chars)]
  }

  class Text {
    var size: nat
    var str: array?<char>

    /** No buffer exactly when the string is empty; otherwise one more cell than characters, and NUL in it. */
    ghost predicate Valid()
      reads this, str
    {
      if str == null then size == 0 else size > 0 && str.Length == size + 1 && str[size] == NUL
    }

    ghost function View(): seq<char>
      requires Valid()
      reads this, str
    {
      if str == null then [] else str[..size]
    }

    constructor ()
      ensures Valid() && View() == [] && str == null
    {
      size, str := 0, null;
    }

    constructor FromBuffer(heap: Heap, source: seq<char>, n: nat)
      requires n <= |source|
      modifies heap
      ensures Valid() && View() == source[..n]
      ensures (str == null || fresh(str)) && heap.live == old(heap.live) + Owned(str)
    {
      size, str := n, null;
      new;
      if n > 0 {
        var buffer := heap.New(size + 1);
        heap.Load(buffer, source[..n]);
        buffer[size] := NUL;
        str := buffer;
      }
    }

    constructor FromC(heap: Heap, source: Pointer)
      requires Terminated(source)
      modifies heap
      ensures Valid() && View() == CValue(source)
      ensures (str == null || fresh(str)) && heap.live == old(heap.live) + Owned(str)
    {
      size, str := 0, null;
      new;
      if source.To? {
        size := StrLen(source.chars);
      }
      if size > 0 {
        var buffer := heap.New(size + 1);
        heap.Load(buffer, source.chars[..size + 1]);
        str := buffer;
      }
    }

    method Resize(heap: Heap, n: nat)
      requires Valid() && Owned(str) <= heap.live
      modifies this, heap
      ensures Valid() && View() == Resized(old(View()), n)
      ensures |View()| == n && forall i | 0 <= i < n :: View()[i] == if i < |old(View())| then old(View())[i] else '\0'
      ensures str == null || str == old(str) || fresh(str)
      ensures heap.live == old(heap.live) - Owned(old(str)) + Owned(str)
    {
      if size == n { return; }
      if n == 0 {
        heap.Delete(str);
        str, size := null, 0;
      } else {
        var buffer := heap.New(n + 1);
        var copySize := if size < n then size else n;
        size := n;
        if str != null {
          heap.Memcpy(buffer, str, copySize + 1);
        }
        var i := copySize;
        while i < size
          invariant copySize <= i <= size == n
          invariant forall k | copySize <= k < i :: buffer[k] == NUL
          invariant str != null ==> buffer[..copySize] == str[..copySize]
          modifies buffer
        {
          buffer[i] := NUL;
          i := i + 1;
        }
        buffer[size] := NUL;
        heap.Delete(str);
        str := buffer;
      }
    }

    method Get(pos: nat) returns (c: char)
      requires Valid() && pos < size
      ensures c == View()[pos]
    {
      c := str[pos];
    }

    method Set(pos: nat, c: char)
      requires Valid() && pos < size
      modifies str
      ensures Valid() && View() == old(View())[pos := c]
    {
      str[pos] := c;
    }

    method CopyAssign(heap: Heap, rhs: Text)
      requires Valid() && rhs.Valid() && Owned(str) <= heap.live && Owned(rhs.str) <= heap.live
      requires rhs != this ==> Owned(str) !! Owned(rhs.str)
      modifies this, heap
      ensures Valid() && View() == old(rhs.View())
      ensures str == null || (str == old(str) && rhs == this) || fresh(str)
      ensures heap.live == old(heap.live) - Owned(old(str)) + Owned(str)
    {
      if this == rhs { return; }
      if str != null {
        heap.Delete(str);
        str, size := null, 0;
      }
      if rhs.size == 0 || rhs.str == null {
        str, size := null, 0;
      } else {
        var buffer := heap.New(rhs.size + 1);
        size := rhs.size;
        heap.Memcpy(buffer, rhs.str, size + 1);
        str := buffer;
      }
    }

    constructor Copy(heap: Heap, rhs: Text)
      requires rhs.Valid() && Owned(rhs.str) <= heap.live
      modifies heap
      ensures Valid() && View() == rhs.View()
      ensures (str == null || fresh(str)) && heap.live == old(heap.live) + Owned(str)
    {
      size, str := 0, null;
      new;
      CopyAssign(heap, rhs);
    }

    method Destroy(heap: Heap)
      requires Valid() && Owned(str) <= heap.live
      modifies this, heap
      ensures heap.live == old(heap.live) - Owned(old(str)) && str == null
    {
      heap.Delete(str);
      str := null;
    }

    /** What `c_str` points to. */
    function CStr(): (p: Pointer)
      requires Valid()
      reads this, str
      ensures p.To? && p.chars == View() + [NUL]
    {
      if str != null then To(str[..]) else To("\0")
    }
  }

  // ---------------------------------------------------------------------------------------------------------
  // C strings
  // ---------------------------------------------------------------------------------------------------------

  /** A string comes back from its C string exactly when it has no NUL of its own; otherwise it is cut at the first. */
  lemma CStrRoundTrip(s: seq<char>)
    ensures var p := To(s + [NUL]);
      && Terminated(p) && CValue(p) <= s
      && (CValue(p) == s <==> NUL !in s)
  {
    var c := s + [NUL];
    assert c[|s|] == NUL;
    var n := StrLen(c);
    assert c[..n] == s[..n];
    if n < |s| {
      assert s[n] == NUL;
    }
  }

  // ---------------------------------------------------------------------------------------------------------
  // Programs over several strings
  // ---------------------------------------------------------------------------------------------------------

  ghost function Union(bs: seq<array?<char>>): set<array<char>> {
    set i | 0 <= i < |bs| && bs[i] != null :: bs[i]
  }

  ghost predicate Separate(bs: seq<array?<char>>) {
    forall i, j | 0 <= i < j < |bs| :: bs[i] == null || bs[i] != bs[j]
  }

  lemma UnionAppend(bs: seq<array?<char>>, b: array?<char>)
    requires Separate(bs) && Owned(b) !! Union(bs)
    ensures Separate(bs + [b]) && Union(bs + [b]) == Union(bs) + Owned(b)
  {
    var after := bs + [b];
    assert after[|bs|] == b;
    assert forall i | 0 <= i < |bs| :: after[i] == bs[i];
  }

  lemma UnionUpdate(bs: seq<array?<char>>, at: nat, b: array?<char>)
    requires at < |bs| && Separate(bs) && (b == bs[at] || Owned(b) !! Union(bs))
    ensures Separate(bs[at := b]) && Union(bs[at := b]) == Union(bs) - Owned(bs[at]) + Owned(b)
  {
    var after := bs[at := b];
    forall x | x in Union(bs) - Owned(bs[at])
      ensures x in Union(after)
    {
      var i :| 0 <= i < |bs| && bs[i] == x;
      assert after[i] == x;
    }
    assert after[at] == b;
  }

  lemma UnionRemove(bs: seq<array?<char>>, at: nat)
    requires at < |bs| && Separate(bs)
    ensures var after := bs[..at] + bs[at + 1..]; Separate(after) && Union(after) == Union(bs) - Owned(bs[at])
  {
    var after := bs[..at] + bs[at + 1..];
    forall x | x in Union(bs) - Owned(bs[at])
      ensures x in Union(after)
    {
      var i :| 0 <= i < |bs| && bs[i] == x;
      assert if i < at then after[i] == x else after[i - 1] == x;
    }
    assert forall i | 0 <= i < |after| :: after[i] == if i < at then bs[i] else bs[i + 1];
  }

  ghost function Buffers(pool: seq<Text>): (bs: seq<array?<char>>)
    reads pool
    ensures |bs| == |pool| && forall i | 0 <= i < |pool| :: bs[i] == pool[i].str
  {
    seq(|pool|, i requires 0 <= i < |pool| reads pool => pool[i].str)
  }

  /** Every live string has a buffer of its own, and the heap holds these buffers and no other. */
  ghost predicate Pool(heap: Heap, pool: seq<Text>)
    reads heap, pool
  {
    && Separate(Buffers(pool)) && heap.live == Union(Buffers(pool))
    && Distinct(pool)
  }

  ghost predicate Is(t: Text, v: seq<char>)
    reads t, t.str
  {
    t.Valid() && t.View() == v
  }

  ghost predicate Shows(pool: seq<Text>, vs: seq<seq<char>>)
    reads pool, Union(Buffers(pool))
  {
    |pool| == |vs| && forall i {:trigger pool[i]} | 0 <= i < |pool| :: Is(pool[i], vs[i])
  }

  /** All strings but the one at `at` show what they showed and hold the buffers they held. */
  ghost predicate OthersKept(pool: seq<Text>, vs: seq<seq<char>>, bs: seq<array?<char>>, at: nat)
    requires |vs| == |bs| == |pool|
    reads pool, Union(Buffers(pool))
  {
    forall i {:trigger pool[i]} | 0 <= i < |pool| && i != at :: Is(pool[i], vs[i]) && pool[i].str == bs[i]
  }

  ghost predicate Distinct(pool: seq<Text>) {
    forall i, j | 0 <= i < j < |pool| :: pool[i] != pool[j]
  }

  /** One string has changed, and its old buffer has been given back for its new one. */
  lemma Updated(heap: Heap, pool: seq<Text>, vs: seq<seq<char>>, bs: seq<array?<char>>, at: nat, v: seq<char>)
    requires at < |pool| == |vs| == |bs| && Distinct(pool) && Separate(bs)
    requires OthersKept(pool, vs, bs, at) && Is(pool[at], v)
    requires pool[at].str == bs[at] || Owned(pool[at].str) !! Union(bs)
    requires heap.live == Union(bs) - Owned(bs[at]) + Owned(pool[at].str)
    ensures Pool(heap, pool) && Shows(pool, vs[at := v])
  {
    var b := pool[at].str;
    UnionUpdate(bs, at, b);
    assert Buffers(pool) == bs[at := b];
  }

  lemma Apart(heap: Heap, pool: seq<Text>, i: nat, j: nat)
    requires Pool(heap, pool) && i < |pool| && j < |pool| && i != j
    ensures pool[i] != pool[j] && Owned(pool[i].str) !! Owned(pool[j].str)
  {
    var bs := Buffers(pool);
    assert bs[i] == pool[i].str && bs[j] == pool[j].str;
  }

  lemma OnHeap(heap: Heap, pool: seq<Text>, i: nat)
    requires Pool(heap, pool) && i < |pool|
    ensures Owned(pool[i].str) <= heap.live
  {
    assert Buffers(pool)[i] == pool[i].str;
  }

  lemma AllApart(heap: Heap, pool: seq<Text>, at: nat)
    requires Pool(heap, pool) && at < |pool|
    ensures Owned(pool[at].str) <= heap.live
    ensures forall i {:trigger pool[i]} | 0 <= i < |pool| && i != at ::
      pool[i] != pool[at] && Owned(pool[i].str) !! Owned(pool[at].str)
  {
    OnHeap(heap, pool, at);
    forall i: nat | i < |pool| && i != at
      ensures pool[i] != pool[at] && Owned(pool[i].str) !! Owned(pool[at].str)
    {
      Apart(heap, pool, i, at);
    }
  }

  method ResizeText(heap: Heap, pool: seq<Text>, ghost vs: seq<seq<char>>, at: nat, n: nat)
    requires Pool(heap, pool) && Shows(pool, vs) && at < |vs|
    modifies heap, pool[at]
    ensures Pool(heap, pool) && Shows(pool, vs[at := Resized(vs[at], n)])
    ensures |Resized(vs[at], n)| == n &&
              forall i | 0 <= i < n :: Resized(vs[at], n)[i] == if i < |vs[at]| then vs[at][i] else '\0'
  {
    ghost var bs := Buffers(pool);
    assert OthersKept(pool, vs, bs, at) && Is(pool[at], vs[at]) && bs[at] == pool[at].str;
    AllApart(heap, pool, at);
    pool[at].Resize(heap, n);
    Updated(heap, pool, vs, bs, at, Resized(vs[at], n));
  }

  method WriteText(heap: Heap, pool: seq<Text>, ghost vs: seq<seq<char>>, at: nat, pos: nat, c: char)
    requires Pool(heap, pool) && Shows(pool, vs) && at < |vs| && pos < |vs[at]|
    modifies pool[at].str
    ensures Pool(heap, pool) && Shows(pool, vs[at := vs[at][pos := c]])
  {
    ghost var bs := Buffers(pool);
    assert OthersKept(pool, vs, bs, at) && Is(pool[at], vs[at]) && bs[at] == pool[at].str;
    AllApart(heap, pool, at);
    pool[at].Set(pos, c);
    Updated(heap, pool, vs, bs, at, vs[at][pos := c]);
  }

  method AssignText(heap: Heap, pool: seq<Text>, ghost vs: seq<seq<char>>, at: nat, of: nat)
    requires Pool(heap, pool) && Shows(pool, vs) && at < |vs| && of < |vs|
    modifies heap, pool[at]
    ensures Pool(heap, pool) && Shows(pool, vs[at := vs[of]])
  {
    ghost var bs := Buffers(pool);
    assert OthersKept(pool, vs, bs, at) && Is(pool[at], vs[at]) && bs[at] == pool[at].str;
    assert Is(pool[of], vs[of]);
    AllApart(heap, pool, at);
    OnHeap(heap, pool, of);
    pool[at].CopyAssign(heap, pool[of]);
    Updated(heap, pool, vs, bs, at, vs[of]);
  }

  lemma Added(heap: Heap, pool: seq<Text>, vs: seq<seq<char>>, bs: seq<array?<char>>, made: Text, v: seq<char>)
    requires |pool| == |vs| == |bs| && Distinct(pool) && made !in pool && Separate(bs)
    requires OthersKept(pool, vs, bs, |pool|) && Is(made, v)
    requires Owned(made.str) !! Union(bs) && heap.live == Union(bs) + Owned(made.str)
    ensures Pool(heap, pool + [made]) && Shows(pool + [made], vs + [v])
  {
    var after := pool + [made];
    UnionAppend(bs, made.str);
    assert Buffers(after) == bs + [made.str];
    assert forall i | 0 <= i < |pool| :: after[i] == pool[i];
  }

  method NewText(heap: Heap, pool: seq<Text>, ghost vs: seq<seq<char>>) returns (after: seq<Text>)
    requires Pool(heap, pool) && Shows(pool, vs)
    ensures Pool(heap, after) && Shows(after, vs + [[]])
  {
    ghost var bs := Buffers(pool);
    var made := new Text();
    Added(heap, pool, vs, bs, made, []);
    after := pool + [made];
  }

  method NewFromBuffer(heap: Heap, pool: seq<Text>, ghost vs: seq<seq<char>>, source: seq<char>, n: nat)
    returns (after: seq<Text>)
    requires Pool(heap, pool) && Shows(pool, vs) && n <= |source|
    modifies heap
    ensures Pool(heap, after) && Shows(after, vs + [source[..n]])
  {
    ghost var bs := Buffers(pool);
    var made := new Text.FromBuffer(heap, source, n);
    Added(heap, pool, vs, bs, made, source[..n]);
    after := pool + [made];
  }

  method NewFromC(heap: Heap, pool: seq<Text>, ghost vs: seq<seq<char>>, source: Pointer) returns (after: seq<Text>)
    requires Pool(heap, pool) && Shows(pool, vs) && Terminated(source)
    modifies heap
    ensures Pool(heap, after) && Shows(after, vs + [CValue(source)])
  {
    ghost var bs := Buffers(pool);
    var made := new Text.FromC(heap, source);
    Added(heap, pool, vs, bs, made, CValue(source));
    after := pool + [made];
  }

  method NewCopy(heap: Heap, pool: seq<Text>, ghost vs: seq<seq<char>>, of: nat) returns (after: seq<Text>)
    requires Pool(heap, pool) && Shows(pool, vs) && of < |vs|
    modifies heap
    ensures Pool(heap, after) && Shows(after, vs + [vs[of]])
  {
    ghost var bs := Buffers(pool);
    assert Is(pool[of], vs[of]);
    OnHeap(heap, pool, of);
    var made := new Text.Copy(heap, pool[of]);
    Added(heap, pool, vs, bs, made, vs[of]);
    after := pool + [made];
  }

  lemma Dropped(heap: Heap, pool: seq<Text>, vs: seq<seq<char>>, bs: seq<array?<char>>, at: nat)
    requires at < |pool| == |vs| == |bs| && Distinct(pool) && Separate(bs)
    requires OthersKept(pool, vs, bs, at) && heap.live == Union(bs) - Owned(bs[at])
    ensures Pool(heap, pool[..at] + pool[at + 1..]) && Shows(pool[..at] + pool[at + 1..], vs[..at] + vs[at + 1..])
  {
    var after := pool[..at] + pool[at + 1..];
    UnionRemove(bs, at);
    assert Buffers(after) == bs[..at] + bs[at + 1..];
    assert forall i | 0 <= i < |after| :: after[i] == if i < at then pool[i] else pool[i + 1];
  }

  method DropText(heap: Heap, pool: seq<Text>, ghost vs: seq<seq<char>>, at: nat) returns (after: seq<Text>)
    requires Pool(heap, pool) && Shows(pool, vs) && at < |vs|
    modifies heap, pool[at]
    ensures Pool(heap, after) && Shows(after, vs[..at] + vs[at + 1..])
  {
    ghost var bs := Buffers(pool);
    assert OthersKept(pool, vs, bs, at) && Is(pool[at], vs[at]) && bs[at] == pool[at].str;
    AllApart(heap, pool, at);
    pool[at].Destroy(heap);
    Dropped(heap, pool, vs, bs, at);
    after := pool[..at] + pool[at + 1..];
  }
}
