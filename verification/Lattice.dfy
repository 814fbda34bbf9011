/**
 The block lattice of rai/secure.cpp: every account has its own chain of blocks, and a receive or open block of one
 account draws on a send block of another. This module holds the blocks, the place of each block in the lattice, and
 what it means for one block to depend on another. The tables that a node stores are in module Store.
 */
module Lattice {

  type Hash = nat
  type Account = nat

  const MODULUS := 0x1_0000_0000_0000_0000_0000_0000_0000_0000

  /** `rai::uint128_t`. */
  type Amount = n: int | 0 <= n < MODULUS

  /** Addition and subtraction modulo 2^128. */
  function Add128(a: Amount, b: Amount): Amount { if a + b < MODULUS then a + b else a + b - MODULUS }
  function Sub128(a: Amount, b: Amount): Amount { if b <= a then a - b else a - b + MODULUS }

  const GENESIS_AMOUNT: Amount := MODULUS - 1
  const BURN_ACCOUNT: Account := 0
  const NO_HASH: Hash := 0

  /** Every block whose height is a multiple of this gets an entry in `blocks_info`. */
  const BLOCK_INFO_MAX := 32

  datatype Block =
    | Send(previous: Hash, destination: Account, balance: Amount)
    | SendV2(previous: Hash, destination: Account)
    | Receive(previous: Hash, source: Hash)
    | Open(source: Hash, representative: Account, account: Account)
    | Change(previous: Hash, representative: Account)
  {
    /** The block names the account's representative itself. */
    predicate NamesRepresentative() { Open? || Change? }

    /** The block collects a send. */
    predicate Collects() { Receive? || Open? }
  }

  /** The place of a block: its account, its height in the account's chain from 1, the account's balance after it, what
      it sends away, the last block up to it that names a representative, and when it was added. */
  datatype Place = Place(account: Account, height: nat, balance: Amount, amount: Amount, repBlock: Hash, rank: nat)

  /** The blocks with their places, the block that collected each collected send, and the time. */
  datatype Lattice = Lattice(blocks: map<Hash, Block>, place: map<Hash, Place>, receipts: map<Hash, Hash>, clock: nat,
                             genesis: Hash, genesisAccount: Account)

  // ---------------------------------------------------------------------------------------------------------
  // Well-formed lattices
  // ---------------------------------------------------------------------------------------------------------

  /** `previous` is the block below one placed at `m`. */
  ghost predicate Follows(l: Lattice, previous: Hash, m: Place) {
    && previous in l.blocks && previous in l.place
    && l.place[previous].account == m.account
    && l.place[previous].height + 1 == m.height
    && l.place[previous].rank < m.rank
  }

  /** `source` is a send to the account of a block placed at `m`. */
  ghost predicate Funded(l: Lattice, source: Hash, m: Place) {
    && source in l.blocks && source in l.place
    && l.blocks[source].Send?
    && l.blocks[source].destination == m.account
    && l.place[source].rank < m.rank
  }

  /** The account's representative after a block placed at `m` is named by a block of its chain. */
  ghost predicate Represented(l: Lattice, m: Place) {
    && m.repBlock in l.blocks && m.repBlock in l.place
    && l.blocks[m.repBlock].NamesRepresentative()
    && l.place[m.repBlock].account == m.account
    && l.place[m.repBlock].height <= m.height
  }

  /** Block `h` obeys the rule of its kind. */
  ghost predicate Placed(l: Lattice, h: Hash)
    requires h in l.blocks && h in l.place
  {
    var m := l.place[h];
    && m.account != BURN_ACCOUNT
    && m.rank < l.clock
    && Represented(l, m)
    && PlacedByKind(l, h)
  }

  ghost predicate PlacedByKind(l: Lattice, h: Hash)
    requires h in l.blocks && h in l.place
  {
    var m := l.place[h];
    match l.blocks[h]
       case Send(previous, _, balance) =>
         && Follows(l, previous, m)
         && m.repBlock == l.place[previous].repBlock
         && m.balance == balance
         && balance + m.amount == l.place[previous].balance
       case SendV2(previous, _) =>
         && Follows(l, previous, m)
         && m.repBlock == l.place[previous].repBlock
         && m.balance == l.place[previous].balance
       case Receive(previous, source) =>
         && Follows(l, previous, m)
         && Funded(l, source, m)
         && m.repBlock == l.place[previous].repBlock
         && m.balance == l.place[previous].balance + l.place[source].amount
       case Change(previous, _) =>
         && Follows(l, previous, m)
         && m.repBlock == h
         && m.balance == l.place[previous].balance
       case Open(source, _, account) =>
         && m.account == account
         && m.height == 1
         && m.repBlock == h
         && if h == l.genesis then source == account == l.genesisAccount && m.balance == GENESIS_AMOUNT
            else Funded(l, source, m) && m.balance == l.place[source].amount
  }

  /** The hash is a value that the code keeps for another purpose: none, the start of a search, or the genesis source. */
  predicate Reserved(l: Lattice, h: Hash) {
    h == NO_HASH || h == 1 || h == l.genesisAccount
  }

  ghost predicate Chains(l: Lattice) {
    && l.place.Keys == l.blocks.Keys
    && l.genesis in l.blocks && l.blocks[l.genesis].Open?
    && (forall h {:trigger Reserved(l, h)} | h in l.blocks :: !Reserved(l, h))
    && (forall h {:trigger Placed(l, h)} | h in l.blocks :: Placed(l, h))
    && Unique(l.place)
  }

  /** A height of an account holds at most one block. */
  ghost predicate Unique(place: map<Hash, Place>) {
    forall h, k {:trigger SamePlace(place[h], place[k])} | h in place && k in place :: SamePlace(place[h], place[k]) ==> h == k
  }

  predicate SamePlace(m: Place, n: Place) {
    m.account == n.account && m.height == n.height
  }

  /** The receipt of the send `s` is a block that collects it. */
  ghost predicate Collected(l: Lattice, s: Hash)
    requires s in l.receipts
  {
    var r := l.receipts[s];
    && s in l.blocks && l.blocks[s].Send?
    && r in l.blocks && r != l.genesis && l.blocks[r].Collects() && l.blocks[r].source == s
  }

  /** If `r` collects a send then it is that send's receipt. */
  ghost predicate Receipted(l: Lattice, r: Hash)
    requires r in l.blocks
  {
    r != l.genesis && l.blocks[r].Collects() ==>
      l.blocks[r].source in l.receipts && l.receipts[l.blocks[r].source] == r
  }

  /** Each collected send is collected by one block. */
  ghost predicate Receipts(l: Lattice) {
    && (forall s {:trigger Collected(l, s)} | s in l.receipts :: Collected(l, s))
    && (forall r {:trigger Receipted(l, r)} | r in l.blocks :: Receipted(l, r))
  }

  /** No two blocks follow the same block, and no account is opened twice. */
  lemma NoForks(l: Lattice, h: Hash, k: Hash)
    requires Chains(l) && h in l.blocks && k in l.blocks
    requires if l.blocks[h].Open? then l.blocks[k].Open? && l.blocks[h].account == l.blocks[k].account
             else !l.blocks[k].Open? && l.blocks[h].previous == l.blocks[k].previous
    ensures h == k
  {
    assert Placed(l, h) && Placed(l, k);
    assert SamePlace(l.place[h], l.place[k]);
  }

  /** No send is collected twice, and only the account it was sent to collects it. */
  lemma NoDoubleSpend(l: Lattice, r: Hash, q: Hash)
    requires Chains(l) && Receipts(l) && r in l.blocks && q in l.blocks && r != l.genesis && q != l.genesis
    requires l.blocks[r].Collects() && l.blocks[q].Collects() && l.blocks[r].source == l.blocks[q].source
    ensures r == q
    ensures l.blocks[r].source in l.blocks && l.blocks[l.blocks[r].source].Send?
    ensures l.place[r].account == l.blocks[l.blocks[r].source].destination
  {
    assert Placed(l, r) && Receipted(l, r) && Receipted(l, q);
  }

  // ---------------------------------------------------------------------------------------------------------
  // Dependence
  // ---------------------------------------------------------------------------------------------------------

  /** Block `x` is `h` or could not be there without `h`. */
  ghost predicate DependsOn(l: Lattice, x: Hash, h: Hash)
    requires Chains(l) && x in l.blocks
    decreases l.place[x].rank
  {
    assert Placed(l, x);
    || x == h
    || (!l.blocks[x].Open? && DependsOn(l, l.blocks[x].previous, h))
    || (l.blocks[x].Collects() && x != l.genesis && DependsOn(l, l.blocks[x].source, h))
  }

  ghost function Dependents(l: Lattice, h: Hash): set<Hash>
    requires Chains(l)
  {
    set x | x in l.blocks && DependsOn(l, x, h)
  }

  lemma {:induction false} DependsTransitive(l: Lattice, x: Hash, y: Hash, z: Hash)
    requires Chains(l) && x in l.blocks && y in l.blocks && DependsOn(l, x, y) && DependsOn(l, y, z)
    ensures DependsOn(l, x, z)
    decreases l.place[x].rank
  {
    assert Placed(l, x);
    if x != y {
      if !l.blocks[x].Open? && DependsOn(l, l.blocks[x].previous, y) {
        DependsTransitive(l, l.blocks[x].previous, y, z);
      } else {
        DependsTransitive(l, l.blocks[x].source, y, z);
      }
    }
  }

  /** Dependents come later. */
  lemma {:induction false} DependsLater(l: Lattice, x: Hash, h: Hash)
    requires Chains(l) && x in l.blocks && DependsOn(l, x, h)
    ensures h in l.blocks && l.place[h].rank <= l.place[x].rank
    ensures x != h ==> l.place[h].rank < l.place[x].rank
    ensures x == l.genesis ==> h == l.genesis
    decreases l.place[x].rank
  {
    assert Placed(l, x);
    if x != h {
      if !l.blocks[x].Open? && DependsOn(l, l.blocks[x].previous, h) {
        DependsLater(l, l.blocks[x].previous, h);
      } else {
        DependsLater(l, l.blocks[x].source, h);
      }
    }
  }

  /** A block depends on every block below it in its chain. */
  lemma {:induction false} ChainDepends(l: Lattice, x: Hash, h: Hash)
    requires Chains(l) && x in l.blocks && h in l.blocks
    requires l.place[x].account == l.place[h].account && l.place[h].height <= l.place[x].height
    ensures DependsOn(l, x, h)
    decreases l.place[x].height
  {
    assert Placed(l, x) && Placed(l, h);
    if SamePlace(l.place[x], l.place[h]) {
    } else {
      ChainDepends(l, l.blocks[x].previous, h);
    }
  }

  // ---------------------------------------------------------------------------------------------------------
  // Which balance walks come to an end
  // ---------------------------------------------------------------------------------------------------------

  /** `balance_visitor` started at `h` ends: it does not come upon a SendV2 block, where it would stay forever, before
      a send, an open, or a block with a stored balance. */
  ghost predicate Walkable(l: Lattice, h: Hash)
    requires Chains(l) && h in l.blocks
    decreases l.place[h].rank
  {
    assert Placed(l, h);
    match l.blocks[h]
    case Send(_, _, _) => true
    case SendV2(_, _) => false
    case Receive(previous, source) =>
      SendWalkable(l, source) && (Stored(l, h) || Walkable(l, previous))
    case Open(source, _, _) => h == l.genesis || SendWalkable(l, source)
    case Change(previous, _) => Stored(l, h) || Walkable(l, previous)
  }

  /** `amount_visitor` started at the send `s` ends. */
  ghost predicate SendWalkable(l: Lattice, s: Hash)
    requires Chains(l) && s in l.blocks && l.blocks[s].Send?
    decreases l.place[s].rank
  {
    assert Placed(l, s);
    Walkable(l, l.blocks[s].previous)
  }

  /** The balance after `h` is stored in `blocks_info`. */
  ghost predicate Stored(l: Lattice, h: Hash)
    requires h in l.place
  {
    l.place[h].height % BLOCK_INFO_MAX == 0
  }

  /** `rollback_visitor` can undo block `x`: the kind is one it undoes, and its balance walks end. */
  ghost predicate Reversible(l: Lattice, x: Hash)
    requires Chains(l) && x in l.blocks && x != l.genesis
  {
    assert Placed(l, x);
    match l.blocks[x]
    case Send(previous, _, _) => Walkable(l, previous)
    case SendV2(_, _) => false
    case Receive(previous, source) => SendWalkable(l, source) && Walkable(l, previous)
    case Open(source, _, _) => SendWalkable(l, source)
    case Change(previous, _) => Walkable(l, previous)
  }

  // ---------------------------------------------------------------------------------------------------------
  // Adding and removing blocks
  // ---------------------------------------------------------------------------------------------------------

  ghost function Extend(l: Lattice, h: Hash, b: Block, m: Place): Lattice {
    l.(blocks := l.blocks[h := b], place := l.place[h := m], clock := l.clock + 1,
       receipts := if b.Collects() then l.receipts[b.source := h] else l.receipts)
  }

  ghost function Remove(l: Lattice, gone: set<Hash>): Lattice {
    l.(blocks := l.blocks - gone, place := l.place - gone,
       receipts := map s | s in l.receipts && s !in gone && l.receipts[s] !in gone :: l.receipts[s])
  }

  lemma ExtendPlaced(l: Lattice, h: Hash, b: Block, m: Place, x: Hash)
    requires x in l.blocks && x in l.place && Placed(l, x) && h !in l.blocks && h !in l.place
    ensures Placed(Extend(l, h, b, m), x)
  {
  }

  lemma ExtendAllPlaced(l: Lattice, h: Hash, b: Block, m: Place)
    requires Chains(l) && h !in l.blocks && Placed(Extend(l, h, b, m), h)
    ensures var n := Extend(l, h, b, m);
            forall x {:trigger Placed(n, x)} | x in n.blocks :: x in n.place && Placed(n, x)
  {
    var n := Extend(l, h, b, m);
    forall x | x in n.blocks
      ensures x in n.place && Placed(n, x)
    {
      if x != h {
        assert Placed(l, x);
        ExtendPlaced(l, h, b, m, x);
      }
    }
  }

  lemma ExtendUnique(place: map<Hash, Place>, h: Hash, m: Place)
    requires Unique(place) && h !in place
    requires forall k | k in place :: place[k].account == m.account ==> place[k].height != m.height
    ensures Unique(place[h := m])
  {
    var place' := place[h := m];
    forall x, y | x in place' && y in place' && SamePlace(place'[x], place'[y])
      ensures x == y
    {
      if x != h && y != h { assert SamePlace(place[x], place[y]); }
    }
  }

  lemma ReduceUnique(place: map<Hash, Place>, gone: set<Hash>)
    requires Unique(place)
    ensures Unique(place - gone)
  {
    forall x, y | x in place - gone && y in place - gone && SamePlace((place - gone)[x], (place - gone)[y])
      ensures x == y
    {
      assert SamePlace(place[x], place[y]);
    }
  }

  /** A rightly placed new block at a free height keeps the lattice well-formed. */
  lemma ExtendChains(l: Lattice, h: Hash, b: Block, m: Place)
    requires Chains(l) && h !in l.blocks && !Reserved(l, h) && Placed(Extend(l, h, b, m), h)
    requires forall k | k in l.place :: l.place[k].account == m.account ==> l.place[k].height != m.height
    ensures Chains(Extend(l, h, b, m))
  {
    var n := Extend(l, h, b, m);
    ExtendAllPlaced(l, h, b, m);
    ExtendUnique(l.place, h, m);
    forall x | x in n.blocks
      ensures !Reserved(n, x)
    {
      if x != h { assert !Reserved(l, x); }
    }
  }

  lemma ExtendReceipts(l: Lattice, h: Hash, b: Block, m: Place)
    requires Chains(l) && Receipts(l) && h !in l.blocks
    requires b.Collects() ==> b.source in l.blocks && l.blocks[b.source].Send? && b.source !in l.receipts
    ensures Receipts(Extend(l, h, b, m))
  {
    var n := Extend(l, h, b, m);
    forall s | s in l.receipts
      ensures l.receipts[s] != h
    {
      assert Collected(l, s);
    }
    forall s | s in n.receipts
      ensures Collected(n, s)
    {
      if s in l.receipts { assert Collected(l, s); }
    }
    forall r | r in n.blocks
      ensures Receipted(n, r)
    {
      if r != h { assert Receipted(l, r); }
    }
  }

  /** `h` is the last block of its chain. */
  ghost predicate IsHead(l: Lattice, h: Hash) {
    && h in l.place
    && forall x | x in l.place :: l.place[x].account == l.place[h].account ==> l.place[x].height <= l.place[h].height
  }

  /** Nothing else depends on the last block of a chain, unless it is a collected send. */
  lemma HeadIsUnused(l: Lattice, h: Hash, x: Hash)
    requires Chains(l) && Receipts(l) && IsHead(l, h) && h !in l.receipts && x in l.blocks && x != h
    ensures !l.blocks[x].Open? ==> l.blocks[x].previous != h
    ensures x != l.genesis && l.blocks[x].Collects() ==> l.blocks[x].source != h
    ensures l.place[x].repBlock != h
  {
    assert Placed(l, x) && Receipted(l, x);
    assert SamePlace(l.place[x], l.place[h]) ==> x == h;
  }

  lemma RemoveHeadPlaced(l: Lattice, h: Hash)
    requires Chains(l) && Receipts(l) && IsHead(l, h) && h !in l.receipts && h != l.genesis
    ensures var n := Remove(l, {h});
            forall x {:trigger Placed(n, x)} | x in n.blocks :: x in n.place && Placed(n, x)
  {
    var n := Remove(l, {h});
    forall x | x in n.blocks
      ensures x in n.place && Placed(n, x)
    {
      assert Placed(l, x);
      HeadIsUnused(l, h, x);
    }
  }

  lemma RemoveHead(l: Lattice, h: Hash)
    requires Chains(l) && Receipts(l) && IsHead(l, h) && h !in l.receipts && h != l.genesis
    ensures Chains(Remove(l, {h}))
    ensures Receipts(Remove(l, {h}))
  {
    var n := Remove(l, {h});
    ReduceUnique(l.place, {h});
    RemoveHeadPlaced(l, h);
    forall x | x in n.blocks
      ensures !Reserved(n, x)
    {
      assert !Reserved(l, x);
    }
    forall s | s in n.receipts
      ensures Collected(n, s)
    {
      assert Collected(l, s);
    }
    forall r | r in n.blocks
      ensures Receipted(n, r)
    {
      assert Receipted(l, r);
      HeadIsUnused(l, h, r);
    }
  }

  lemma {:induction false} OnlyHeadDepends(l: Lattice, h: Hash, x: Hash)
    requires Chains(l) && Receipts(l) && IsHead(l, h) && h !in l.receipts && x in l.blocks && DependsOn(l, x, h)
    ensures x == h
    decreases l.place[x].rank
  {
    if x != h {
      HeadIsUnused(l, h, x);
      assert Placed(l, x);
      if !l.blocks[x].Open? && DependsOn(l, l.blocks[x].previous, h) {
        OnlyHeadDepends(l, h, l.blocks[x].previous);
      } else {
        OnlyHeadDepends(l, h, l.blocks[x].source);
      }
    }
  }

  lemma RemoveTwice(l: Lattice, a: set<Hash>, b: set<Hash>)
    ensures Remove(Remove(l, a), b) == Remove(l, a + b)
  {
    assert l.blocks - a - b == l.blocks - (a + b);
    assert l.place - a - b == l.place - (a + b);
    assert Remove(Remove(l, a), b).receipts == Remove(l, a + b).receipts;
  }

  lemma RemoveNothing(l: Lattice)
    ensures Remove(l, {}) == l
  {
    assert l.blocks - {} == l.blocks;
    assert l.place - {} == l.place;
    assert Remove(l, {}).receipts == l.receipts;
  }

  /** What is left depends on the same blocks as before, and its walks end as before. */
  lemma {:induction false} RemoveKeepsDependence(l: Lattice, gone: set<Hash>, x: Hash, h: Hash)
    requires Chains(l) && Chains(Remove(l, gone)) && x in Remove(l, gone).blocks
    ensures DependsOn(Remove(l, gone), x, h) <==> DependsOn(l, x, h)
    decreases l.place[x].rank
  {
    var k := Remove(l, gone);
    assert Placed(l, x) && Placed(k, x);
    if !l.blocks[x].Open? { RemoveKeepsDependence(l, gone, l.blocks[x].previous, h); }
    if l.blocks[x].Collects() && x != l.genesis { RemoveKeepsDependence(l, gone, l.blocks[x].source, h); }
  }

  lemma {:induction false} RemoveKeepsWalks(l: Lattice, gone: set<Hash>, x: Hash)
    requires Chains(l) && Chains(Remove(l, gone)) && x in Remove(l, gone).blocks
    ensures Walkable(Remove(l, gone), x) <==> Walkable(l, x)
    decreases l.place[x].rank
  {
    var k := Remove(l, gone);
    assert Placed(l, x) && Placed(k, x);
    match l.blocks[x]
    case Send(_, _, _) =>
    case SendV2(_, _) =>
    case Receive(previous, source) =>
      RemoveKeepsSendWalks(l, gone, source);
      RemoveKeepsWalks(l, gone, previous);
    case Open(source, _, _) =>
      if x != l.genesis { RemoveKeepsSendWalks(l, gone, source); }
    case Change(previous, _) =>
      RemoveKeepsWalks(l, gone, previous);
  }

  lemma {:induction false} RemoveKeepsSendWalks(l: Lattice, gone: set<Hash>, s: Hash)
    requires Chains(l) && Chains(Remove(l, gone)) && s in Remove(l, gone).blocks && l.blocks[s].Send?
    ensures SendWalkable(Remove(l, gone), s) <==> SendWalkable(l, s)
    decreases l.place[s].rank
  {
    assert Placed(l, s) && Placed(Remove(l, gone), s);
    RemoveKeepsWalks(l, gone, l.blocks[s].previous);
  }

  lemma RemoveKeepsReversible(l: Lattice, gone: set<Hash>, x: Hash)
    requires Chains(l) && Chains(Remove(l, gone)) && x in Remove(l, gone).blocks && x != l.genesis
    ensures Reversible(Remove(l, gone), x) <==> Reversible(l, x)
  {
    assert Placed(l, x) && Placed(Remove(l, gone), x);
    match l.blocks[x]
    case Send(previous, _, _) => RemoveKeepsWalks(l, gone, previous);
    case SendV2(_, _) =>
    case Receive(previous, source) =>
      RemoveKeepsSendWalks(l, gone, source);
      RemoveKeepsWalks(l, gone, previous);
    case Open(source, _, _) => RemoveKeepsSendWalks(l, gone, source);
    case Change(previous, _) => RemoveKeepsWalks(l, gone, previous);
  }

  /** Everything a remaining block depends on remains. */
  lemma {:induction false} RemainingNeeds(l: Lattice, gone: set<Hash>, x: Hash, h: Hash)
    requires Chains(l) && Chains(Remove(l, gone)) && x in Remove(l, gone).blocks && DependsOn(l, x, h)
    ensures h in Remove(l, gone).blocks
  {
    RemoveKeepsDependence(l, gone, x, h);
    DependsLater(Remove(l, gone), x, h);
  }

  // ---------------------------------------------------------------------------------------------------------
  // Rolling back a block and all that depends on it
  // ---------------------------------------------------------------------------------------------------------

  /** Every block that depends on `h` can be undone. */
  ghost predicate AllReversible(l: Lattice, h: Hash)
    requires Chains(l)
  {
    forall x | x in Dependents(l, h) && x != l.genesis :: Reversible(l, x)
  }

  /** `l` is what is left of `l0` after some dependents of `h`, all of them reversible, have been taken off. */
  ghost predicate Partly(l0: Lattice, l: Lattice, gone: set<Hash>, h: Hash) {
    && Chains(l0) && Chains(l)
    && l == Remove(l0, gone)
    && gone <= Dependents(l0, h)
    && (forall x | x in gone && x != l0.genesis :: Reversible(l0, x))
  }

  /** `y`, a dependent of `h` that is still there, is taken off with its own dependents. */
  lemma PartlyMore(l0: Lattice, l: Lattice, gone: set<Hash>, h: Hash, y: Hash)
    requires Partly(l0, l, gone, h) && y in l.blocks && DependsOn(l, y, h) && AllReversible(l, y)
    requires Chains(Remove(l, Dependents(l, y)))
    ensures Partly(l0, Remove(l, Dependents(l, y)), gone + Dependents(l, y), h)
  {
    var more := Dependents(l, y);
    RemoveTwice(l0, gone, more);
    forall x | x in more
      ensures x in Dependents(l0, h)
      ensures x != l0.genesis ==> Reversible(l0, x)
    {
      DependsTransitive(l, x, y, h);
      RemoveKeepsDependence(l0, gone, x, h);
      if x != l0.genesis { RemoveKeepsReversible(l0, gone, x); }
    }
  }

  /** If `y`, a dependent of `h`, cannot be taken off with its dependents then neither can `h`. */
  lemma PartlyStuck(l0: Lattice, l: Lattice, gone: set<Hash>, h: Hash, y: Hash)
    requires Partly(l0, l, gone, h) && y in l.blocks && DependsOn(l, y, h) && !AllReversible(l, y)
    ensures !AllReversible(l0, h)
  {
    var x :| x in Dependents(l, y) && x != l.genesis && !Reversible(l, x);
    DependsTransitive(l, x, y, h);
    RemoveKeepsDependence(l0, gone, x, h);
    RemoveKeepsReversible(l0, gone, x);
    assert x in Dependents(l0, h);
  }

  /** Once `h` is gone, exactly its dependents are. */
  lemma PartlyAll(l0: Lattice, l: Lattice, gone: set<Hash>, h: Hash)
    requires Partly(l0, l, gone, h) && h !in l.blocks
    ensures gone == Dependents(l0, h) && l == Remove(l0, Dependents(l0, h)) && AllReversible(l0, h)
  {
    forall x | x in Dependents(l0, h)
      ensures x in gone
    {
      if x !in gone {
        RemoveKeepsDependence(l0, gone, x, h);
        DependsLater(l, x, h);
        assert false;
      }
    }
  }
}
