/**
 Nodes that hold the same blocks agree, in whatever order they accepted them: the blocks alone determine the lattice but
 for the times, hence every table, the answer to every further block, and what a rollback takes off.
 */
module Agreement {
  import opened Lattice
  import opened Store
  import L = Ledger

  // ---------------------------------------------------------------------------------------------------------
  // The blocks determine the lattice
  // ---------------------------------------------------------------------------------------------------------

  ghost predicate SameBlocks(l: Lattice, k: Lattice) {
    l.blocks == k.blocks && l.genesis == k.genesis && l.genesisAccount == k.genesisAccount
  }

  /** The two places of block `b` differ in their time at most. */
  predicate SameButTime(b: Block, m: Place, n: Place) {
    && m.account == n.account && m.height == n.height && m.balance == n.balance && m.repBlock == n.repBlock
    && (b.Send? ==> m.amount == n.amount)
  }

  ghost predicate SamePlaces(l: Lattice, k: Lattice)
    requires l.place.Keys == l.blocks.Keys
  {
    && l.place.Keys == k.place.Keys
    && forall h {:trigger SameButTime(l.blocks[h], l.place[h], k.place[h])} | h in l.place ::
         SameButTime(l.blocks[h], l.place[h], k.place[h])
  }

  /** The same lattice, but for the order in which its blocks were accepted. */
  ghost predicate Alike(l: Lattice, k: Lattice) {
    && SameBlocks(l, k) && l.receipts == k.receipts
    && l.place.Keys == l.blocks.Keys && SamePlaces(l, k)
  }

  /** A block stands where the blocks below it and the send it collects put it. */
  lemma {:induction false} PlaceDetermined(l: Lattice, k: Lattice, h: Hash)
    requires Chains(l) && Chains(k) && SameBlocks(l, k) && h in l.blocks
    ensures SameButTime(l.blocks[h], l.place[h], k.place[h])
    decreases l.place[h].rank
  {
    assert Placed(l, h) && Placed(k, h);
    var b := l.blocks[h];
    if !b.Open? { PlaceDetermined(l, k, b.previous); }
    if b.Collects() && h != l.genesis { PlaceDetermined(l, k, b.source); }
  }

  lemma ReceiptDetermined(l: Lattice, k: Lattice, s: Hash)
    requires SameBlocks(l, k) && Receipts(l) && Receipts(k) && s in l.receipts
    ensures s in k.receipts && k.receipts[s] == l.receipts[s]
  {
    assert Collected(l, s);
    assert Receipted(k, l.receipts[s]);
  }

  lemma BlocksDetermineLattice(l: Lattice, k: Lattice)
    requires Chains(l) && Chains(k) && SameBlocks(l, k) && Receipts(l) && Receipts(k)
    ensures Alike(l, k)
  {
    forall h | h in l.blocks
      ensures SameButTime(l.blocks[h], l.place[h], k.place[h])
    {
      PlaceDetermined(l, k, h);
    }
    forall s | s in l.receipts || s in k.receipts
      ensures s in l.receipts && s in k.receipts && k.receipts[s] == l.receipts[s]
    {
      if s in l.receipts { ReceiptDetermined(l, k, s); } else { ReceiptDetermined(k, l, s); }
    }
  }

  // ---------------------------------------------------------------------------------------------------------
  // Tables do not know the time
  // ---------------------------------------------------------------------------------------------------------

  lemma HeadsAlike(l: Lattice, k: Lattice, h: Hash)
    requires Alike(l, k)
    ensures IsHead(l, h) <==> IsHead(k, h)
  {
    if h in l.place {
      assert forall x | x in l.place :: SameButTime(l.blocks[x], l.place[x], k.place[x]);
    }
  }

  lemma AccountsAlike(t: Tables, l: Lattice, k: Lattice)
    requires Alike(l, k) && AccountsOk(t.accounts, k)
    ensures AccountsOk(t.accounts, l)
  {
    forall a | a in t.accounts
      ensures AccountOk(l, a, t.accounts[a])
    {
      var info := t.accounts[a];
      assert AccountOk(k, a, info);
      assert SameButTime(l.blocks[info.head], l.place[info.head], k.place[info.head]);
      assert SameButTime(l.blocks[info.openBlock], l.place[info.openBlock], k.place[info.openBlock]);
    }
    forall h | h in l.place
      ensures UnderHead(t.accounts, l.place[h])
    {
      assert UnderHead(t.accounts, k.place[h]) && SameButTime(l.blocks[h], l.place[h], k.place[h]);
    }
  }

  lemma IndexedAlike(t: Tables, l: Lattice, k: Lattice)
    requires Alike(l, k) && Chains(l) && Indexed(t, k)
    ensures Indexed(t, l)
  {
    AccountsAlike(t, l, k);
    forall h | h in l.place
      ensures BlockInfoOk(t.blockInfos, h, l.place[h])
    {
      assert BlockInfoOk(t.blockInfos, h, k.place[h]) && SameButTime(l.blocks[h], l.place[h], k.place[h]);
    }
    forall h | h in t.successors
      ensures SuccessorOk(l, h, t.successors[h])
    {
      assert SuccessorOk(k, h, t.successors[h]);
      HeadsAlike(l, k, h);
    }
  }

  lemma PendingAlike(t: Tables, l: Lattice, k: Lattice)
    requires Alike(l, k) && PendingOk(t.pending, k)
    ensures PendingOk(t.pending, l)
  {
    forall key | key in t.pending
      ensures PendingOf(l, key, t.pending[key])
    {
      assert PendingOf(k, key, t.pending[key]);
      assert SameButTime(l.blocks[key.hash], l.place[key.hash], k.place[key.hash]);
    }
    forall s | s in l.blocks
      ensures Outstanding(t.pending, l, s)
    {
      assert Outstanding(t.pending, k, s);
    }
  }

  /** Tables that hold a lattice hold it at all times. */
  lemma ValidAlike(t: Tables, l: Lattice, k: Lattice)
    requires Alike(l, k) && Chains(l) && Receipts(l) && Store.Valid(t, k)
    ensures Store.Valid(t, l)
  {
    IndexedAlike(t, l, k);
    PendingAlike(t, l, k);
  }

  // ---------------------------------------------------------------------------------------------------------
  // Nodes agree
  // ---------------------------------------------------------------------------------------------------------

  /** The same tables, up to entries of representatives without weight. */
  ghost predicate SameTables(t: Tables, u: Tables) {
    && t.(representation := u.representation) == u
    && forall r :: Weight(t.representation, r) == Weight(u.representation, r)
  }

  lemma AccountsDetermined(t: Tables, u: Tables, l: Lattice, a: Account)
    requires Indexed(t, l) && Indexed(u, l) && a in t.accounts
    ensures a in u.accounts && u.accounts[a] == t.accounts[a]
  {
    HeadOf(l, t.accounts, a);
    assert AccountOk(l, a, t.accounts[a]);
    var h := t.accounts[a].head;
    assert UnderHead(u.accounts, l.place[h]);
    HeadOf(l, u.accounts, a);
    assert AccountOk(l, a, u.accounts[a]);
    assert SamePlace(l.place[h], l.place[u.accounts[a].head]);
    assert SamePlace(l.place[t.accounts[a].openBlock], l.place[u.accounts[a].openBlock]);
  }

  lemma SuccessorsDetermined(t: Tables, u: Tables, l: Lattice, h: Hash)
    requires Indexed(t, l) && Indexed(u, l) && h in l.blocks
    ensures h in t.successors && h in u.successors && t.successors[h] == u.successors[h]
  {
    var s, v := t.successors[h], u.successors[h];
    assert SuccessorOk(l, h, s) && SuccessorOk(l, h, v);
    if s != NO_HASH { assert Placed(l, s); }
    if v != NO_HASH { assert Placed(l, v); }
    if s != NO_HASH && v != NO_HASH { NoForks(l, s, v); }
  }

  lemma IndexesDetermined(t: Tables, u: Tables, l: Lattice)
    requires Indexed(t, l) && Indexed(u, l)
    ensures t.blocks == u.blocks && t.successors == u.successors && t.frontiers == u.frontiers
    ensures t.accounts == u.accounts && t.blockInfos == u.blockInfos
  {
    forall a | a in t.accounts || a in u.accounts
      ensures a in t.accounts && a in u.accounts && u.accounts[a] == t.accounts[a]
    {
      if a in t.accounts { AccountsDetermined(t, u, l, a); } else { AccountsDetermined(u, t, l, a); }
    }
    forall h | h in l.blocks
      ensures t.successors[h] == u.successors[h]
    {
      SuccessorsDetermined(t, u, l, h);
    }
    forall h | h in t.frontiers || h in u.frontiers
      ensures h in t.frontiers && h in u.frontiers && t.frontiers[h] == u.frontiers[h]
    {
      FrontierOf(t, l, h);
      FrontierOf(u, l, h);
    }
    forall h | h in t.blockInfos || h in u.blockInfos
      ensures h in t.blockInfos && h in u.blockInfos && t.blockInfos[h] == u.blockInfos[h]
    {
      assert BlockInfoOk(t.blockInfos, h, l.place[h]) && BlockInfoOk(u.blockInfos, h, l.place[h]);
    }
  }

  /** Two nodes with the same blocks hold the same in every table. */
  lemma TablesDetermined(t: Tables, l: Lattice, u: Tables, k: Lattice)
    requires Store.Valid(t, l) && Store.Valid(u, k)
    requires t.blocks == u.blocks && l.genesis == k.genesis && l.genesisAccount == k.genesisAccount
    ensures SameTables(t, u)
  {
    BlocksDetermineLattice(l, k);
    ValidAlike(u, l, k);
    IndexesDetermined(t, u, l);
    forall key | key in t.pending || key in u.pending
      ensures key in t.pending && key in u.pending && t.pending[key] == u.pending[key]
    {
      PendingKnows(t, l, key);
      PendingKnows(u, l, key);
    }
  }

  lemma {:induction false} WalksAlike(l: Lattice, k: Lattice, h: Hash)
    requires Alike(l, k) && Chains(l) && Chains(k) && h in l.blocks
    ensures Walkable(l, h) <==> Walkable(k, h)
    decreases l.place[h].rank, 1
  {
    assert Placed(l, h) && Placed(k, h) && SameButTime(l.blocks[h], l.place[h], k.place[h]);
    match l.blocks[h]
    case Send(_, _, _) =>
    case SendV2(_, _) =>
    case Receive(previous, source) =>
      SendWalksAlike(l, k, source);
      WalksAlike(l, k, previous);
    case Open(source, _, _) =>
      if h != l.genesis { SendWalksAlike(l, k, source); }
    case Change(previous, _) => WalksAlike(l, k, previous);
  }

  lemma {:induction false} SendWalksAlike(l: Lattice, k: Lattice, s: Hash)
    requires Alike(l, k) && Chains(l) && Chains(k) && s in l.blocks && l.blocks[s].Send?
    ensures SendWalkable(l, s) <==> SendWalkable(k, s)
    decreases l.place[s].rank, 0
  {
    assert Placed(l, s) && Placed(k, s);
    WalksAlike(l, k, l.blocks[s].previous);
  }

  lemma ReversibleAlike(l: Lattice, k: Lattice, x: Hash)
    requires Alike(l, k) && Chains(l) && Chains(k) && x in l.blocks && x != l.genesis
    ensures Reversible(l, x) <==> Reversible(k, x)
  {
    assert Placed(l, x) && Placed(k, x);
    match l.blocks[x]
    case Send(previous, _, _) => WalksAlike(l, k, previous);
    case SendV2(_, _) =>
    case Receive(previous, source) =>
      SendWalksAlike(l, k, source);
      WalksAlike(l, k, previous);
    case Open(source, _, _) => SendWalksAlike(l, k, source);
    case Change(previous, _) => WalksAlike(l, k, previous);
  }

  lemma {:induction false} DependsAlike(l: Lattice, k: Lattice, x: Hash, h: Hash)
    requires Alike(l, k) && Chains(l) && Chains(k) && x in l.blocks
    ensures DependsOn(l, x, h) <==> DependsOn(k, x, h)
    decreases l.place[x].rank
  {
    assert Placed(l, x) && Placed(k, x);
    var b := l.blocks[x];
    if !b.Open? { DependsAlike(l, k, b.previous, h); }
    if b.Collects() && x != l.genesis { DependsAlike(l, k, b.source, h); }
  }

  /** They take off the same blocks in a rollback, and it returns for both or for neither. */
  lemma RollbacksAgree(l: Lattice, k: Lattice, h: Hash)
    requires Chains(l) && Chains(k) && SameBlocks(l, k) && Receipts(l) && Receipts(k)
    ensures Dependents(l, h) == Dependents(k, h)
    ensures AllReversible(l, h) <==> AllReversible(k, h)
  {
    BlocksDetermineLattice(l, k);
    forall x | x in l.blocks
      ensures DependsOn(l, x, h) <==> DependsOn(k, x, h)
      ensures x != l.genesis ==> (Reversible(l, x) <==> Reversible(k, x))
    {
      DependsAlike(l, k, x, h);
      if x != l.genesis { ReversibleAlike(l, k, x); }
    }
  }

  /** They give the same answer to every block. */
  lemma AnswersAgree(l: Lattice, k: Lattice, h: Hash, b: Block, signers: set<Account>)
    requires Chains(l) && Chains(k) && SameBlocks(l, k) && Receipts(l) && Receipts(k)
    ensures L.Verdict(l, h, b, signers) == L.Verdict(k, h, b, signers)
  {
    BlocksDetermineLattice(l, k);
    if b.Open? {
      assert forall x | x in l.place :: SameButTime(l.blocks[x], l.place[x], k.place[x]);
      assert L.IsOpened(l, b.account) <==> L.IsOpened(k, b.account);
    } else if b.previous in l.blocks {
      var p := b.previous;
      assert SameButTime(l.blocks[p], l.place[p], k.place[p]);
      HeadsAlike(l, k, p);
      WalksAlike(l, k, p);
    }
  }
}
