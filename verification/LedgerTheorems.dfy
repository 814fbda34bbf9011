/**
 What the ledger promises, stated over the tables and the lattice: a rollback takes back a processed block, it removes no
 more than it must, which calls never return, and the votes add up to the money in the accounts.
 */
module LedgerTheorems {
  import opened Agreement
  import opened Lattice
  import opened Store
  import opened Sums
  import L = Ledger

  // ---------------------------------------------------------------------------------------------------------
  // Rollback against process
  // ---------------------------------------------------------------------------------------------------------

  /** Nothing depends on a block that has just been added but the block itself. */
  lemma {:induction false} NewIsUnused(l: Lattice, h: Hash, b: Block, m: Place, x: Hash)
    requires Chains(l) && Chains(Extend(l, h, b, m)) && h !in l.blocks && x in l.blocks
    ensures !DependsOn(Extend(l, h, b, m), x, h)
    decreases l.place[x].rank
  {
    var n := Extend(l, h, b, m);
    assert Placed(l, x) && Placed(n, x);
    if !l.blocks[x].Open? { NewIsUnused(l, h, b, m, l.blocks[x].previous); }
    if l.blocks[x].Collects() && x != l.genesis { NewIsUnused(l, h, b, m, l.blocks[x].source); }
  }

  lemma OnlyNewDepends(l: Lattice, h: Hash, b: Block)
    requires Chains(l) && Fits(l, h, b) && Chains(Accepted(l, h, b))
    ensures Dependents(Accepted(l, h, b), h) == {h}
  {
    var n := Accepted(l, h, b);
    forall x | x in Dependents(n, h)
      ensures x == h
    {
      if x != h { NewIsUnused(l, h, b, PlaceFor(l, h, b), x); }
    }
    assert DependsOn(n, h, h);
  }

  lemma RemoveNew(l: Lattice, h: Hash, b: Block)
    requires Chains(l) && Receipts(l) && Fits(l, h, b) && Chains(Accepted(l, h, b))
    ensures Remove(Accepted(l, h, b), Dependents(Accepted(l, h, b), h)) == l.(clock := l.clock + 1)
  {
    var n := Accepted(l, h, b);
    OnlyNewDepends(l, h, b);
    assert n.blocks - {h} == l.blocks;
    assert n.place - {h} == l.place;
    forall s | s in l.receipts
      ensures s != h && l.receipts[s] != h
    {
      assert Collected(l, s);
    }
    assert Remove(n, {h}).receipts == l.receipts;
  }

  /** Rolling back a block that has just been processed restores every table. */
  lemma RollbackUndoesProcess(t: Tables, l: Lattice, h: Hash, b: Block, u: Tables)
    requires Store.Valid(t, l) && Fits(l, h, b) && Chains(Accepted(l, h, b))
    requires Store.Valid(u, Remove(Accepted(l, h, b), Dependents(Accepted(l, h, b), h)))
    ensures SameTables(t, u)
  {
    RemoveNew(l, h, b);
    TablesDetermined(t, l, u, Remove(Accepted(l, h, b), Dependents(Accepted(l, h, b), h)));
  }

  /** Block `b`, once it is on top of `l`, can be undone: it is no SendV2 block, and no walk that undoing it takes comes upon
      one. */
  ghost predicate TakenBack(l: Lattice, b: Block)
    requires Chains(l)
    requires !b.Open? ==> b.previous in l.blocks
    requires b.Collects() ==> b.source in l.blocks && l.blocks[b.source].Send?
  {
    match b
    case Send(previous, _, _) => Walkable(l, previous)
    case SendV2(_, _) => false
    case Receive(previous, source) => SendWalkable(l, source) && Walkable(l, previous)
    case Open(source, _, _) => SendWalkable(l, source)
    case Change(previous, _) => Walkable(l, previous)
  }

  /** The walks below a new block end as before. */
  lemma WalksBelow(l: Lattice, h: Hash, b: Block, x: Hash)
    requires Chains(l) && Receipts(l) && Fits(l, h, b) && Chains(Accepted(l, h, b)) && x in l.blocks
    ensures Walkable(Accepted(l, h, b), x) <==> Walkable(l, x)
  {
    var n := Accepted(l, h, b);
    RemoveNew(l, h, b);
    ChainsWithoutDependents(n, h);
    var rest := Remove(n, Dependents(n, h));
    RemoveKeepsWalks(n, Dependents(n, h), x);
    assert Alike(l, rest);
    WalksAlike(l, rest, x);
  }

  /** The rollback of a new block returns exactly when the block can be undone. */
  lemma NewReversible(l: Lattice, h: Hash, b: Block)
    requires Chains(l) && Receipts(l) && Fits(l, h, b) && Chains(Accepted(l, h, b))
    ensures AllReversible(Accepted(l, h, b), h) <==> TakenBack(l, b)
  {
    var n := Accepted(l, h, b);
    OnlyNewDepends(l, h, b);
    assert AllReversible(n, h) <==> Reversible(n, h);
    if !b.Open? { WalksBelow(l, h, b, b.previous); }
    if b.Collects() {
      assert Placed(l, b.source) && Placed(n, b.source);
      WalksBelow(l, h, b, l.blocks[b.source].previous);
    }
  }

  /** Processing a block and rolling it back at once. */
  method ProcessAndRollback(ledger: L.Ledger, h: Hash, b: Block, signers: set<Account>)
    returns (code: L.Code, ending: L.Ending)
    requires ledger.Valid() && (L.CheckVerdict(ledger.lattice, h, b, signers) == L.Progress ==> !Reserved(ledger.lattice, h))
    modifies ledger
    ensures code == L.Verdict(old(ledger.lattice), h, b, signers)
    ensures code == L.Progress ==>
              && Fits(old(ledger.lattice), h, b)
              && ending == (if TakenBack(old(ledger.lattice), b) then L.Returned else L.Endless)
    ensures code == L.Progress && ending == L.Returned ==>
              && ledger.Valid() && SameTables(old(ledger.View()), ledger.View())
  {
    ghost var t, l := ledger.View(), ledger.lattice;
    ending := L.Returned;
    code := ledger.Process(h, b, signers);
    if code == L.Progress {
      NewReversible(l, h, b);
      ending := ledger.Rollback(h);
      if ending == L.Returned {
        RollbackUndoesProcess(t, l, h, b, ledger.View());
      }
    }
  }

  // ---------------------------------------------------------------------------------------------------------
  // Calls that never return
  // ---------------------------------------------------------------------------------------------------------

  /** Every well-signed change on top of a SendV2 block keeps `process` from returning. */
  lemma ChangeNeverReturns(l: Lattice, h: Hash, b: Block, signers: set<Account>)
    requires Chains(l) && h !in l.blocks && b.Change? && b.previous in l.blocks && IsHead(l, b.previous)
    requires l.blocks[b.previous].SendV2? && l.place[b.previous].account in signers
    ensures L.Verdict(l, h, b, signers) == L.NoReturn
  {}

  /** No block that a SendV2 block depends on can be rolled back, and neither can the SendV2 block itself. */
  lemma RollbackNeverReturns(l: Lattice, h: Hash, x: Hash)
    requires Chains(l) && x in l.blocks && l.blocks[x].SendV2? && DependsOn(l, x, h)
    ensures !AllReversible(l, h)
  {
    assert x in Dependents(l, h);
    assert Placed(l, l.genesis) && !Reversible(l, x);
  }

  /** A SendV2 block fits on top of the genesis block. */
  lemma FirstSecondKind(l: Lattice, genesis: Hash, account: Account, destination: Account, h: Hash)
    requires Chains(l) && l.genesis == genesis && l.blocks == map[genesis := Open(account, account, account)]
    requires h != genesis
    ensures l.genesisAccount == account
    ensures L.Verdict(l, h, SendV2(genesis, destination), {account}) == L.Progress
  {
    assert Placed(l, genesis);
    assert IsHead(l, genesis);
  }

  /** A new ledger of which a SendV2 block has been put on top of the genesis block. */
  method SecondKindOnTop(genesis: Hash, account: Account, destination: Account, h: Hash) returns (ledger: L.Ledger)
    requires genesis != NO_HASH && genesis != 1 && genesis != account && account != BURN_ACCOUNT
    requires h != NO_HASH && h != 1 && h != account && h != genesis
    ensures fresh(ledger) && ledger.Valid()
    ensures ledger.lattice.genesis == genesis && ledger.lattice.genesisAccount == account
    ensures ledger.lattice.blocks == map[genesis := Open(account, account, account), h := SendV2(genesis, destination)]
    ensures ledger.lattice.place[h].account == account && IsHead(ledger.lattice, h)
  {
    ledger := new L.Ledger(genesis, account);
    FirstSecondKind(ledger.lattice, genesis, account, destination, h);
    var code := ledger.Process(h, SendV2(genesis, destination), {account});
    assert Placed(ledger.lattice, genesis) && Placed(ledger.lattice, h);
  }

  /** From a new ledger, a change block after a SendV2 block never returns, and neither does the rollback of the SendV2
      block. */
  method CallsThatNeverReturn(genesis: Hash, account: Account, destination: Account, h: Hash, k: Hash, representative: Account)
    returns (code: L.Code, ending: L.Ending)
    requires genesis != NO_HASH && genesis != 1 && genesis != account && account != BURN_ACCOUNT
    requires h != NO_HASH && h != 1 && h != account && h != genesis
    requires k != NO_HASH && k != 1 && k != account && k != genesis && k != h
    ensures code == L.NoReturn && ending == L.Endless
  {
    var first := SecondKindOnTop(genesis, account, destination, h);
    ChangeNeverReturns(first.lattice, k, Change(h, representative), {account});
    code := first.Process(k, Change(h, representative), {account});

    var second := SecondKindOnTop(genesis, account, destination, h);
    RollbackNeverReturns(second.lattice, h, h);
    ending := second.Rollback(h);
  }

  // ---------------------------------------------------------------------------------------------------------
  // A rollback removes what it must and no more
  // ---------------------------------------------------------------------------------------------------------

  lemma ChainsWithoutDependents(l: Lattice, h: Hash)
    requires Chains(l) && h in l.blocks && h != l.genesis
    ensures Chains(Remove(l, Dependents(l, h)))
  {
    var gone := Dependents(l, h);
    var n := Remove(l, gone);
    if l.genesis in gone { DependsLater(l, l.genesis, h); }
    forall x | x in n.blocks
      ensures Placed(n, x) && !Reserved(n, x)
    {
      assert Placed(l, x) && !Reserved(l, x);
      ChainDepends(l, x, l.place[x].repBlock);
      if l.place[x].repBlock in gone { DependsTransitive(l, x, l.place[x].repBlock, h); }
    }
    ReduceUnique(l.place, gone);
  }

  /** Without `h` and its dependents the lattice is well-formed. */
  lemma WithoutDependents(l: Lattice, h: Hash)
    requires Chains(l) && Receipts(l) && h in l.blocks && h != l.genesis
    ensures Chains(Remove(l, Dependents(l, h)))
    ensures Receipts(Remove(l, Dependents(l, h)))
  {
    ChainsWithoutDependents(l, h);
    var n := Remove(l, Dependents(l, h));
    forall s | s in n.receipts
      ensures Collected(n, s)
    {
      assert Collected(l, s);
    }
    forall r | r in n.blocks
      ensures Receipted(n, r)
    {
      assert Placed(l, r) && Receipted(l, r);
    }
  }

  /** Every well-formed lattice that is left when `h` goes has lost all its dependents. */
  lemma DependentsMustGo(l: Lattice, h: Hash, gone: set<Hash>)
    requires Chains(l) && h in l.blocks && h in gone && Chains(Remove(l, gone))
    ensures Dependents(l, h) <= gone
  {
    forall x | x in Dependents(l, h)
      ensures x in gone
    {
      if x !in gone { RemainingNeeds(l, gone, x, h); }
    }
  }

  // ---------------------------------------------------------------------------------------------------------
  // Votes and money
  // ---------------------------------------------------------------------------------------------------------

  function Itself(): Amount -> nat { (x: Amount) => x }

  /** If account `a` did not vote, its representative would have that much less. */
  ghost function Unvoted(representation: map<Account, Amount>, x: Holding): map<Account, Amount>
    requires x.balance <= Weight(representation, x.representative)
  {
    if x.representative in representation
    then representation[x.representative := representation[x.representative] - x.balance]
    else representation
  }

  lemma WithoutOneVoter(representation: map<Account, Amount>, hs: map<Account, Holding>, a: Account)
    requires WeightsOk(representation, hs) && a in hs
    ensures hs[a].balance <= Weight(representation, hs[a].representative)
    ensures WeightsOk(Unvoted(representation, hs[a]), hs - {a})
    ensures Sum(Unvoted(representation, hs[a]), Itself()) + hs[a].balance == Sum(representation, Itself())
  {
    var x := hs[a];
    SumWithout(hs, VotesFor(x.representative), a);
    assert Weight(representation, x.representative) == Sum(hs, VotesFor(x.representative));
    var less := Unvoted(representation, x);
    forall r
      ensures Weight(less, r) == Sum(hs - {a}, VotesFor(r))
    {
      SumWithout(hs, VotesFor(r), a);
      assert Weight(representation, r) == Sum(hs, VotesFor(r));
    }
    if x.representative in representation {
      var rest: Amount := representation[x.representative] - x.balance;
      SumPut<Account, Amount>(representation, Itself(), x.representative, rest);
    }
  }

  lemma NoVoters(representation: map<Account, Amount>, hs: map<Account, Holding>)
    requires WeightsOk(representation, hs) && hs == map[]
    ensures Sum(representation, Itself()) == 0
  {
    forall r
      ensures Weight(representation, r) == 0
    {
      assert Sum(hs, VotesFor(r)) == 0;
    }
    SumOfZeros(representation);
  }

  lemma {:induction false} WeightsAddUp(representation: map<Account, Amount>, hs: map<Account, Holding>)
    requires WeightsOk(representation, hs)
    ensures Sum(representation, Itself()) == Sum(hs, BalanceOf())
    decreases |hs|
  {
    if hs == map[] {
      NoVoters(representation, hs);
    } else {
      var a :| a in hs;
      WithoutOneVoter(representation, hs, a);
      SumWithout(hs, BalanceOf(), a);
      WeightsAddUp(Unvoted(representation, hs[a]), hs - {a});
    }
  }

  lemma {:induction false} SumOfZeros(representation: map<Account, Amount>)
    requires forall r :: Weight(representation, r) == 0
    ensures Sum(representation, Itself()) == 0
    decreases |representation|
  {
    if representation != map[] {
      var r :| r in representation;
      SumWithout(representation, Itself(), r);
      assert Weight(representation, r) == 0;
      forall q
        ensures Weight(representation - {r}, q) == 0
      {
        assert Weight(representation, q) == 0;
      }
      SumOfZeros(representation - {r});
    }
  }

  /** All the weight there is and all the pending amounts make up the genesis amount: no block creates or destroys money
      or votes, and no 128-bit sum wraps around. */
  lemma VotesAndPendingAddUp(t: Tables, l: Lattice)
    requires Store.Valid(t, l)
    ensures Sum(t.representation, Itself()) + Sum(t.pending, AmountOf()) == 0xFFFF_FFFF_FFFF_FFFF_FFFF_FFFF_FFFF_FFFF
    ensures Sum(Holdings(t.accounts, t.blocks), BalanceOf()) == Sum(t.representation, Itself())
  {
    WeightsAddUp(t.representation, Holdings(t.accounts, t.blocks));
  }
}
