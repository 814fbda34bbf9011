/**
 What the ledger answers, said of the stored blocks alone: which blocks are accepted, what each refusal reports, and which
 balance walks, blocks and rollbacks come to an end.
 */
module LedgerAnswers {
  import opened Lattice
  import opened Store
  import L = Ledger

  // ---------------------------------------------------------------------------------------------------------
  // Facts of the stored blocks
  // ---------------------------------------------------------------------------------------------------------

  /** Some stored block follows `p`. */
  ghost predicate Followed(l: Lattice, p: Hash) {
    exists x :: x in l.blocks && !l.blocks[x].Open? && l.blocks[x].previous == p
  }

  /** Some stored block opens account `a`. */
  ghost predicate HasOpen(l: Lattice, a: Account) {
    exists x :: x in l.blocks && l.blocks[x].Open? && l.blocks[x].account == a
  }

  /** Some stored block has collected `s`. */
  ghost predicate IsCollected(l: Lattice, s: Hash) {
    exists x :: x in l.blocks && x != l.genesis && l.blocks[x].Collects() && l.blocks[x].source == s
  }

  /** If a chain goes on above `p`, some block follows `p`. */
  lemma {:induction false} FollowedBelow(l: Lattice, p: Hash, x: Hash)
    requires Chains(l) && p in l.blocks && x in l.blocks
    requires l.place[x].account == l.place[p].account && l.place[p].height < l.place[x].height
    ensures Followed(l, p)
    decreases l.place[x].height
  {
    assert Placed(l, x) && Placed(l, p);
    var below := l.blocks[x].previous;
    if SamePlace(l.place[below], l.place[p]) {
      assert below == p;
    } else {
      FollowedBelow(l, p, below);
    }
  }

  /** The last block of a chain is the one that no block follows. */
  lemma HeadExactlyWhen(l: Lattice, p: Hash)
    requires Chains(l) && p in l.blocks
    ensures IsHead(l, p) <==> !Followed(l, p)
  {
    if x :| x in l.blocks && !l.blocks[x].Open? && l.blocks[x].previous == p {
      assert Placed(l, x);
    }
    if !IsHead(l, p) {
      var x :| x in l.place && l.place[x].account == l.place[p].account && l.place[p].height < l.place[x].height;
      FollowedBelow(l, p, x);
    }
  }

  /** At the bottom of every chain is an open block. */
  lemma {:induction false} OpenAtBottom(l: Lattice, x: Hash)
    requires Chains(l) && x in l.blocks
    ensures HasOpen(l, l.place[x].account)
    decreases l.place[x].height
  {
    assert Placed(l, x);
    if !l.blocks[x].Open? { OpenAtBottom(l, l.blocks[x].previous); }
  }

  lemma OpenedExactlyWhen(l: Lattice, a: Account)
    requires Chains(l)
    ensures L.IsOpened(l, a) <==> HasOpen(l, a)
  {
    if x :| x in l.place && l.place[x].account == a { OpenAtBottom(l, x); }
    if x :| x in l.blocks && l.blocks[x].Open? && l.blocks[x].account == a { assert Placed(l, x); }
  }

  lemma CollectedExactlyWhen(l: Lattice, s: Hash)
    requires Receipts(l)
    ensures s in l.receipts <==> IsCollected(l, s)
  {
    if s in l.receipts { assert Collected(l, s); }
    if x :| x in l.blocks && x != l.genesis && l.blocks[x].Collects() && l.blocks[x].source == s { assert Receipted(l, x); }
  }

  /** The account whose chain block `b` goes on. */
  ghost function Owner(l: Lattice, b: Block): Account
    requires Chains(l) && (!b.Open? ==> b.previous in l.blocks)
  {
    if b.Open? then b.account else l.place[b.previous].account
  }

  /** `s` is a stored send to `a` that no stored block has collected. */
  ghost predicate Waiting(l: Lattice, s: Hash, a: Account) {
    s in l.blocks && l.blocks[s].Send? && l.blocks[s].destination == a && !IsCollected(l, s)
  }

  // ---------------------------------------------------------------------------------------------------------
  // Answers
  // ---------------------------------------------------------------------------------------------------------

  /** What the answer depends on, without heads, receipts and opened accounts. */
  lemma Facts(l: Lattice, b: Block)
    requires Chains(l) && Receipts(l)
    ensures !b.Open? && b.previous in l.blocks ==> (IsHead(l, b.previous) <==> !Followed(l, b.previous))
    ensures b.Open? ==> (L.IsOpened(l, b.account) <==> HasOpen(l, b.account))
    ensures b.Collects() ==> forall a :: Collectable(l, b.source, a) <==> Waiting(l, b.source, a)
  {
    if b.Open? {
      OpenedExactlyWhen(l, b.account);
    } else if b.previous in l.blocks {
      HeadExactlyWhen(l, b.previous);
    }
    if b.Collects() { CollectedExactlyWhen(l, b.source); }
  }

  /** A block is accepted exactly when it is new, goes on top of a chain or opens an account that has none, is signed by
      that account, collects a send that waits for the account, leaves no more than there was, and needs no endless walk. */
  lemma AcceptedExactlyWhen(l: Lattice, h: Hash, b: Block, signers: set<Account>)
    requires Chains(l) && Receipts(l)
    ensures L.Verdict(l, h, b, signers) == L.Progress <==>
              && h !in l.blocks
              && (if b.Open? then !HasOpen(l, b.account) && b.account != 0
                  else b.previous in l.blocks && !Followed(l, b.previous))
              && Owner(l, b) in signers
              && (b.Collects() ==> Waiting(l, b.source, Owner(l, b)))
              && (b.Send? ==> b.balance <= l.place[b.previous].balance)
              && (b.Change? ==> Walkable(l, b.previous))
  {
    Facts(l, b);
  }

  /** What each refusal reports, exactly. */
  lemma RefusedExactlyWhen(l: Lattice, h: Hash, b: Block, signers: set<Account>)
    requires Chains(l) && Receipts(l)
    ensures var code := L.Verdict(l, h, b, signers);
            var missing := b.Collects() && b.source !in l.blocks;
            var gap := !b.Open? && b.previous !in l.blocks;
            && (code == L.Old <==> h in l.blocks)
            && (code == L.GapSource <==> h !in l.blocks && missing)
            && (code == L.GapPrevious <==> h !in l.blocks && !missing && gap)
            && (h !in l.blocks && !missing && !gap ==>
                  && (!b.Open? ==> (code == L.Fork <==> Followed(l, b.previous)))
                  && (b.Open? ==> (code == L.Fork <==> b.account in signers && HasOpen(l, b.account)))
                  && (code == L.BadSignature <==>
                        Owner(l, b) !in signers && (!b.Open? ==> !Followed(l, b.previous)))
                  && (code == L.Unreceivable <==>
                        && b.Collects() && Owner(l, b) in signers && !Waiting(l, b.source, Owner(l, b))
                        && (if b.Open? then !HasOpen(l, b.account) else !Followed(l, b.previous)))
                  && (code == L.Overspend <==>
                        && b.Send? && Owner(l, b) in signers && !Followed(l, b.previous)
                        && b.balance > l.place[b.previous].balance)
                  && (code == L.OpenedBurnAccount <==>
                        && b.Open? && b.account == 0 && Owner(l, b) in signers && !HasOpen(l, b.account)
                        && Waiting(l, b.source, 0))
                  && (code == L.NoReturn <==>
                        && b.Change? && Owner(l, b) in signers && !Followed(l, b.previous)
                        && !Walkable(l, b.previous)))
  {
    Facts(l, b);
  }

  /** What accepting a block does to the lattice: the block is there, in the chain of its owner, with the balance it states,
      leaves or collects; nothing else moves. */
  lemma AcceptedMeans(l: Lattice, h: Hash, b: Block)
    requires Chains(l) && Receipts(l) && Fits(l, h, b)
    ensures var n := Accepted(l, h, b);
            && n.blocks == l.blocks[h := b] && n.genesis == l.genesis && n.genesisAccount == l.genesisAccount
            && h in n.place && n.place - {h} == l.place
            && n.place[h].account == Owner(l, b)
            && n.place[h].height == (if b.Open? then 1 else l.place[b.previous].height + 1)
            && n.place[h].balance == (match b
                 case Send(_, _, balance) => balance
                 case SendV2(previous, _) => l.place[previous].balance
                 case Receive(previous, source) => l.place[previous].balance + l.place[source].amount
                 case Open(source, _, _) => l.place[source].amount
                 case Change(previous, _) => l.place[previous].balance)
            && (b.Send? ==> n.place[h].amount == l.place[b.previous].balance - b.balance)
            && forall s :: s in n.receipts <==> s in l.receipts || (b.Collects() && s == b.source)
  {
    assert Accepted(l, h, b).place - {h} == l.place;
  }

  /** What taking blocks off does to it. */
  lemma RemovedMeans(l: Lattice, gone: set<Hash>)
    requires Chains(l)
    ensures var n := Remove(l, gone);
            && n.genesis == l.genesis && n.genesisAccount == l.genesisAccount
            && (forall x :: x in n.blocks <==> x in l.blocks && x !in gone)
            && (forall x | x in n.blocks :: n.blocks[x] == l.blocks[x] && x in n.place && n.place[x] == l.place[x])
            && forall s :: s in n.receipts <==> s in l.receipts && s !in gone && l.receipts[s] !in gone
  {}

  // ---------------------------------------------------------------------------------------------------------
  // Which walks end
  // ---------------------------------------------------------------------------------------------------------

  /** `x` lies in the chain of `h`, above `s` and not above `h`. */
  ghost predicate Above(l: Lattice, s: Hash, x: Hash, h: Hash)
    requires s in l.place && x in l.place && h in l.place
  {
    && l.place[x].account == l.place[h].account
    && l.place[s].height < l.place[x].height <= l.place[h].height
  }

  /** The walk below the send that `x` collects ends. */
  ghost predicate SourceEnds(l: Lattice, x: Hash)
    requires Chains(l) && x in l.blocks
  {
    assert Placed(l, x);
    l.blocks[x].Collects() && x != l.genesis ==>
      (assert Placed(l, l.blocks[x].source); Walkable(l, l.blocks[l.blocks[x].source].previous))
  }

  /** The balance after `s` is known without its chain: it is written in the block, it is what the block collects, or it is
      stored because the height is a multiple of 32. */
  ghost predicate KnowsBalance(l: Lattice, s: Hash)
    requires s in l.blocks && s in l.place
  {
    l.blocks[s].Send? || l.blocks[s].Open? || (!l.blocks[s].SendV2? && l.place[s].height % 32 == 0)
  }

  /** Down the chain from `h` to `s` there are only receives and changes, `s` knows its balance, and the sends collected on
      the way have amounts. */
  ghost predicate StopsAt(l: Lattice, h: Hash, s: Hash)
    requires Chains(l) && h in l.blocks
  {
    && s in l.blocks && l.place[s].account == l.place[h].account && l.place[s].height <= l.place[h].height
    && KnowsBalance(l, s) && SourceEnds(l, s)
    && forall x {:trigger Above(l, s, x, h)} | x in l.blocks && Above(l, s, x, h) :: PassedOver(l, x)
  }

  /** The walk goes on below `x`. */
  ghost predicate PassedOver(l: Lattice, x: Hash)
    requires Chains(l) && x in l.blocks
  {
    (l.blocks[x].Receive? || l.blocks[x].Change?) && SourceEnds(l, x)
  }

  lemma SourceEndsExactlyWhen(l: Lattice, x: Hash)
    requires Chains(l) && x in l.blocks
    ensures l.blocks[x].Collects() && x != l.genesis ==>
              l.blocks[x].source in l.blocks && l.blocks[l.blocks[x].source].Send?
    ensures SourceEnds(l, x) <==> (l.blocks[x].Collects() && x != l.genesis ==> SendWalkable(l, l.blocks[x].source))
  {
    assert Placed(l, x);
    if l.blocks[x].Collects() && x != l.genesis { assert Placed(l, l.blocks[x].source); }
  }

  lemma StopsBelow(l: Lattice, h: Hash, s: Hash)
    requires Chains(l) && h in l.blocks && PassedOver(l, h)
    requires l.blocks[h].previous in l.blocks && StopsAt(l, l.blocks[h].previous, s)
    ensures StopsAt(l, h, s)
  {
    assert Placed(l, h);
    var below := l.blocks[h].previous;
    forall x | x in l.blocks && Above(l, s, x, h)
      ensures PassedOver(l, x)
    {
      if l.place[x].height == l.place[h].height {
        assert SamePlace(l.place[x], l.place[h]);
      } else {
        assert Above(l, s, x, below);
      }
    }
  }

  lemma StopsAbove(l: Lattice, h: Hash, s: Hash)
    requires Chains(l) && h in l.blocks && StopsAt(l, h, s) && s != h
    ensures PassedOver(l, h)
    ensures l.blocks[h].previous in l.blocks && StopsAt(l, l.blocks[h].previous, s)
  {
    assert Placed(l, h);
    assert !SamePlace(l.place[s], l.place[h]);
    assert Above(l, s, h, h);
    var below := l.blocks[h].previous;
    forall x | x in l.blocks && Above(l, s, x, below)
      ensures PassedOver(l, x)
    {
      assert Above(l, s, x, h);
    }
  }

  /** The balance walk from `h` ends exactly when it comes to a block that knows its balance before any SendV2 block. */
  lemma {:induction false} WalkEndsExactlyWhen(l: Lattice, h: Hash)
    requires Chains(l) && h in l.blocks
    ensures Walkable(l, h) <==> exists s :: StopsAt(l, h, s)
    decreases l.place[h].rank
  {
    assert Placed(l, h);
    var b := l.blocks[h];
    SourceEndsExactlyWhen(l, h);
    if b.Receive? || b.Change? { WalkEndsExactlyWhen(l, b.previous); }
    if Walkable(l, h) {
      if KnowsBalance(l, h) {
        assert StopsAt(l, h, h);
      } else {
        var s :| StopsAt(l, b.previous, s);
        StopsBelow(l, h, s);
      }
    }
    if s :| StopsAt(l, h, s) {
      if s != h { StopsAbove(l, h, s); }
    }
  }

  /** A block can be undone exactly when it is no SendV2 block and the walks from the block below it and from below the send
      it collects end. */
  lemma ReversibleExactlyWhen(l: Lattice, x: Hash)
    requires Chains(l) && x in l.blocks && x != l.genesis
    ensures Reversible(l, x) <==>
              && !l.blocks[x].SendV2? && SourceEnds(l, x)
              && (!l.blocks[x].Open? ==> exists s :: l.blocks[x].previous in l.blocks && StopsAt(l, l.blocks[x].previous, s))
  {
    assert Placed(l, x);
    SourceEndsExactlyWhen(l, x);
    if !l.blocks[x].Open? { WalkEndsExactlyWhen(l, l.blocks[x].previous); }
  }

  /** The amount of a block is found exactly when the walk from below the send ends: the block itself if it is one, or the
      one that it collects. */
  lemma AmountEndsExactlyWhen(l: Lattice, h: Hash)
    requires Chains(l) && h in l.blocks
    ensures l.blocks[h].Send? ==>
              l.blocks[h].previous in l.blocks && (L.AmountWalkable(l, h) <==> Walkable(l, l.blocks[h].previous))
    ensures !l.blocks[h].Send? ==> (L.AmountWalkable(l, h) <==> SourceEnds(l, h))
    ensures !l.blocks[h].Open? ==> l.blocks[h].previous in l.blocks && L.BalanceBelow(l, h) == l.place[l.blocks[h].previous].balance
    ensures l.blocks[h].Open? ==> L.BalanceBelow(l, h) == 0
  {
    assert Placed(l, h);
    SourceEndsExactlyWhen(l, h);
  }

  /** A walk that does not end comes upon a SendV2 block, on which its start depends. */
  lemma {:induction false} StuckAtSecondKind(l: Lattice, h: Hash) returns (x: Hash)
    requires Chains(l) && h in l.blocks && !Walkable(l, h)
    ensures x in l.blocks && l.blocks[x].SendV2? && DependsOn(l, h, x)
    decreases l.place[h].rank, 1
  {
    assert Placed(l, h);
    match l.blocks[h]
    case SendV2(_, _) => x := h;
    case Receive(previous, source) =>
      if SendWalkable(l, source) { x := StuckAtSecondKind(l, previous); } else { x := SendStuckAtSecondKind(l, source); }
    case Open(source, _, _) => x := SendStuckAtSecondKind(l, source);
    case Change(previous, _) => x := StuckAtSecondKind(l, previous);
  }

  lemma {:induction false} SendStuckAtSecondKind(l: Lattice, s: Hash) returns (x: Hash)
    requires Chains(l) && s in l.blocks && l.blocks[s].Send? && !SendWalkable(l, s)
    ensures x in l.blocks && l.blocks[x].SendV2? && DependsOn(l, s, x)
    decreases l.place[s].rank, 0
  {
    assert Placed(l, s);
    x := StuckAtSecondKind(l, l.blocks[s].previous);
  }

  /** A block that cannot be undone is, or depends on, a SendV2 block. */
  lemma IrreversibleBySecondKind(l: Lattice, h: Hash) returns (x: Hash)
    requires Chains(l) && h in l.blocks && h != l.genesis && !Reversible(l, h)
    ensures x in l.blocks && l.blocks[x].SendV2? && DependsOn(l, h, x)
  {
    assert Placed(l, h);
    var b := l.blocks[h];
    if b.SendV2? {
      x := h;
    } else if b.Collects() && !SendWalkable(l, b.source) {
      x := SendStuckAtSecondKind(l, b.source);
    } else {
      x := StuckAtSecondKind(l, b.previous);
    }
  }

  /** In a ledger without SendV2 blocks every walk ends, every block but the first can be rolled back, and every call of
      `process` returns. */
  lemma EverythingReturns(l: Lattice)
    requires Chains(l) && (forall x | x in l.blocks :: !l.blocks[x].SendV2?)
    ensures forall h | h in l.blocks :: Walkable(l, h) && AllReversible(l, h)
    ensures forall h, b, signers :: L.Verdict(l, h, b, signers) != L.NoReturn
  {
    forall h | h in l.blocks
      ensures Walkable(l, h)
      ensures h != l.genesis ==> Reversible(l, h)
    {
      if !Walkable(l, h) { var x := StuckAtSecondKind(l, h); }
      if h != l.genesis && !Reversible(l, h) { var x := IrreversibleBySecondKind(l, h); }
    }
  }

  /** So does every call on such a ledger. */
  method CallsReturn(ledger: L.Ledger, h: Hash, b: Block, signers: set<Account>, k: Hash)
    returns (walk: L.Walk, code: L.Code, ending: L.Ending)
    requires ledger.Valid() && (L.CheckVerdict(ledger.lattice, h, b, signers) == L.Progress ==> !Reserved(ledger.lattice, h))
    requires !b.SendV2? && (forall x | x in ledger.lattice.blocks :: !ledger.lattice.blocks[x].SendV2?)
    requires k in ledger.lattice.blocks && k != ledger.lattice.genesis
    modifies ledger
    ensures walk == L.Ends(old(ledger.lattice.place[k].balance)) && code != L.NoReturn && ending == L.Returned
  {
    EverythingReturns(ledger.lattice);
    L.TablesReadable(ledger.View(), ledger.lattice);
    walk := ledger.Balance(ledger.lattice, k);
    code := ledger.Process(h, b, signers);
    EverythingReturns(ledger.lattice);
    ending := ledger.Rollback(k);
  }

  // ---------------------------------------------------------------------------------------------------------
  // Representatives
  // ---------------------------------------------------------------------------------------------------------

  /** The representative block of `h` is the last block up to `h` in its chain that opens the account or changes the
      representative. */
  lemma {:induction false} RepresentativeIsLastNamed(l: Lattice, h: Hash, x: Hash)
    requires Chains(l) && h in l.blocks && x in l.blocks && l.place[x].account == l.place[h].account
    requires l.place[x].height <= l.place[h].height && (l.blocks[x].Open? || l.blocks[x].Change?)
    ensures var r := l.place[h].repBlock;
            && r in l.blocks && (l.blocks[r].Open? || l.blocks[r].Change?)
            && l.place[r].account == l.place[h].account
            && l.place[x].height <= l.place[r].height <= l.place[h].height
    decreases l.place[h].height
  {
    assert Placed(l, h) && Placed(l, x);
    if SamePlace(l.place[x], l.place[h]) {
      assert x == h;
    } else if !l.blocks[h].Open? && !l.blocks[h].Change? {
      RepresentativeIsLastNamed(l, l.blocks[h].previous, x);
    }
  }
}
